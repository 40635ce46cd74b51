/** The search-result poller, `Logpoint.QueryResult` (logpoint/logpoint.go).
    The client re-sends the same request, carrying only the search identifier,
    until a page says the result is complete; it appends every page's rows and
    keeps the metadata of the last page. The service's answers are an oracle: a
    finite sequence of responses, one per poll, in the order they arrive. The
    client has no attempt limit and would go on polling for ever; when the
    oracle runs out before a terminal page, the model reports `Unfinished`. */
module LogpointPoll {
  import opened Models
  import opened Logpoint

  /** What one poll yields: a transport error or a decoded page. */
  type Response<Row> = Transport<SearchPage<Row>>

  datatype PollError =
    | TransportError(err: string)   // getSearchLogs failed; the error is returned as is
    | Rejected(message: string)     // a non-terminal page reported failure; its message is the error text
    | Unfinished                    // the responses ran out before a terminal page

  datatype Outcome<Row> = Finished(result: SearchResult<Row>) | Failed(error: PollError)

  /** The outcome of a poll run and how many responses it consumed. */
  datatype PollRun<Row> = PollRun(outcome: Outcome<Row>, consumed: nat)

  /** A page after which no further poll is made. */
  predicate Terminal<Row>(page: SearchPage<Row>) {
    page.status.final || page.status.totalPages == 0
  }

  /** A response after which the poller sends another request. */
  predicate KeepsPolling<Row>(r: Response<Row>) {
    r.Delivered? && !Terminal(r.body) && r.body.status.success
  }

  /** The request data of every poll. */
  function PollPayload(searchId: string): map<string, Json> {
    map["searchId" := JString(searchId)]
  }

  /** The rows of the delivered pages among `rs`, in order. */
  function Rows<Row>(rs: seq<Response<Row>>): seq<Row> {
    if rs == [] then []
    else (if rs[0].Delivered? then rs[0].body.rows else []) + Rows(rs[1..])
  }

  /** A run that first went through `n` responses contributing `rows`. */
  function After<Row>(rows: seq<Row>, n: nat, run: PollRun<Row>): PollRun<Row> {
    var outcome := match run.outcome
      case Finished(r) => Finished(SearchResult(r.meta, rows + r.rows))
      case Failed(e) => Failed(e);
    PollRun(outcome, run.consumed + n)
  }

  /** The poller's behaviour on a sequence of responses, page by page. */
  function Poll<Row>(rs: seq<Response<Row>>): (run: PollRun<Row>)
    ensures run.consumed <= |rs|
    ensures run.outcome == Failed(Unfinished) <==> run.consumed == |rs| && forall j :: 0 <= j < |rs| ==> KeepsPolling(rs[j])
    ensures run.outcome != Failed(Unfinished) ==> run.consumed >= 1
  {
    if rs == [] then PollRun(Failed(Unfinished), 0)
    else match rs[0]
      case TransportFailed(err) => PollRun(Failed(TransportError(err)), 1)
      case Delivered(page) =>
        if Terminal(page) then PollRun(Finished(SearchResult(page.meta, page.rows)), 1)
        else if !page.status.success then PollRun(Failed(Rejected(page.status.message)), 1)
        else
          var rest := Poll(rs[1..]);
          assert forall j :: 1 <= j < |rs| ==> rs[j] == rs[1..][j - 1];
          After(page.rows, 1, rest)
  }

  lemma AfterAfter<Row>(a: seq<Row>, m: nat, b: seq<Row>, n: nat, run: PollRun<Row>)
    ensures After(a, m, After(b, n, run)) == After(a + b, m + n, run)
  {
    if run.outcome.Finished? {
      assert a + (b + run.outcome.result.rows) == (a + b) + run.outcome.result.rows;
    }
  }

  /** QueryResult: polls with the same request until a terminal page arrives,
      accumulating rows and overwriting the metadata. Returns the run and the
      calls it sent, one per consumed response. */
  method QueryResult<Row>(lp: Logpoint, searchId: string, responses: seq<Response<Row>>)
    returns (run: PollRun<Row>, sent: seq<SearchLogsCall>)
    ensures run == Poll(responses)
    ensures |sent| == run.consumed
    ensures forall k :: 0 <= k < |sent| ==> sent[k] == SearchLogsCallOf(lp, PollPayload(searchId))
  {
    var payload := PollPayload(searchId);
    var finished := false;
    var rows: seq<Row> := [];
    var meta := EmptyMeta;
    var i := 0;
    sent := [];
    while !finished
      invariant 0 <= i <= |responses|
      invariant |sent| == i
      invariant forall k :: 0 <= k < i ==> sent[k] == SearchLogsCallOf(lp, PollPayload(searchId))
      invariant !finished ==> Poll(responses) == After(rows, i, Poll(responses[i..]))
      invariant finished ==> Poll(responses) == PollRun(Finished(SearchResult(meta, rows)), i)
      decreases |responses| - i
    {
      if i == |responses| {
        run := PollRun(Failed(Unfinished), i);
        return;
      }
      sent := sent + [SearchLogsCallOf(lp, payload)];
      var res := responses[i];
      assert responses[i..][0] == res && responses[i..][1..] == responses[i + 1..];
      i := i + 1;
      match res {
        case TransportFailed(err) =>
          run := PollRun(Failed(TransportError(err)), i);
          return;
        case Delivered(page) =>
          finished := page.status.final || page.status.totalPages == 0;
          AfterAfter(rows, i - 1, page.rows, 1, Poll(responses[i..]));
          rows := rows + page.rows;
          meta := MetaFields(page.meta.numAggregated, page.meta.columns, page.meta.grouping,
                             page.meta.interestingFields, page.meta.timeRange);
          if !page.status.success && !finished {
            run := PollRun(Failed(Rejected(page.status.message)), i);
            return;
          }
      }
    }
    run := PollRun(Finished(SearchResult(meta, rows)), i);
  }

  /** A finished run stopped at its first terminal page: every earlier response
      was a successful non-terminal page, the rows are all received rows in
      arrival order, and the metadata is the last page's, not a merge. */
  lemma {:induction false} FinishedRun<Row>(rs: seq<Response<Row>>)
    requires Poll(rs).outcome.Finished?
    ensures var n := Poll(rs).consumed;
            1 <= n <= |rs|
            && (forall j :: 0 <= j < n - 1 ==> KeepsPolling(rs[j]))
            && rs[n - 1].Delivered? && Terminal(rs[n - 1].body)
            && Poll(rs).outcome.result.rows == Rows(rs[..n])
            && Poll(rs).outcome.result.meta == rs[n - 1].body.meta
  {
    var n := Poll(rs).consumed;
    if !KeepsPolling(rs[0]) {
      assert rs[..1] == [rs[0]];
      assert Rows(rs[..1]) == rs[0].body.rows + Rows(rs[..1][1..]);
    } else {
      FinishedRun(rs[1..]);
      assert rs[..n][1..] == rs[1..][..n - 1];
      forall j | 0 <= j < n - 1 ensures KeepsPolling(rs[j]) {
        if j > 0 { assert rs[j] == rs[1..][j - 1]; }
      }
    }
  }

  /** A rejected run stopped at a non-terminal page that reported failure, and
      the error text is that page's message. */
  lemma {:induction false} RejectedRun<Row>(rs: seq<Response<Row>>, message: string)
    requires Poll(rs).outcome == Failed(Rejected(message))
    ensures var n := Poll(rs).consumed;
            1 <= n <= |rs|
            && (forall j :: 0 <= j < n - 1 ==> KeepsPolling(rs[j]))
            && rs[n - 1].Delivered? && !Terminal(rs[n - 1].body)
            && !rs[n - 1].body.status.success && rs[n - 1].body.status.message == message
  {
    var n := Poll(rs).consumed;
    if KeepsPolling(rs[0]) {
      RejectedRun(rs[1..], message);
      forall j | 0 <= j < n - 1 ensures KeepsPolling(rs[j]) {
        if j > 0 { assert rs[j] == rs[1..][j - 1]; }
      }
    }
  }

  /** A transport error ends the run at the response that carried it. */
  lemma {:induction false} TransportErrorRun<Row>(rs: seq<Response<Row>>, err: string)
    requires Poll(rs).outcome == Failed(TransportError(err))
    ensures var n := Poll(rs).consumed;
            1 <= n <= |rs|
            && (forall j :: 0 <= j < n - 1 ==> KeepsPolling(rs[j]))
            && rs[n - 1] == TransportFailed(err)
  {
    var n := Poll(rs).consumed;
    if KeepsPolling(rs[0]) {
      TransportErrorRun(rs[1..], err);
      forall j | 0 <= j < n - 1 ensures KeepsPolling(rs[j]) {
        if j > 0 { assert rs[j] == rs[1..][j - 1]; }
      }
    }
  }

  /** Conversely, the first response after which the poller does not go on
      decides the run, which consumes exactly the responses up to it. A terminal
      page finishes the run with its rows even when it reports failure; only a
      non-terminal page's failure is an error. */
  lemma {:induction false} FirstStopDecides<Row>(rs: seq<Response<Row>>, n: nat)
    requires n < |rs|
    requires forall j :: 0 <= j < n ==> KeepsPolling(rs[j])
    requires !KeepsPolling(rs[n])
    ensures Poll(rs).consumed == n + 1
    ensures rs[n].TransportFailed? ==> Poll(rs).outcome == Failed(TransportError(rs[n].err))
    ensures rs[n].Delivered? && Terminal(rs[n].body) ==>
              Poll(rs).outcome == Finished(SearchResult(rs[n].body.meta, Rows(rs[..n + 1])))
    ensures rs[n].Delivered? && !Terminal(rs[n].body) ==>
              !rs[n].body.status.success && Poll(rs).outcome == Failed(Rejected(rs[n].body.status.message))
  {
    if n == 0 {
      if rs[0].Delivered? {
        assert rs[..1] == [rs[0]];
        assert Rows(rs[..1]) == rs[0].body.rows + Rows(rs[..1][1..]);
      }
    } else {
      forall j | 0 <= j < n - 1 ensures KeepsPolling(rs[1..][j]) {
        assert rs[1..][j] == rs[j + 1];
      }
      FirstStopDecides(rs[1..], n - 1);
      assert rs[..n + 1][1..] == rs[1..][..n];
    }
  }

  /** Responses after the one that ends a run are never consumed: appending
      more of them changes nothing. */
  lemma {:induction false} LaterResponsesIgnored<Row>(rs: seq<Response<Row>>, more: seq<Response<Row>>)
    requires Poll(rs).outcome != Failed(Unfinished)
    ensures Poll(rs + more) == Poll(rs)
  {
    assert (rs + more)[0] == rs[0];
    if KeepsPolling(rs[0]) {
      assert (rs + more)[1..] == rs[1..] + more;
      LaterResponsesIgnored(rs[1..], more);
    }
  }

  /** A page is terminal exactly when, arriving first, it finishes the run
      after one poll with its own rows and metadata, whatever follows it. */
  lemma TerminalPageEndsRun<Row>(page: SearchPage<Row>, more: seq<Response<Row>>)
    ensures Terminal(page) <==>
            Poll([Delivered(page)] + more) == PollRun(Finished(SearchResult(page.meta, page.rows)), 1)
  {
  }

  /** Three pages, the last one final, give all four rows in order. */
  lemma ThreePageScenario<Row>(m: MetaFields, s: StatusFields, r1: Row, r2: Row, r3: Row, r4: Row)
    requires s.success && s.totalPages == 3 && !s.final
    ensures var final := s.(final := true);
            var rs := [Delivered(SearchPage(m, s, [r1, r2])), Delivered(SearchPage(m, s, [r3])),
                       Delivered(SearchPage(m, final, [r4]))];
            Poll(rs) == PollRun(Finished(SearchResult(m, [r1, r2, r3, r4])), 3)
  {
    var final := s.(final := true);
    var rs := [Delivered(SearchPage(m, s, [r1, r2])), Delivered(SearchPage(m, s, [r3])),
               Delivered(SearchPage(m, final, [r4]))];
    assert rs[1..][1..] == [rs[2]];
    assert Poll(rs[1..][1..]) == PollRun(Finished(SearchResult(m, [r4])), 1);
    assert [r1, r2] + ([r3] + [r4]) == [r1, r2, r3, r4];
  }

  /** A page with no pages in total ends the run after one request, whatever its
      final and success flags say, and whatever responses would follow. */
  lemma ZeroPagesEndsRun<Row>(page: SearchPage<Row>, more: seq<Response<Row>>)
    requires page.status.totalPages == 0
    ensures Poll([Delivered(page)] + more) == PollRun(Finished(SearchResult(page.meta, page.rows)), 1)
  {
  }
}
