# go-logpoint client: a Dafny model

This project models the client library for the Logpoint log-search HTTP API
(`logpoint/logpoint.go`). The part with behaviour worth stating is the
search-result poller `QueryResult`. It re-sends one request carrying only the
search identifier until the service reports completion. It appends every
page's rows in arrival order and keeps the metadata of the last page.
Beside it sit three pure pieces:

- the base-URL cleanup in `New`;
- the form-encoded body that `getSearchLogs` posts;
- the payload and timeout advisory of `Query`.

Files and modules:

- `models.dfy`, module `Models`: the response records of the `models` package
  (`LogpointSearchResultMetaFields` as `MetaFields`, the status fields as
  `StatusFields`, `LogpointSearchResult` as `SearchPage`, `SearchResult`,
  `QueryRequestResponse`), the JSON values of request payloads, and
  `Transport<T>`, the outcome of one HTTP round trip. Rows are opaque: a type
  parameter `Row`. The completion flag is read from the wire key `"finial"`
  (`FinalWireKey`) and exposed as `final`.
- `logpoint.dfy`, module `Logpoint`: `New`, `TrimSuffix` (Go's
  `strings.TrimSuffix`), the route and `FormBody` of `getSearchLogs`, with
  `FormFields` (reading a form body back by splitting on `&`), and `Query`.
- `poll.dfy`, module `LogpointPoll`: the poller. `Poll` is the specification:
  a recursive function over the sequence of responses, one per poll. The method
  `QueryResult` is the source's loop: a `while` loop over an index into the
  responses, with a growing row accumulator and an overwritten metadata record.
  It is proved equal to `Poll`. The lemmas then prove what the poller promises
  about `Poll`.

The service is an oracle. Each poll takes the next element of a finite sequence
of responses, and each response is a transport error or a decoded page. The Go
loop has no attempt limit and would poll for ever if no terminal page came.
When the sequence runs out first, the model reports `Unfinished`; it adds no
retry budget.

The Go loop has no attempt limit. A page's rows and metadata are taken before
its success flag is checked; this makes no visible difference, because a
rejection returns no result. `GetRepos` builds an error for an unsuccessful
answer and then discards it.

`Logpoint.FormBody`, `Logpoint.SearchLogsRoute` and `LogpointPoll.Terminal`
are the definitions of logpoint/logpoint.go lines 51, 55 and 122. What they
mean is stated by `FormBodyRoundTrip`, `RouteHasSingleSlash` and
`TerminalPageEndsRun`.

## Model

| member | source | states |
|---|---|---|
| Models.JsonStrings | logpoint/logpoint.go:99 | the `repos` argument becomes a JSON array with the same strings in the same order |
| Logpoint.TrimSuffix | logpoint/logpoint.go:31 | the result with the suffix put back is the input when the input ends with the suffix, and the input is unchanged otherwise |
| Logpoint.New | logpoint/logpoint.go:23-40 | a URL that fails to parse panics with the parse error; otherwise the client keeps the credentials and log flag, and its URL is the parsed URL less one trailing '/' exactly when the parsed URL ends in '/' |
| Logpoint.NewTrimsAtMostOneSlash | logpoint/logpoint.go:31 | the stored URL is a prefix of the parsed URL at most one character shorter; "x//" is stored as "x/" |
| Logpoint.RouteHasSingleSlash | logpoint/logpoint.go:55 | when the parsed URL does not end in "//", the base URL and "/getsearchlogs" join with a single '/' |
| Logpoint.FormBodyRoundTrip | logpoint/logpoint.go:50-51 | the body splits into exactly three '&'-separated fields `username=`, `secret_key=` and `requestData=` if and only if neither credential nor the escaped payload contains '&'; the credentials are not escaped |
| Logpoint.Query | logpoint/logpoint.go:88-102 | the payload has exactly the keys timeout, query, time_range, limit and repos, each carrying its argument unchanged; the advisory is printed iff the timeout is outside 5..90; the call to /getsearchlogs is made either way and its answer returned unchanged |
| Logpoint.AdvisoryLeavesRequestAlone | logpoint/logpoint.go:90-100 | two submissions that differ only in the timeout send payloads that agree on every other key |
| Logpoint.ShortTimeoutStillSent | logpoint/logpoint.go:90-101 | a two-second timeout is advised against and is still sent as 2 |
| LogpointPoll.TerminalPageEndsRun | logpoint/logpoint.go:122 | a page is terminal (final flag set or zero total pages) exactly when, arriving first, it ends the run after one poll with its own rows and metadata, whatever its success flag and whatever responses follow |
| LogpointPoll.Poll | logpoint/logpoint.go:112-137 | a run consumes at most all responses; it ends unfinished iff it consumed every response and each was a successful non-terminal page; any other outcome consumed at least one response |
| LogpointPoll.QueryResult | logpoint/logpoint.go:105-144 | the loop's outcome and number of responses consumed equal `Poll` of the responses; it sends one call per consumed response, each the same `{"searchId": searchId}` request to the client's /getsearchlogs route |
| LogpointPoll.FinishedRun | logpoint/logpoint.go:114-143 | a successful result stopped at the first terminal page (final or zero total pages), every earlier page being successful and non-terminal; its rows are the concatenation of all received rows in arrival order, and its metadata is the last page's |
| LogpointPoll.RejectedRun | logpoint/logpoint.go:132-133 | a rejection comes from a non-terminal page with the success flag false, after successful non-terminal pages only, and its error text is that page's message |
| LogpointPoll.TransportErrorRun | logpoint/logpoint.go:118-121 | a transport error ends the run at the response that carried it, returns that error and no rows |
| LogpointPoll.FirstStopDecides | logpoint/logpoint.go:116-134 | the first response after which the poller does not go on decides the run, and exactly the responses up to it are consumed: a transport error returns it; a terminal page finishes with all rows so far and its own metadata, whatever its success flag; a non-terminal page is then one with success false, and the run fails with its message |
| LogpointPoll.LaterResponsesIgnored | logpoint/logpoint.go:116-122 | responses after the one that ends a run are never consumed: appending more changes neither the outcome nor the count |
| LogpointPoll.ThreePageScenario | logpoint/logpoint.go:122-123 | three pages of three, the last final, with rows [r1,r2], [r3], [r4] give the result rows [r1,r2,r3,r4] after three polls |
| LogpointPoll.ZeroPagesEndsRun | logpoint/logpoint.go:122 | a page with zero total pages ends the run after one poll with its own rows and metadata, whatever its final and success flags say |

## Left out

- HTTP transport (`http.NewRequest`, `client.Do`, `io.ReadAll`, headers) in `getSearchLogs`: network I/O, replaced by the sequence of responses.
- `json.Marshal`, `json.Unmarshal`, `url.QueryEscape`, `url.ParseRequestURI`: library calls whose behaviour is not visible. The parsed URL, the escaped payload and the decoded pages are inputs.
- `time.Sleep` between polls and `LocalDebugLog` (clock and printing): no logical content. The advisory printed by `Query` is a flag.
- `GetRepos`: HTTP transport only; its success check builds an error and discards it, so the answer is returned regardless.
- The untyped `status` member of the status fields, and the records `SearchRequestResponse`, `RepoRequestResponse`, `RepoItem` and `LogpointItem`: declarations with no behaviour in the client.
- LogpointPoll.QueryResult: the Go loop waits for ever when no terminal page comes; the model stops with `Unfinished` when the finite sequence of responses runs out.
- Logpoint.Query: Go's nil and empty slices are not told apart. A nil `repos` slice is sent as JSON `null`, while the model always sends an array (empty for no repositories).
- Nil versus empty slices are likewise not told apart in the meta record's slice fields (`columns`, `grouping`, `interesting_fields`, `time_range`) or in a page's rows.
- The example program under `cmd/example_usage`: a driver with placeholder credentials and printing.
