/** The client's pure parts (logpoint/logpoint.go): the base-URL cleanup done by
    `New`, the form-encoded body `getSearchLogs` posts, and the payload and
    timeout advisory of `Query`. URL parsing, JSON encoding, URL escaping and
    the HTTP round trip itself are not modelled: their results are inputs. */
module Logpoint {
  import opened Models

  /** The client's configuration, fixed once `New` has built it. */
  datatype Logpoint = Logpoint(url: string, username: string, secret: string, enableLogs: bool)

  /** The result of `url.ParseRequestURI`, rendered back to text by `u.String()`. */
  datatype ParsedUrl = Parsed(text: string) | ParseFailed(err: string)

  /** `New` either returns a client or panics with the parse error. */
  datatype Created = Created(client: Logpoint) | Panicked(err: string)

  predicate HasSuffix(s: string, suffix: string) {
    |suffix| <= |s| && s[|s| - |suffix|..] == suffix
  }

  /** Go's strings.TrimSuffix: removes one occurrence of `suffix` at the end, if there. */
  function TrimSuffix(s: string, suffix: string): (r: string)
    ensures HasSuffix(s, suffix) ==> r + suffix == s
    ensures !HasSuffix(s, suffix) ==> r == s
  {
    if HasSuffix(s, suffix) then s[..|s| - |suffix|] else s
  }

  /** New: validates the URL (panicking when it does not parse) and stores it
      with at most one trailing '/' removed. */
  function New(parsed: ParsedUrl, username: string, secret: string, enableLogs: bool): (r: Created)
    ensures r.Panicked? <==> parsed.ParseFailed?
    ensures r.Panicked? ==> r.err == parsed.err
    ensures r.Created? ==> r.client.username == username && r.client.secret == secret
                           && r.client.enableLogs == enableLogs
    ensures r.Created? ==> (r.client.url + "/" == parsed.text <==> HasSuffix(parsed.text, "/"))
    ensures r.Created? && !HasSuffix(parsed.text, "/") ==> r.client.url == parsed.text
  {
    match parsed
    case ParseFailed(err) => Panicked(err)
    case Parsed(text) => Created(Logpoint(TrimSuffix(text, "/"), username, secret, enableLogs))
  }

  /** Only one slash goes: "x//" is stored as "x/". */
  lemma NewTrimsAtMostOneSlash(text: string, username: string, secret: string, enableLogs: bool)
    ensures var r := New(Parsed(text), username, secret, enableLogs);
            r.Created? && |text| - 1 <= |r.client.url| <= |text| && r.client.url == text[..|r.client.url|]
    ensures New(Parsed("x//"), username, secret, enableLogs).client.url == "x/"
  {
  }

  const SearchLogsPath := "/getsearchlogs"

  /** Where getSearchLogs posts to. */
  function SearchLogsRoute(lp: Logpoint): string {
    lp.url + SearchLogsPath
  }

  /** When the parsed URL does not end in "//", the route joins the base URL and
      the endpoint path with a single '/'. */
  lemma RouteHasSingleSlash(text: string, username: string, secret: string, enableLogs: bool)
    requires !HasSuffix(text, "//")
    ensures var r := New(Parsed(text), username, secret, enableLogs);
            var route := SearchLogsRoute(r.client);
            route == r.client.url + SearchLogsPath && (|r.client.url| == 0 || route[|r.client.url| - 1] != '/')
  {
  }

  /** The form-encoded body getSearchLogs sends, given the URL-escaped JSON
      payload. The credentials are inserted as they are, without escaping. */
  function FormBody(username: string, secret: string, encodedPayload: string): string {
    "username=" + username + "&secret_key=" + secret + "&requestData=" + encodedPayload
  }

  /** How a form body reads back: its fields are the pieces between '&'s. */
  function FormFields(body: string): (r: seq<string>)
    ensures |r| >= 1
  {
    if body == [] then [""]
    else
      var rest := FormFields(body[1..]);
      if body[0] == '&' then [""] + rest
      else [[body[0]] + rest[0]] + rest[1..]
  }

  lemma {:induction false} FieldsWithoutSeparator(s: string)
    requires '&' !in s
    ensures FormFields(s) == [s]
  {
    if s != [] {
      FieldsWithoutSeparator(s[1..]);
      assert [s[0]] + s[1..] == s;
    }
  }

  lemma {:induction false} FieldsAfterSeparator(a: string, b: string)
    requires '&' !in a
    ensures FormFields(a + "&" + b) == [a] + FormFields(b)
  {
    if a == [] {
      assert a + "&" + b == "&" + b;
      assert ("&" + b)[1..] == b;
    } else {
      assert (a + "&" + b)[1..] == a[1..] + "&" + b;
      FieldsAfterSeparator(a[1..], b);
      assert [a[0]] + a[1..] == a;
    }
  }

  /** The number of '&' characters in a string. */
  function Ampersands(s: string): nat {
    if s == [] then 0 else (if s[0] == '&' then 1 else 0) + Ampersands(s[1..])
  }

  lemma {:induction false} AmpersandsAbsent(s: string)
    ensures Ampersands(s) == 0 <==> '&' !in s
  {
    if s != [] {
      AmpersandsAbsent(s[1..]);
      assert s == [s[0]] + s[1..];
    }
  }

  lemma {:induction false} AmpersandsAppend(a: string, b: string)
    ensures Ampersands(a + b) == Ampersands(a) + Ampersands(b)
  {
    if a != [] {
      assert (a + b)[1..] == a[1..] + b;
      AmpersandsAppend(a[1..], b);
    } else {
      assert a + b == b;
    }
  }

  /** A form body has one more field than it has '&' characters. */
  lemma {:induction false} FieldCount(s: string)
    ensures |FormFields(s)| == 1 + Ampersands(s)
  {
    if s != [] {
      FieldCount(s[1..]);
    }
  }

  /** Three fields joined by '&' read back as three fields, plus one for every
      '&' inside them. */
  lemma {:induction false} ThreeFields(body: string, f1: string, f2: string, f3: string)
    requires body == f1 + "&" + f2 + "&" + f3
    ensures |FormFields(body)| == 3 + Ampersands(f1) + Ampersands(f2) + Ampersands(f3)
    ensures '&' !in f1 && '&' !in f2 && '&' !in f3 ==> FormFields(body) == [f1, f2, f3]
  {
    assert body == f1 + ("&" + (f2 + ("&" + f3)));
    AmpersandsAppend(f1, "&" + (f2 + ("&" + f3)));
    AmpersandsAppend("&", f2 + ("&" + f3));
    AmpersandsAppend(f2, "&" + f3);
    AmpersandsAppend("&", f3);
    FieldCount(body);
    if '&' !in f1 && '&' !in f2 && '&' !in f3 {
      assert body == f1 + "&" + (f2 + "&" + f3);
      FieldsAfterSeparator(f1, f2 + "&" + f3);
      FieldsAfterSeparator(f2, f3);
      FieldsWithoutSeparator(f3);
    }
  }

  /** A field made of a key without '&' and a value has the value's '&'s. */
  lemma Tagged(key: string, value: string)
    requires '&' !in key
    ensures Ampersands(key + value) == Ampersands(value)
    ensures '&' !in key + value <==> '&' !in value
  {
    AmpersandsAbsent(key);
    AmpersandsAppend(key, value);
  }

  /** The body reads back as exactly the three fields it was built from if and
      only if no credential and not the payload contains an '&'. The payload is
      URL-escaped by the client, so it never does; the credentials are not
      escaped, so a username or secret holding an '&' splits into extra fields. */
  lemma FormBodyRoundTrip(username: string, secret: string, encodedPayload: string)
    ensures |FormFields(FormBody(username, secret, encodedPayload))| == 3
            <==> '&' !in username && '&' !in secret && '&' !in encodedPayload
    ensures '&' !in username && '&' !in secret && '&' !in encodedPayload ==>
              FormFields(FormBody(username, secret, encodedPayload))
              == ["username=" + username, "secret_key=" + secret, "requestData=" + encodedPayload]
  {
    var body := FormBody(username, secret, encodedPayload);
    var f1, f2, f3 := "username=" + username, "secret_key=" + secret, "requestData=" + encodedPayload;
    assert body == f1 + "&" + f2 + "&" + f3;
    Tagged("username=", username);
    Tagged("secret_key=", secret);
    Tagged("requestData=", encodedPayload);
    AmpersandsAbsent(username);
    AmpersandsAbsent(secret);
    AmpersandsAbsent(encodedPayload);
    ThreeFields(body, f1, f2, f3);
  }

  /** One call of getSearchLogs as the client issues it: the route it posts to,
      the credentials and the JSON payload (which it encodes and escapes). */
  datatype SearchLogsCall = SearchLogsCall(
    route: string,
    username: string,
    secret: string,
    requestData: map<string, Json>)

  function SearchLogsCallOf(lp: Logpoint, requestData: map<string, Json>): SearchLogsCall {
    SearchLogsCall(SearchLogsRoute(lp), lp.username, lp.secret, requestData)
  }

  /** What Query does: the call it makes, whether it printed the timeout
      advisory, and the transport's answer, which it returns unchanged. */
  datatype QueryOutcome = QueryOutcome(
    call: SearchLogsCall,
    advisory: bool,
    response: Transport<QueryRequestResponse>)

  const QueryKeys: set<string> := {"timeout", "query", "time_range", "limit", "repos"}

  /** Query: builds the five-key payload from its arguments, advises on a timeout
      outside 5..90 seconds, and submits either way. `response` stands for what
      the service answers. */
  function Query(lp: Logpoint, query: string, timeRange: string, limit: int64, repos: seq<string>,
                 timeoutSeconds: int64, response: Transport<QueryRequestResponse>): (r: QueryOutcome)
    ensures r.advisory <==> !(5 <= timeoutSeconds <= 90)
    ensures r.call == SearchLogsCallOf(lp, r.call.requestData)
    ensures r.call.requestData.Keys == QueryKeys
    ensures r.call.requestData["timeout"] == JInt(timeoutSeconds as int)
    ensures r.call.requestData["query"] == JString(query)
    ensures r.call.requestData["time_range"] == JString(timeRange)
    ensures r.call.requestData["limit"] == JInt(limit as int)
    ensures var rs := r.call.requestData["repos"];
            rs.JArray? && |rs.items| == |repos| && forall i :: 0 <= i < |repos| ==> rs.items[i] == JString(repos[i])
    ensures r.response == response
  {
    var advisory := timeoutSeconds < 5 || timeoutSeconds > 90;
    var requestData := map[
      "timeout" := JInt(timeoutSeconds as int),
      "query" := JString(query),
      "time_range" := JString(timeRange),
      "limit" := JInt(limit as int),
      "repos" := JsonStrings(repos)];
    QueryOutcome(SearchLogsCallOf(lp, requestData), advisory, response)
  }

  /** The advisory never changes the request: two submissions that differ only
      in the timeout send payloads that differ only under "timeout". */
  lemma AdvisoryLeavesRequestAlone(lp: Logpoint, query: string, timeRange: string, limit: int64,
                                   repos: seq<string>, t1: int64, t2: int64,
                                   response: Transport<QueryRequestResponse>)
    ensures var d1 := Query(lp, query, timeRange, limit, repos, t1, response).call.requestData;
            var d2 := Query(lp, query, timeRange, limit, repos, t2, response).call.requestData;
            d1 - {"timeout"} == d2 - {"timeout"}
  {
  }

  /** A two-second timeout is advised against, and is still sent as 2. */
  lemma ShortTimeoutStillSent(lp: Logpoint, response: Transport<QueryRequestResponse>)
    ensures var r := Query(lp, "error", "Last 10 minutes", 100, ["repoA"], 2, response);
            r.advisory && r.call.requestData["timeout"] == JInt(2) && r.call.requestData["limit"] == JInt(100)
  {
  }
}
