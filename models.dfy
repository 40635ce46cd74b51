/** Record shapes of the log-search service's responses (the models package), and the
    small JSON value type used for the request payloads the client builds.
    Rows of a search result are opaque key-value records whose schema depends on
    the query; they are a type parameter `Row` throughout. */
module Models {

  newtype uint64 = x: int | 0 <= x < 0x1_0000_0000_0000_0000
  newtype int64 = x: int | -0x8000_0000_0000_0000 <= x < 0x8000_0000_0000_0000

  /** The JSON values that appear in the payloads the client sends. */
  datatype Json =
    | JString(s: string)
    | JInt(n: int)
    | JArray(items: seq<Json>)

  /** A JSON array of strings, element by element. */
  function JsonStrings(ss: seq<string>): (r: Json)
    ensures r.JArray? && |r.items| == |ss|
    ensures forall i :: 0 <= i < |ss| ==> r.items[i] == JString(ss[i])
  {
    if ss == [] then JArray([])
    else JArray([JString(ss[0])] + JsonStrings(ss[1..]).items)
  }

  /** The outcome of one round trip to the service: the transport error
      (request construction, network, body read or JSON decoding), or the
      decoded response body. */
  datatype Transport<T> =
    | TransportFailed(err: string)
    | Delivered(body: T)

  /** LogpointSearchResultMetaFields: aggregate metadata of a search result. */
  datatype MetaFields = MetaFields(
    numAggregated: uint64,
    columns: seq<string>,
    grouping: seq<string>,
    interestingFields: seq<string>,
    timeRange: seq<uint64>)

  /** Go's zero value of the meta record: nil slices and a zero count. */
  const EmptyMeta := MetaFields(0, [], [], [], [])

  /** The JSON key the service uses for the completion flag; the record exposes
      it under the accessor `final`. */
  const FinalWireKey := "finial"

  /** LogpointSearchResultStatusFields. The untyped `status` member is not modelled. */
  datatype StatusFields = StatusFields(
    queryType: string,
    version: uint64,
    originalSearchId: string,
    final: bool,          // wire key FinalWireKey
    success: bool,
    totalPages: int64,
    complete: bool,
    showAdditionalPanels: bool,
    message: string)

  /** LogpointSearchResult: one page of a search result. */
  datatype SearchPage<Row> = SearchPage(
    meta: MetaFields,
    status: StatusFields,
    rows: seq<Row>)

  /** SearchResult: what the poller hands back to its caller. */
  datatype SearchResult<Row> = SearchResult(
    meta: MetaFields,
    rows: seq<Row>)

  /** QueryRequestResponse: the answer to a query submission. */
  datatype QueryRequestResponse = QueryRequestResponse(
    success: bool,
    searchId: string,
    queryFilter: string,
    latest: bool,
    lookup: bool,
    queryType: string,
    clientType: string,
    timeRange: seq<uint64>)
}
