/**
 * The search client adapter: the query `executeSearch` sends for one page,
 * the decoding of a result page by `parseResult`, and the error rules of one
 * fetch. The HTTP round trip and `json.Unmarshal` are foreign calls and are
 * fields of a Backend value.
 */
module Search {
  import opened Wrappers

  /** The index pattern every query targets. */
  const IndexName: string := "mpop-lke-logs*"

  /** Documents per page. */
  const PageSize: nat := 1000

  /** HTTP 200. */
  const StatusOK: int := 200

  /** The fixed query: two term filters, a lower time bound, ascending by timestamp. */
  datatype Query = Query(
    index: string,
    namespace: string,
    containerName: string,
    gte: string,
    searchAfter: Option<int>,
    sortField: string,
    ascending: bool,
    sourceFields: seq<string>,
    size: nat)

  /** One hit of `hits.hits[]`: `_source.message`, `_source.@timestamp` and `sort`. */
  datatype Hit = Hit(message: string, timestamp: string, sort: seq<int>)

  /** The decoded response body. */
  datatype SearchResponse = SearchResponse(hits: seq<Hit>, took: int)

  /** One page: its raw log lines and the cursor for the next request. */
  datatype Page = Page(messages: seq<string>, cursor: int)

  /**
   * Why one fetch failed. MissingSortValue is `hit.Sort[0]` on a last hit
   * whose `sort` is empty: an index panic in the source, which ends the whole
   * program instead of returning an error.
   */
  datatype SearchError =
    | TransportFailed(reason: string)
    | StatusNotOk(code: int)
    | BodyReadFailed(reason: string)
    | DecodeFailed
    | MissingSortValue

  /** A response as the client hands it over: status code and body (reading it may fail). */
  datatype HttpResponse = HttpResponse(statusCode: int, body: Result<seq<bv8>, string>)

  /** The foreign calls of one fetch: the HTTP round trip and `json.Unmarshal`. */
  datatype Backend = Backend(
    transport: Query -> Result<HttpResponse, string>,
    unmarshal: seq<bv8> -> Option<SearchResponse>)

  /** `hit.Sort[0]` of the last hit exists (the source indexes it unguarded). */
  predicate HasCursor(hits: seq<Hit>) {
    |hits| == 0 || |hits[|hits| - 1].sort| > 0
  }

  /**
   * The query of executeSearch. Both shapes are the same query; `search_after`
   * is present exactly when the cursor is non-zero, and then holds the cursor.
   */
  function BuildQuery(gte: string, cursor: int): (q: Query)
    ensures q.gte == gte && q.index == IndexName && q.size == PageSize
    ensures q.searchAfter.Some? <==> cursor != 0
    ensures q.searchAfter.Some? ==> q.searchAfter.value == cursor
  {
    var base := Query(IndexName, "pulsar", "nginx", gte, None, "@timestamp", true, ["message", "@timestamp"], PageSize);
    if cursor != 0 then base.(searchAfter := Some(cursor)) else base
  }

  /** The messages of the hits, in hit order. */
  function MessagesOf(hits: seq<Hit>): (msgs: seq<string>)
    ensures |msgs| == |hits|
    ensures forall k :: 0 <= k < |hits| ==> msgs[k] == hits[k].message
  {
    if |hits| == 0 then [] else MessagesOf(hits[..|hits| - 1]) + [hits[|hits| - 1].message]
  }

  /** The next cursor: `sort[0]` of the last hit, or 0 when there is no hit. */
  function LastCursor(hits: seq<Hit>): int
    requires HasCursor(hits)
  {
    if |hits| == 0 then 0 else hits[|hits| - 1].sort[0]
  }

  /** The page a decoded response yields. */
  function PageOf(hits: seq<Hit>): Page
    requires HasCursor(hits)
  {
    Page(MessagesOf(hits), LastCursor(hits))
  }

  /** The decoded outcome of a response body; a last hit without `sort` is the panic outcome. */
  function DecodeResult(body: seq<bv8>, unmarshal: seq<bv8> -> Option<SearchResponse>): (r: Result<Page, SearchError>)
    ensures r.Success? <==> unmarshal(body).Some? && HasCursor(unmarshal(body).value.hits)
    ensures r.Success? ==> r.value.messages == MessagesOf(unmarshal(body).value.hits)
    ensures r.Success? ==> r.value.cursor == LastCursor(unmarshal(body).value.hits)
    ensures r.Failure? ==> r.error == (if unmarshal(body).None? then DecodeFailed else MissingSortValue)
  {
    match unmarshal(body)
    case None => Failure(DecodeFailed)
    case Some(resp) => if HasCursor(resp.hits) then Success(PageOf(resp.hits)) else Failure(MissingSortValue)
  }

  /** What one fetch with this cursor yields. */
  function Fetch(backend: Backend, gte: string, cursor: int): Result<Page, SearchError>
  {
    match backend.transport(BuildQuery(gte, cursor))
    case Failure(reason) => Failure(TransportFailed(reason))
    case Success(resp) =>
      if resp.statusCode != StatusOK then Failure(StatusNotOk(resp.statusCode))
      else
        match resp.body
        case Failure(reason) => Failure(BodyReadFailed(reason))
        case Success(body) => DecodeResult(body, backend.unmarshal)
  }

  // ---------------------------------------------------------------------
  // The adapter as the source writes it.
  // ---------------------------------------------------------------------

  /**
   * parseResult. On a decode error nothing is returned but the error; else the
   * messages of all hits in order, and `sort[0]` of the last hit as cursor
   * (0 when there are no hits). A last hit without `sort` value is the panic
   * outcome MissingSortValue.
   */
  method ParseResult(body: seq<bv8>, unmarshal: seq<bv8> -> Option<SearchResponse>)
    returns (r: Result<Page, SearchError>)
    ensures r == DecodeResult(body, unmarshal)
    ensures unmarshal(body).None? <==> r == Failure(DecodeFailed)
    ensures r == Failure(MissingSortValue) <==> unmarshal(body).Some? && !HasCursor(unmarshal(body).value.hits)
    ensures r.Success? ==>
              && unmarshal(body).Some? && HasCursor(unmarshal(body).value.hits)
              && var hits := unmarshal(body).value.hits;
              && |r.value.messages| == |hits|
              && (forall k :: 0 <= k < |hits| ==> r.value.messages[k] == hits[k].message)
              && r.value.cursor == LastCursor(hits)
  {
    var resp := unmarshal(body);
    if resp.None? {
      return Failure(DecodeFailed);
    }
    var hits := resp.value.hits;
    var messages: seq<string> := [];
    var lastSort := 0;
    for i := 0 to |hits|
      invariant messages == MessagesOf(hits[..i])
      invariant 0 < i == |hits| ==> |hits[i - 1].sort| > 0
      invariant lastSort == if 0 < i == |hits| then hits[i - 1].sort[0] else 0
    {
      assert hits[..i + 1][..i] == hits[..i];
      messages := messages + [hits[i].message];
      if i == |hits| - 1 {
        if |hits[i].sort| == 0 {
          return Failure(MissingSortValue);
        }
        lastSort := hits[i].sort[0];
      }
    }
    assert hits[..|hits|] == hits;
    return Success(Page(messages, lastSort));
  }

  /**
   * executeSearch: build the query for the cursor, send it, reject a non-200
   * answer or an unreadable body, decode the rest.
   */
  method ExecuteSearch(backend: Backend, gte: string, cursor: int) returns (r: Result<Page, SearchError>)
    ensures r == Fetch(backend, gte, cursor)
    ensures r.Success? ==> backend.transport(BuildQuery(gte, cursor)).Success?
    ensures r.Success? ==> backend.transport(BuildQuery(gte, cursor)).value.statusCode == StatusOK
    ensures r.Failure? && r.error.TransportFailed? ==> backend.transport(BuildQuery(gte, cursor)).Failure?
    ensures r.Failure? && r.error.StatusNotOk? ==>
              && backend.transport(BuildQuery(gte, cursor)).Success?
              && r.error.code == backend.transport(BuildQuery(gte, cursor)).value.statusCode != StatusOK
    ensures r.Failure? && r.error.BodyReadFailed? ==>
              && backend.transport(BuildQuery(gte, cursor)).Success?
              && backend.transport(BuildQuery(gte, cursor)).value.statusCode == StatusOK
              && backend.transport(BuildQuery(gte, cursor)).value.body.Failure?
    ensures r.Failure? && (r.error.DecodeFailed? || r.error.MissingSortValue?) ==>
              && backend.transport(BuildQuery(gte, cursor)).Success?
              && backend.transport(BuildQuery(gte, cursor)).value.statusCode == StatusOK
              && backend.transport(BuildQuery(gte, cursor)).value.body.Success?
  {
    var query := BuildQuery(gte, cursor);
    var response := backend.transport(query);
    if response.Failure? {
      return Failure(TransportFailed(response.error));
    }
    if response.value.statusCode != StatusOK {
      return Failure(StatusNotOk(response.value.statusCode));
    }
    if response.value.body.Failure? {
      return Failure(BodyReadFailed(response.value.body.error));
    }
    r := ParseResult(response.value.body.value, backend.unmarshal);
  }

  // ---------------------------------------------------------------------
  // Lemmas
  // ---------------------------------------------------------------------

  /** The two query shapes agree on everything but `search_after`. */
  lemma QueryShapesAgree(gte: string, c1: int, c2: int)
    ensures BuildQuery(gte, c1).(searchAfter := None) == BuildQuery(gte, c2).(searchAfter := None)
  {
  }

  /** A page is empty exactly when the response had no hits, and then its cursor is 0. */
  lemma EmptyPage(hits: seq<Hit>)
    requires HasCursor(hits)
    ensures |PageOf(hits).messages| == 0 <==> |hits| == 0
    ensures |hits| == 0 ==> PageOf(hits).cursor == 0
  {
  }
}
