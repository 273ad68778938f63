/**
 * The page loop of `GetResponse`: fetch the first page, then keep asking for
 * the page after the last cursor until a page comes back empty. A failure on
 * the first page ends the run, a failure later ends the loop and keeps what
 * was collected, and a page whose last hit has no `sort` value panics, which
 * ends the run at any page. The collected lines are then folded and
 * summarised.
 */
module Orchestrator {
  import opened Wrappers
  import opened Search
  import MessageParser
  import Stats

  /** The cursor of the next request after `pages`: 0 first, then the last page's cursor. */
  function NextCursor(pages: seq<Page>): int {
    if |pages| == 0 then 0 else pages[|pages| - 1].cursor
  }

  /** All messages of the pages, page after page. */
  function Concat(pages: seq<Page>): seq<string> {
    if |pages| == 0 then [] else Concat(pages[..|pages| - 1]) + pages[|pages| - 1].messages
  }

  /**
   * `pages` are the non-empty pages a run has appended, in fetch order: the
   * first was fetched with cursor 0 and each later one with the cursor of the
   * page before it.
   */
  ghost predicate IsPageTrace(backend: Backend, gte: string, pages: seq<Page>) {
    forall i :: 0 <= i < |pages| ==>
      |pages[i].messages| > 0 && Fetch(backend, gte, NextCursor(pages[..i])) == Success(pages[i])
  }

  /** The fetch after `pages` gives no further page: it fails or comes back empty. */
  ghost predicate Ended(backend: Backend, gte: string, pages: seq<Page>) {
    match Fetch(backend, gte, NextCursor(pages))
    case Failure(_) => true
    case Success(p) => |p.messages| == 0
  }

  /**
   * The fetch after `pages` ends the whole run: any failure of the first fetch,
   * or the `sort[0]` panic on any page.
   */
  ghost predicate Aborts(backend: Backend, gte: string, pages: seq<Page>) {
    match Fetch(backend, gte, NextCursor(pages))
    case Failure(e) => |pages| == 0 || e.MissingSortValue?
    case Success(_) => false
  }

  /**
   * The fetch after `pages` ends the loop normally: an empty page, or an
   * error (not the panic) after at least one page.
   */
  ghost predicate Stopped(backend: Backend, gte: string, pages: seq<Page>) {
    match Fetch(backend, gte, NextCursor(pages))
    case Failure(e) => |pages| > 0 && !e.MissingSortValue?
    case Success(p) => |p.messages| == 0
  }

  /**
   * The backend reaches an empty page or a failure within `n` fetches from
   * `cursor`. The source loops for as long as pages keep coming; the model
   * takes such a bound as given.
   */
  ghost predicate StopsWithin(backend: Backend, gte: string, cursor: int, n: nat)
    decreases n
  {
    n > 0 &&
    match Fetch(backend, gte, cursor)
    case Failure(_) => true
    case Success(p) => |p.messages| == 0 || StopsWithin(backend, gte, p.cursor, n - 1)
  }

  // ---------------------------------------------------------------------
  // The orchestrator as the source writes it.
  // ---------------------------------------------------------------------

  /**
   * The page loop of GetResponse. The run follows the one page trace of the
   * backend until it ends. It fails when the first fetch fails or a fetch
   * panics, with that error; otherwise the result is the concatenation of the
   * non-empty pages, up to the first empty page or the first later error.
   */
  method CollectMessages(backend: Backend, gte: string, ghost bound: nat)
    returns (r: Result<seq<string>, SearchError>, ghost pages: seq<Page>)
    requires StopsWithin(backend, gte, 0, bound)
    ensures IsPageTrace(backend, gte, pages) && Ended(backend, gte, pages)
    ensures r.Failure? <==> Aborts(backend, gte, pages)
    ensures r.Failure? ==> Fetch(backend, gte, NextCursor(pages)) == Failure(r.error)
    ensures Fetch(backend, gte, 0).Failure? ==> pages == [] && r == Failure(Fetch(backend, gte, 0).error)
    ensures r.Success? ==> Stopped(backend, gte, pages) && r.value == Concat(pages)
  {
    var fullMessages: seq<string> := [];
    pages := [];
    var first := ExecuteSearch(backend, gte, 0);
    if first.Failure? {
      return Failure(first.error), pages;
    }
    var messages, sort := first.value.messages, first.value.cursor;
    ghost var fuel := bound;
    while |messages| > 0
      invariant IsPageTrace(backend, gte, pages)
      invariant Fetch(backend, gte, NextCursor(pages)) == Success(Page(messages, sort))
      invariant fullMessages == Concat(pages)
      invariant StopsWithin(backend, gte, NextCursor(pages), fuel)
      decreases fuel
    {
      fullMessages := fullMessages + messages;
      AppendPage(backend, gte, pages, Page(messages, sort));
      pages := pages + [Page(messages, sort)];
      fuel := fuel - 1;
      var next := ExecuteSearch(backend, gte, sort);
      if next.Failure? {
        if next.error.MissingSortValue? {
          return Failure(next.error), pages;
        }
        break;
      }
      messages, sort := next.value.messages, next.value.cursor;
    }
    r := Success(fullMessages);
  }

  /**
   * GetResponse after the client is set up: collect all pages, fold the
   * lines into samples per path, and summarise them into the report.
   */
  method GetResponse(
    backend: Backend, gte: string,
    decode: MessageParser.LineDecoder, parseFloat: MessageParser.FloatParser,
    ghost bound: nat)
    returns (r: Result<seq<Stats.ResponseStat>, SearchError>, ghost pages: seq<Page>)
    requires StopsWithin(backend, gte, 0, bound)
    ensures IsPageTrace(backend, gte, pages) && Ended(backend, gte, pages)
    ensures r.Failure? <==> Aborts(backend, gte, pages)
    ensures Fetch(backend, gte, 0).Failure? ==> r.Failure?
    ensures r.Success? ==>
              && Stopped(backend, gte, pages)
              && Stats.IsReport(
                   MessageParser.Group(MessageParser.Samples(Concat(pages), decode, parseFloat)),
                   r.value)
  {
    var fullMessages;
    fullMessages, pages := CollectMessages(backend, gte, bound);
    if fullMessages.Failure? {
      return Failure(fullMessages.error), pages;
    }
    var requestTimes := MessageParser.ParseMessages(fullMessages.value, decode, parseFloat);
    var stats := Stats.GetStats(requestTimes);
    r := Success(stats);
  }

  // ---------------------------------------------------------------------
  // Lemmas
  // ---------------------------------------------------------------------

  /** Appending the page the next fetch returned extends a trace. */
  lemma AppendPage(backend: Backend, gte: string, pages: seq<Page>, p: Page)
    requires IsPageTrace(backend, gte, pages)
    requires |p.messages| > 0 && Fetch(backend, gte, NextCursor(pages)) == Success(p)
    ensures IsPageTrace(backend, gte, pages + [p])
    ensures NextCursor(pages + [p]) == p.cursor
    ensures Concat(pages + [p]) == Concat(pages) + p.messages
  {
    var ext := pages + [p];
    assert ext[..|pages|] == pages;
    forall i | 0 <= i < |ext|
      ensures |ext[i].messages| > 0 && Fetch(backend, gte, NextCursor(ext[..i])) == Success(ext[i])
    {
      if i < |pages| {
        assert ext[..i] == pages[..i];
        assert ext[i] == pages[i];
      }
    }
  }

  /**
   * A backend whose first answer is a 200 response that decodes to hits whose
   * last one has no `sort` value ends the run on that first page, and the
   * loop is still defined for it.
   */
  lemma SortlessFirstPageAborts(backend: Backend, gte: string, body: seq<bv8>, resp: SearchResponse)
    requires backend.transport(BuildQuery(gte, 0)) == Success(HttpResponse(StatusOK, Success(body)))
    requires backend.unmarshal(body) == Some(resp)
    requires |resp.hits| > 0 && |resp.hits[|resp.hits| - 1].sort| == 0
    ensures Fetch(backend, gte, 0) == Failure(MissingSortValue)
    ensures StopsWithin(backend, gte, 0, 1)
    ensures Aborts(backend, gte, []) && Ended(backend, gte, [])
  {
  }

  /** A run ends normally or is aborted, never both. */
  lemma EndedSplits(backend: Backend, gte: string, pages: seq<Page>)
    requires Ended(backend, gte, pages)
    ensures Stopped(backend, gte, pages) <==> !Aborts(backend, gte, pages)
  {
  }

  /** Two traces of the same backend agree on their common length. */
  lemma {:induction false} TracesAgree(backend: Backend, gte: string, p1: seq<Page>, p2: seq<Page>, n: nat)
    requires IsPageTrace(backend, gte, p1) && IsPageTrace(backend, gte, p2)
    requires n <= |p1| && n <= |p2|
    ensures p1[..n] == p2[..n]
  {
    if n > 0 {
      TracesAgree(backend, gte, p1, p2, n - 1);
      SameFetch(backend, gte, p1, p2, n - 1);
      TakeSnoc(p1, n);
      TakeSnoc(p2, n);
    }
  }

  /** A prefix is the shorter prefix and one more page. */
  lemma TakeSnoc(pages: seq<Page>, n: nat)
    requires 0 < n <= |pages|
    ensures pages[..n] == pages[..n - 1] + [pages[n - 1]]
  {
  }

  /** Two traces with a common prefix of length `i` fetched the same page next. */
  lemma SameFetch(backend: Backend, gte: string, p1: seq<Page>, p2: seq<Page>, i: nat)
    requires IsPageTrace(backend, gte, p1) && IsPageTrace(backend, gte, p2)
    requires i < |p1| && i < |p2| && p1[..i] == p2[..i]
    ensures p1[i] == p2[i]
  {
    var c := NextCursor(p1[..i]);
    assert Fetch(backend, gte, c) == Success(p1[i]);
    assert Fetch(backend, gte, c) == Success(p2[i]);
  }

  /**
   * The run is determined by the backend: there is one ended trace, so the
   * outcome and the collected lines depend on nothing but the fetch results.
   */
  lemma TraceUnique(backend: Backend, gte: string, p1: seq<Page>, p2: seq<Page>)
    requires IsPageTrace(backend, gte, p1) && Ended(backend, gte, p1)
    requires IsPageTrace(backend, gte, p2) && Ended(backend, gte, p2)
    ensures p1 == p2
  {
    assert p1[..|p1|] == p1;
    assert p2[..|p2|] == p2;
    var m := if |p1| <= |p2| then |p1| else |p2|;
    TracesAgree(backend, gte, p1, p2, m);
    assert |p2| <= |p1|;
    assert |p1| <= |p2|;
  }

  /**
   * The request made after the first `i` pages, up to and including the one
   * after the last page that ends the run: it carries the previous page's
   * cursor as `search_after`, unless there is no previous page or that
   * cursor is 0.
   */
  lemma TraceQueries(gte: string, pages: seq<Page>, i: int)
    requires 0 <= i <= |pages|
    ensures var q := BuildQuery(gte, NextCursor(pages[..i]));
            && q.searchAfter == (if i == 0 || pages[i - 1].cursor == 0 then None else Some(pages[i - 1].cursor))
  {
    if i > 0 {
      assert pages[..i][i - 1] == pages[i - 1];
    }
  }
}
