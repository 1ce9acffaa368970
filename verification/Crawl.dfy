/** Fetching one page of match ids and the page-by-page crawl of one player (match_ids.py). */
module Crawl {
  import opened Results
  import opened Sequences

  const MAX_PAGE_START: nat := 900
  const MAX_PAGE_COUNT: nat := 100
  const NOT_FOUND: int := 404

  datatype Outcome = Success | HttpNonRetryable | NonJson | RetryExhausted

  /** A decoded body: a list, whose entries may be strings or something else, or not a list at all. */
  datatype Payload = Entries(entries: seq<Option<string>>) | NotAList

  datatype Response = Response(outcome: Outcome, status: int, payload: Payload)

  datatype PlayerKey = PlayerKey(puuid: string, queueType: string)

  datatype CrawlState = CrawlState(key: PlayerKey, continent: string, pageStart: nat, baseUrl: string)

  /** The server: its answer to the request a crawl state stands for. */
  type Server = CrawlState -> Response

  datatype CrawlError = RequestFailed(outcome: Outcome, status: int) | UnexpectedPayload

  function Strings(entries: seq<Option<string>>): seq<string> {
    if entries == [] then []
    else
      var rest := Strings(entries[1..]);
      if entries[0].Some? then [entries[0].value] + rest else rest
  }

  /** `_fetch_page_match_ids`: a missing page counts as empty, any other failure is an error. */
  function FetchPage(server: Server, state: CrawlState): Result<seq<string>, CrawlError> {
    var response := server(state);
    if response.outcome != Success then
      if response.outcome == HttpNonRetryable && response.status == NOT_FOUND then Ok([])
      else Err(RequestFailed(response.outcome, response.status))
    else if response.payload.NotAList? then Err(UnexpectedPayload)
    else Ok(Strings(response.payload.entries))
  }

  /** A full page below the last page start has a successor. */
  predicate Continues(state: CrawlState, ids: seq<string>) {
    state.pageStart < MAX_PAGE_START && |ids| == MAX_PAGE_COUNT
  }

  function NextPage(state: CrawlState): CrawlState {
    state.(pageStart := state.pageStart + MAX_PAGE_COUNT)
  }

  datatype Item = Item(key: PlayerKey, ids: seq<string>, error: Option<CrawlError>)

  /** An item together with the seed whose crawl produced it. */
  datatype Tagged = Tagged(seed: nat, item: Item)

  function PageItems(seed: nat, state: CrawlState, ids: seq<string>): seq<Tagged> {
    if ids == [] then [] else [Tagged(seed, Item(state.key, ids, None))]
  }

  function ErrorItem(seed: nat, state: CrawlState, error: CrawlError): Tagged {
    Tagged(seed, Item(state.key, [], Some(error)))
  }

  /** The reference: crawl one seed alone, page after page. */
  function SequentialCrawl(server: Server, seed: nat, state: CrawlState): seq<Tagged>
    decreases MAX_PAGE_START + MAX_PAGE_COUNT - state.pageStart
  {
    match FetchPage(server, state)
    case Err(error) => [ErrorItem(seed, state, error)]
    case Ok(ids) => PageItems(seed, state, ids) + AfterPage(server, seed, state, ids)
  }

  function AfterPage(server: Server, seed: nat, state: CrawlState, ids: seq<string>): seq<Tagged>
    decreases MAX_PAGE_START + MAX_PAGE_COUNT - state.pageStart, 0
  {
    if Continues(state, ids) then SequentialCrawl(server, seed, NextPage(state)) else []
  }

  /** How many pages a crawl from `start` can request at most. */
  function PagesLeft(start: nat): nat
    decreases MAX_PAGE_START + MAX_PAGE_COUNT - start
  {
    if start < MAX_PAGE_START then 1 + PagesLeft(start + MAX_PAGE_COUNT) else 1
  }

  function PageAt(state: CrawlState, i: nat): CrawlState {
    state.(pageStart := state.pageStart + MAX_PAGE_COUNT * i)
  }

  /** What fetching the page behind an item must have answered. */
  function Answer(item: Item): Result<seq<string>, CrawlError> {
    if item.error.Some? then Err(item.error.value) else Ok(item.ids)
  }

  /**
   * What a crawl delivers: the pages in rising order, one item a page, under its seed and player key;
   * every item but the last is a full page, and an item reports either ids or an error.
   */
  lemma CrawlPages(server: Server, seed: nat, state: CrawlState)
    ensures
      var items := SequentialCrawl(server, seed, state);
      && |items| <= PagesLeft(state.pageStart)
      && (forall i | 0 <= i < |items| ::
            && items[i].seed == seed
            && items[i].item.key == state.key
            && Answer(items[i].item) == FetchPage(server, PageAt(state, i))
            && (items[i].item.ids == [] <==> items[i].item.error.Some?)
            && (i < |items| - 1 ==> |items[i].item.ids| == MAX_PAGE_COUNT))
    decreases MAX_PAGE_START + MAX_PAGE_COUNT - state.pageStart
  {
    var page := FetchPage(server, state);
    if page.Ok? && Continues(state, page.value) {
      var items, rest := SequentialCrawl(server, seed, state), SequentialCrawl(server, seed, NextPage(state));
      CrawlPages(server, seed, NextPage(state));
      assert items == PageItems(seed, state, page.value) + rest && |items| == |rest| + 1;
      forall i | 0 < i < |items| ensures items[i] == rest[i - 1] && PageAt(NextPage(state), i - 1) == PageAt(state, i) {
      }
    }
  }

  // ----- What a crawl means, told by the answers of the server alone -----

  /** The answer to the request for page `i`, counted from the page of `state`. */
  function PageAnswer(server: Server, state: CrawlState, i: nat): Response {
    server(state.(pageStart := state.pageStart + 100 * i))
  }

  /** The page does not exist: a non-retryable answer with status 404. */
  predicate IsMissing(r: Response) {
    r.outcome == HttpNonRetryable && r.status == 404
  }

  /** The page is an error: a success whose body is no list, or any failure but a missing page. */
  predicate IsError(r: Response) {
    if r.outcome.Success? then r.payload.NotAList? else !IsMissing(r)
  }

  function IsString(): Option<string> -> bool { (entry: Option<string>) => entry.Some? }

  /** The entries of a list that are strings, in order. */
  ghost function StringEntries(r: Response): seq<Option<string>>
    requires r.payload.Entries?
  {
    Filter(r.payload.entries, IsString())
  }

  predicate IsList(r: Response) {
    r.outcome.Success? && r.payload.Entries?
  }

  /** Page `i` lies below 900 and is a list with exactly 100 strings. */
  ghost predicate FullPage(server: Server, state: CrawlState, i: nat) {
    var r := PageAnswer(server, state, i);
    state.pageStart + 100 * i < 900 && IsList(r) && |StringEntries(r)| == 100
  }

  /** The crawl gets to page `i`: every page before it is full. */
  ghost predicate Reached(server: Server, state: CrawlState, i: nat) {
    forall j: nat | j < i :: FullPage(server, state, j)
  }

  /** This answer makes an item: an error, or a list with at least one string. */
  ghost predicate MakesItem(r: Response) {
    IsError(r) || (IsList(r) && StringEntries(r) != [])
  }

  /** The item an answer makes: the strings of the list, in order, or the error. */
  ghost predicate ItemOf(r: Response, item: Item) {
    if IsList(r) then
      && item.error.None? && |item.ids| == |StringEntries(r)|
      && forall k | 0 <= k < |item.ids| :: Some(item.ids[k]) == StringEntries(r)[k]
    else
      item.ids == [] && item.error == Some(if r.outcome.Success? then UnexpectedPayload
                                           else RequestFailed(r.outcome, r.status))
  }

  lemma {:induction false} StringsMeaning(entries: seq<Option<string>>)
    ensures |Strings(entries)| == |Filter(entries, IsString())|
    ensures forall k | 0 <= k < |Strings(entries)| :: Some(Strings(entries)[k]) == Filter(entries, IsString())[k]
  {
    if entries != [] {
      StringsMeaning(entries[1..]);
      assert entries == [entries[0]] + entries[1..];
      FilterConcat([entries[0]], entries[1..], IsString());
      assert [entries[0]][..0] == [];
    }
  }

  /** One page: whether it is an item, which one, and whether the crawl goes on. */
  lemma PageMeaning(server: Server, seed: nat, state: CrawlState)
    ensures
      var r, page := PageAnswer(server, state, 0), FetchPage(server, state);
      && (page.Err? <==> IsError(r))
      && (page.Err? ==> ItemOf(r, ErrorItem(seed, state, page.error).item))
      && (page.Ok? ==> (PageItems(seed, state, page.value) != [] <==> MakesItem(r)))
      && (page.Ok? && MakesItem(r) ==> ItemOf(r, PageItems(seed, state, page.value)[0].item))
      && (page.Ok? && Continues(state, page.value) <==> Reached(server, state, 1))
  {
    var r := PageAnswer(server, state, 0);
    assert Reached(server, state, 1) <==> FullPage(server, state, 0);
    assert server(state) == r;
    if IsList(r) {
      StringsMeaning(r.payload.entries);
    }
  }

  lemma ReachedNext(server: Server, state: CrawlState, i: nat)
    requires Reached(server, state, 1)
    ensures Reached(server, state, i + 1) <==> Reached(server, NextPage(state), i)
    ensures PageAnswer(server, NextPage(state), i) == PageAnswer(server, state, i + 1)
  {
    assert FullPage(server, state, 0);
    assert forall j: nat :: PageAnswer(server, NextPage(state), j) == PageAnswer(server, state, j + 1);
    assert forall j: nat :: FullPage(server, NextPage(state), j) <==> FullPage(server, state, j + 1);
    if Reached(server, NextPage(state), i) {
      forall j: nat | j < i + 1 ensures FullPage(server, state, j) {
        assert j > 0 ==> FullPage(server, NextPage(state), j - 1);
      }
    }
  }

  /** The items of a crawl are, page by page, those that the answers of the reached pages make. */
  ghost predicate Tells(server: Server, seed: nat, state: CrawlState, items: seq<Tagged>) {
    && (forall i: nat :: i < |items| <==> Reached(server, state, i) && MakesItem(PageAnswer(server, state, i)))
    && (forall i: nat | i < |items| ::
          && items[i].seed == seed && items[i].item.key == state.key
          && ItemOf(PageAnswer(server, state, i), items[i].item))
  }

  /**
   * What a crawl delivers, told by the server alone: page after page while the pages are full and below the last
   * page start; the strings of each page in order, or its error, which ends the crawl.
   */
  lemma {:induction false} CrawlMeaning(server: Server, seed: nat, state: CrawlState)
    ensures Tells(server, seed, state, SequentialCrawl(server, seed, state))
    decreases MAX_PAGE_START + MAX_PAGE_COUNT - state.pageStart
  {
    PageMeaning(server, seed, state);
    var items, page := SequentialCrawl(server, seed, state), FetchPage(server, state);
    if page.Ok? && Continues(state, page.value) {
      var next := NextPage(state);
      var rest := SequentialCrawl(server, seed, next);
      CrawlMeaning(server, seed, next);
      assert items == PageItems(seed, state, page.value) + rest && |items| == |rest| + 1;
      forall i: nat
        ensures i < |items| <==> Reached(server, state, i) && MakesItem(PageAnswer(server, state, i))
        ensures i < |items| ==>
          && items[i].seed == seed && items[i].item.key == state.key
          && ItemOf(PageAnswer(server, state, i), items[i].item)
      {
        if i > 0 {
          ReachedNext(server, state, i - 1);
          assert i < |items| ==> items[i] == rest[i - 1];
        }
      }
    } else {
      forall i: nat | i > 0 ensures !Reached(server, state, i) {
        assert !Reached(server, state, 1);
      }
    }
  }

  /**
   * Why a crawl ends: its last page was not full, was an error or lay at the last page start, or the next page was
   * fetched and is missing or has no string.
   */
  lemma CrawlEnds(server: Server, seed: nat, state: CrawlState)
    ensures
      var n := |SequentialCrawl(server, seed, state)|;
      var next := PageAnswer(server, state, n);
      n == 0 || FullPage(server, state, n - 1) ==> IsMissing(next) || (IsList(next) && StringEntries(next) == [])
  {
    CrawlMeaning(server, seed, state);
    var n := |SequentialCrawl(server, seed, state)|;
    if n > 0 && FullPage(server, state, n - 1) {
      assert Reached(server, state, n - 1);
    }
    assert n == 0 || FullPage(server, state, n - 1) ==> Reached(server, state, n);
  }

  /** Some page that the crawl reaches is answered by an error. */
  ghost predicate MeetsError(server: Server, state: CrawlState) {
    exists i: nat :: Reached(server, state, i) && IsError(PageAnswer(server, state, i))
  }

  /** Some page that the crawl reaches is a list with this match id. */
  ghost predicate MeetsId(server: Server, state: CrawlState, id: string) {
    exists i: nat :: Reached(server, state, i) && ListsId(PageAnswer(server, state, i), id)
  }

  predicate ListsId(r: Response, id: string) {
    IsList(r) && Some(id) in r.payload.entries
  }

  lemma ItemListsId(r: Response, item: Item, id: string)
    requires MakesItem(r) && ItemOf(r, item)
    ensures id in item.ids <==> ListsId(r, id)
  {
    if IsList(r) {
      FilterMembers(r.payload.entries, IsString(), Some(id));
      if id in item.ids {
        var k :| 0 <= k < |item.ids| && item.ids[k] == id;
        assert StringEntries(r)[k] == Some(id);
      }
      if Some(id) in StringEntries(r) {
        var k :| 0 <= k < |StringEntries(r)| && StringEntries(r)[k] == Some(id);
        assert Some(item.ids[k]) == Some(id);
      }
    }
  }

  lemma ListsMakesItem(r: Response, id: string)
    requires ListsId(r, id)
    ensures MakesItem(r)
  {
    FilterMembers(r.payload.entries, IsString(), Some(id));
  }

  /** A crawl reports an error exactly if it meets one, and finds a match id exactly if a page it reaches lists it. */
  lemma CrawlFinds(server: Server, seed: nat, state: CrawlState, id: string)
    ensures (exists t :: t in SequentialCrawl(server, seed, state) && t.item.error.Some?) <==> MeetsError(server, state)
    ensures (exists t :: t in SequentialCrawl(server, seed, state) && id in t.item.ids) <==> MeetsId(server, state, id)
  {
    CrawlMeaning(server, seed, state);
    var items := SequentialCrawl(server, seed, state);
    if i: nat :| Reached(server, state, i) && IsError(PageAnswer(server, state, i)) {
      assert MakesItem(PageAnswer(server, state, i)) && items[i] in items;
    }
    if i: nat :| Reached(server, state, i) && ListsId(PageAnswer(server, state, i), id) {
      ListsMakesItem(PageAnswer(server, state, i), id);
      ItemListsId(PageAnswer(server, state, i), items[i].item, id);
      assert items[i] in items;
    }
    forall i: nat | i < |items|
      ensures items[i].item.error.Some? <==> IsError(PageAnswer(server, state, i))
      ensures id in items[i].item.ids <==> ListsId(PageAnswer(server, state, i), id)
    {
      assert MakesItem(PageAnswer(server, state, i));
      ItemListsId(PageAnswer(server, state, i), items[i].item, id);
    }
  }

  /** A missing page ends a crawl without an error: what was found before it stays found. */
  lemma MissingPageEnds(server: Server, seed: nat, state: CrawlState, n: nat)
    requires Reached(server, state, n) && IsMissing(PageAnswer(server, state, n))
    ensures |SequentialCrawl(server, seed, state)| == n
    ensures forall t <- SequentialCrawl(server, seed, state) :: t.item.error.None?
  {
    CrawlMeaning(server, seed, state);
    var items := SequentialCrawl(server, seed, state);
    assert !MakesItem(PageAnswer(server, state, n));
    assert n > 0 ==> FullPage(server, state, n - 1) && MakesItem(PageAnswer(server, state, n - 1));
    forall i: nat | i < |items| ensures items[i].item.error.None? {
      assert FullPage(server, state, i);
    }
  }

  /** A crawl that starts at page 0 requests at most ten pages. */
  lemma TenPages()
    ensures PagesLeft(0) == 10
  {
    assert PagesLeft(900) == 1;
    assert PagesLeft(800) == 2;
    assert PagesLeft(700) == 3;
    assert PagesLeft(600) == 4;
    assert PagesLeft(500) == 5;
    assert PagesLeft(400) == 6;
    assert PagesLeft(300) == 7;
    assert PagesLeft(200) == 8;
    assert PagesLeft(100) == 9;
  }
}
