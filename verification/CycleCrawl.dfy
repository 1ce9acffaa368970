/**
 * A match-id cycle on top of the crawl pool: what the pool delivers for the states a cycle has loaded decides
 * which match ids the cycle stores and which player keys it records (`stream_match_ids`, `MatchIDCollector`).
 */
module CycleCrawl {
  import opened Crawl
  import opened CrawlPool
  import opened CrawlRuns
  import opened CycleSave
  import opened CycleStore
  import opened CycleWindows
  import opened Results
  import opened Sequences
  import opened Spreading

  /** The items a consumer of the pool sees, without the seeds they descend from. */
  function Untagged(tagged: seq<Tagged>): seq<Crawl.Item> {
    seq(|tagged|, i requires 0 <= i < |tagged| => tagged[i].item)
  }

  /** What crawling one state alone delivers. */
  function CrawlItems(server: Server, state: CrawlState): seq<Crawl.Item> {
    Untagged(SequentialCrawl(server, 0, state))
  }

  /** The seed only labels the items of a crawl. */
  lemma {:induction false} SeedIrrelevant(server: Server, state: CrawlState, seed: nat)
    ensures Untagged(SequentialCrawl(server, seed, state)) == CrawlItems(server, state)
    decreases MAX_PAGE_START + MAX_PAGE_COUNT - state.pageStart
  {
    match FetchPage(server, state) {
      case Err(error) =>
        assert Untagged([ErrorItem(seed, state, error)]) == Untagged([ErrorItem(0, state, error)]);
      case Ok(ids) =>
        UntaggedConcat(PageItems(seed, state, ids), AfterPage(server, seed, state, ids));
        UntaggedConcat(PageItems(0, state, ids), AfterPage(server, 0, state, ids));
        assert Untagged(PageItems(seed, state, ids)) == Untagged(PageItems(0, state, ids));
        if Continues(state, ids) {
          SeedIrrelevant(server, NextPage(state), seed);
        }
    }
  }

  lemma UntaggedConcat(a: seq<Tagged>, b: seq<Tagged>)
    ensures Untagged(a + b) == Untagged(a) + Untagged(b)
  {
  }

  lemma UntaggedMembers(tagged: seq<Tagged>, item: Crawl.Item)
    ensures item in Untagged(tagged) <==> exists t :: t in tagged && t.item == item
  {
    if item in Untagged(tagged) {
      var i :| 0 <= i < |tagged| && Untagged(tagged)[i] == item;
      assert tagged[i] in tagged;
    }
    if t :| t in tagged && t.item == item {
      var i :| 0 <= i < |tagged| && tagged[i] == t;
      assert Untagged(tagged)[i] == item;
    }
  }

  lemma BucketMember(tagged: seq<Tagged>, t: Tagged)
    ensures t in tagged <==> t in Bucket(tagged, SeedOf, t.seed)
  {
    BucketCount(tagged, SeedOf, t);
    assert t in tagged <==> t in multiset(tagged);
    assert t in Bucket(tagged, SeedOf, t.seed) <==> t in multiset(Bucket(tagged, SeedOf, t.seed));
  }

  lemma SeedsMembers(states: seq<CrawlState>, state: CrawlState)
    ensures state in Seeds(states) <==> state in states
  {
    SpreadPermutes(states, ContinentKey);
    assert state in states <==> state in multiset(states);
    assert state in Seeds(states) <==> state in multiset(Seeds(states));
  }

  lemma CrawlOfSeed(server: Server, seed: nat, state: CrawlState, item: Crawl.Item)
    ensures item in CrawlItems(server, state)
      <==> exists t :: t in SequentialCrawl(server, seed, state) && t.item == item
    ensures forall t <- SequentialCrawl(server, seed, state) :: t.seed == seed
  {
    SeedIrrelevant(server, state, seed);
    UntaggedMembers(SequentialCrawl(server, seed, state), item);
    CrawlPages(server, seed, state);
  }

  /** What a crawl reports, told by the server alone. */
  lemma ReportsExactly(server: Server, state: CrawlState, id: string)
    ensures (exists item :: item in CrawlItems(server, state) && item.error.Some?) <==> MeetsError(server, state)
    ensures (exists item :: item in CrawlItems(server, state) && id in item.ids) <==> MeetsId(server, state, id)
  {
    var tagged := SequentialCrawl(server, 0, state);
    CrawlFinds(server, 0, state, id);
    forall item ensures item in CrawlItems(server, state) <==> exists t :: t in tagged && t.item == item {
      UntaggedMembers(tagged, item);
    }
    forall t <- tagged ensures t.item in CrawlItems(server, state) {
    }
  }

  /** What the finished pool has delivered, by seed. */
  ghost predicate DeliveredBySeed(server: Server, seeds: seq<CrawlState>, delivered: seq<Tagged>) {
    forall x: nat :: Bucket(delivered, SeedOf, x) == CrawlPool.Expected(server, seeds, x)
  }

  lemma DeliveredIsCrawled(server: Server, seeds: seq<CrawlState>, delivered: seq<Tagged>, item: Crawl.Item)
    returns (state: CrawlState)
    requires DeliveredBySeed(server, seeds, delivered) && item in Untagged(delivered)
    ensures state in seeds && item in CrawlItems(server, state)
  {
    UntaggedMembers(delivered, item);
    var t :| t in delivered && t.item == item;
    BucketMember(delivered, t);
    assert Bucket(delivered, SeedOf, t.seed) == CrawlPool.Expected(server, seeds, t.seed);
    state := seeds[t.seed];
    CrawlOfSeed(server, t.seed, state, item);
  }

  lemma CrawledIsDelivered(server: Server, seeds: seq<CrawlState>, delivered: seq<Tagged>, x: nat, item: Crawl.Item)
    requires DeliveredBySeed(server, seeds, delivered) && x < |seeds| && item in CrawlItems(server, seeds[x])
    ensures item in Untagged(delivered)
  {
    CrawlOfSeed(server, x, seeds[x], item);
    var t :| t in SequentialCrawl(server, x, seeds[x]) && t.item == item;
    assert Bucket(delivered, SeedOf, x) == CrawlPool.Expected(server, seeds, x);
    BucketMember(delivered, t);
    UntaggedMembers(delivered, item);
  }

  /** Once the pool has finished, an item has been delivered exactly if the crawl of some state delivers it. */
  lemma DeliveredExactly(server: Server, states: seq<CrawlState>, p: Pool, item: Crawl.Item)
    requires Completes(server, states, p)
    ensures item in Untagged(p.delivered) <==> exists state :: state in states && item in CrawlItems(server, state)
  {
    CompletedDelivers(server, states, p);
    var seeds := Seeds(states);
    assert DeliveredBySeed(server, seeds, p.delivered);
    if item in Untagged(p.delivered) {
      var state := DeliveredIsCrawled(server, seeds, p.delivered, item);
      SeedsMembers(states, state);
    }
    if state :| state in states && item in CrawlItems(server, state) {
      SeedsMembers(states, state);
      var x: nat :| x < |seeds| && seeds[x] == state;
      CrawledIsDelivered(server, seeds, p.delivered, x, item);
    }
  }

  lemma CrawlKey(server: Server, state: CrawlState, item: Crawl.Item)
    requires item in CrawlItems(server, state)
    ensures item.key == state.key && (item.ids == [] <==> item.error.Some?)
  {
    CrawlPages(server, 0, state);
  }

  /**
   * Whatever the schedule and the number of workers, a player key counts as failed exactly if a page that the crawl
   * of one of its states reaches is answered by a failure other than a 404, or by a body that is no list.
   */
  lemma FailedExactly(server: Server, states: seq<CrawlState>, p: Pool, key: PlayerKey)
    requires Completes(server, states, p)
    ensures key in FailedKeys(Untagged(p.delivered))
      <==> exists state :: state in states && state.key == key && MeetsError(server, state)
  {
    var items := Untagged(p.delivered);
    if key in FailedKeys(items) {
      var item :| item in items && item.error.Some? && item.key == key;
      DeliveredExactly(server, states, p, item);
      var state :| state in states && item in CrawlItems(server, state);
      CrawlKey(server, state, item);
      ReportsExactly(server, state, "");
    }
    if state :| state in states && state.key == key && MeetsError(server, state) {
      ReportsExactly(server, state, "");
      var item :| item in CrawlItems(server, state) && item.error.Some?;
      CrawlKey(server, state, item);
      DeliveredExactly(server, states, p, item);
    }
  }

  /** A match id comes with the queue type of the player it was found for. */
  lemma {:induction false} AllPairsMembers(items: seq<Crawl.Item>, pair: Pair)
    ensures pair in AllPairs(items) <==> exists item ::
      item in items && item.error.None? && pair.id in item.ids && pair.queueType == item.key.queueType
  {
    if items != [] {
      var init, last := items[..|items| - 1], items[|items| - 1];
      AllPairsMembers(init, pair);
      SplitLast(items);
      PairsOfMembers(last, pair);
      assert forall item :: item in items <==> item in init || item == last;
    } else {
      assert AllPairs(items) == [];
    }
  }

  lemma PairsOfMembers(item: Crawl.Item, pair: Pair)
    ensures pair in PairsOf(item) <==>
      item.error.None? && pair.id in item.ids && pair.queueType == item.key.queueType
  {
    var pairs := PairsOf(item);
    if item.error.None? && pair.id in item.ids && pair.queueType == item.key.queueType {
      var i :| 0 <= i < |item.ids| && item.ids[i] == pair.id;
      assert pairs[i] == pair;
    }
  }

  lemma HasIdMembers(pairs: seq<Pair>, id: string)
    ensures HasId(pairs, id) <==> exists pair :: pair in pairs && pair.id == id
  {
    if pair :| pair in pairs && pair.id == id {
      var i :| 0 <= i < |pairs| && pairs[i] == pair;
    }
  }

  lemma AllPairsHaveId(items: seq<Crawl.Item>, id: string)
    ensures HasId(AllPairs(items), id) <==> exists item :: item in items && item.error.None? && id in item.ids
  {
    HasIdMembers(AllPairs(items), id);
    if pair :| pair in AllPairs(items) && pair.id == id {
      AllPairsMembers(items, pair);
    }
    if item :| item in items && item.error.None? && id in item.ids {
      AllPairsMembers(items, Pair(id, item.key.queueType));
    }
  }

  /** The queue type stored with a match id is that of a player for whom a page lists the id. */
  lemma StoredUnderQueueType(server: Server, states: seq<CrawlState>, p: Pool, players: seq<PlayerKey>, pair: Pair)
    requires Completes(server, states, p)
    requires pair in CycleSave.Expected(Untagged(p.delivered), players).pairs
    ensures exists state :: state in states && state.key.queueType == pair.queueType && MeetsId(server, state, pair.id)
  {
    var items := Untagged(p.delivered);
    FirstByIdMeaning(AllPairs(items));
    AllPairsMembers(items, pair);
    var item :| item in items && item.error.None? && pair.id in item.ids && pair.queueType == item.key.queueType;
    DeliveredExactly(server, states, p, item);
    var state :| state in states && item in CrawlItems(server, state);
    CrawlKey(server, state, item);
    ReportsExactly(server, state, pair.id);
  }

  /** A cycle stores a match id exactly if a page that the crawl of one of its states reaches lists it. */
  lemma StoredExactly(server: Server, states: seq<CrawlState>, p: Pool,
                      players: seq<PlayerKey>, id: string)
    requires Completes(server, states, p)
    ensures HasId(CycleSave.Expected(Untagged(p.delivered), players).pairs, id)
      <==> exists state :: state in states && MeetsId(server, state, id)
  {
    var items := Untagged(p.delivered);
    FirstByIdCovers(AllPairs(items), id);
    AllPairsHaveId(items, id);
    if item :| item in items && item.error.None? && id in item.ids {
      DeliveredExactly(server, states, p, item);
      var state :| state in states && item in CrawlItems(server, state);
      ReportsExactly(server, state, id);
    }
    if state :| state in states && MeetsId(server, state, id) {
      ReportsExactly(server, state, id);
      var item :| item in CrawlItems(server, state) && id in item.ids;
      CrawlKey(server, state, item);
      DeliveredExactly(server, states, p, item);
    }
  }

  // ----- The states of a cycle -----

  /** The address of a player's first page, for the queue type and window it is filled in with. */
  type Address = (PlayerKey, string, Window) -> string

  function CrawlStateOf(state: InitialState, continent: string, address: Address): CrawlState {
    CrawlState(state.key, continent, state.pageStart, address(state.key, continent, state.window))
  }

  /** The states a cycle crawls, each player in the continent of its region. */
  function CrawlStates(states: seq<InitialState>, continents: seq<string>, address: Address): seq<CrawlState>
    requires |continents| == |states|
  {
    seq(|states|, i requires 0 <= i < |states| => CrawlStateOf(states[i], continents[i], address))
  }

  /** Some key of this player is recorded. */
  ghost predicate IsRecorded(h: CycleWindows.History, puuid: string) {
    exists other :: other in h.recorded && other.puuid == puuid
  }

  /** The crawl of `key` from page 0, in the window from the anchor, or from 0 for a new player, up to `ts`. */
  ghost function PlayerCrawl(h: CycleWindows.History, key: PlayerKey, ts: int, continent: string,
                             address: Address): CrawlState
  {
    var from := if IsRecorded(h, key.puuid) && h.anchor > 0 then h.anchor else 0;
    CrawlState(key, continent, 0, address(key, continent, Window(from, ts)))
  }

  /**
   * From the loaded history to the next one: when the pool has crawled the states of a cycle, the keys a
   * committed cycle records, and so the windows it adds, are exactly those of the players whose crawl of
   * their window reaches no page that the server answers by an error.
   */
  lemma RecordedExactly(server: Server, h: CycleWindows.History, players: seq<PlayerKey>, ts: int,
                        continents: seq<string>, address: Address, p: Pool, committed: bool, key: PlayerKey)
    requires |continents| == |players|
    requires Completes(server, CrawlStates(StatesOf(h, players, ts), continents, address), p)
    ensures key in Succeeded(Cycle(players, FailedKeys(Untagged(p.delivered)), ts, committed))
      <==> key in players && forall i | 0 <= i < |players| && players[i] == key ::
             !MeetsError(server, PlayerCrawl(h, key, ts, continents[i], address))
  {
    var states := CrawlStates(StatesOf(h, players, ts), continents, address);
    FailedExactly(server, states, p, key);
    assert forall i | 0 <= i < |players| :: states[i] == PlayerCrawl(h, players[i], ts, continents[i], address);
    if state :| state in states && state.key == key && MeetsError(server, state) {
      var i :| 0 <= i < |states| && states[i] == state;
      assert players[i] == key;
    }
  }
}
