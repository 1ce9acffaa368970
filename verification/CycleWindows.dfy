/**
 * The time windows successive match-id cycles crawl: where a player's window starts
 * (`build_initial_player_states`), what a cycle loads (`load_matchid_puuids`, `load_matchid_puuid_ts`)
 * and when the windows of a player join without a gap.
 */
module CycleWindows {
  import opened Crawl
  import opened CycleSave
  import opened CycleStore
  import opened Results
  import opened Sequences

  /** The instants of one crawl: `startTime` up to and including `endTime`. */
  datatype Window = Window(from: int, to: int)

  /**
   * What the cycles so far amount to: the newest anchor's time, the player keys recorded under it, and
   * for every key the windows completed by committed cycles.
   */
  datatype History = History(anchor: int, recorded: set<PlayerKey>, windows: map<PlayerKey, set<Window>>)

  /** One cycle: the players it crawls, the keys whose crawl failed, its time, and whether its anchor stands. */
  datatype Cycle = Cycle(players: seq<PlayerKey>, failed: set<PlayerKey>, ts: int, committed: bool)

  function Puuids(keys: set<PlayerKey>): set<string> {
    set k | k in keys :: k.puuid
  }

  /** A player resumes at the anchor when its puuid is recorded, whatever the queue type. */
  predicate Resumes(h: History, key: PlayerKey) {
    key.puuid in Puuids(h.recorded) && h.anchor > 0
  }

  function WindowOf(h: History, key: PlayerKey, ts: int): Window {
    Window(if Resumes(h, key) then h.anchor else 0, ts)
  }

  function Succeeded(c: Cycle): set<PlayerKey> {
    set k | k in c.players && k !in c.failed
  }

  function WindowsOf(h: History, key: PlayerKey): set<Window> {
    if key in h.windows then h.windows[key] else {}
  }

  function Crawled(h: History, c: Cycle, key: PlayerKey): set<Window> {
    if key in Succeeded(c) then {WindowOf(h, key, c.ts)} else {}
  }

  function Step(h: History, c: Cycle): History {
    if c.committed then
      History(c.ts, Succeeded(c),
              map k | k in h.windows.Keys + Succeeded(c) :: WindowsOf(h, k) + Crawled(h, c, k))
    else h
  }

  const NO_CYCLES := History(0, {}, map[])

  function After(cycles: seq<Cycle>): History {
    if cycles == [] then NO_CYCLES
    else Step(After(cycles[..|cycles| - 1]), cycles[|cycles| - 1])
  }

  /** Every committed cycle runs later than the anchor it starts from. */
  ghost predicate ClockAdvances(cycles: seq<Cycle>) {
    forall n | 0 <= n < |cycles| :: cycles[n].committed ==> After(cycles[..n]).anchor < cycles[n].ts
  }

  predicate Inside(t: real, w: Window) {
    w.from as real <= t <= w.to as real
  }

  ghost predicate Covers(windows: set<Window>, t: real) {
    exists w :: w in windows && Inside(t, w)
  }

  /** Every instant from 0 to the anchor lies in some window of the key. */
  ghost predicate GapFree(h: History, key: PlayerKey) {
    forall t: real | 0.0 <= t <= h.anchor as real :: Covers(WindowsOf(h, key), t)
  }

  ghost predicate AllGapFree(h: History) {
    forall key <- h.recorded :: GapFree(h, key)
  }

  /** No successful player key resumes at an anchor under which only another key of its puuid is recorded. */
  ghost predicate ResumesOwnKeys(h: History, c: Cycle) {
    forall key <- Succeeded(c) :: Resumes(h, key) ==> key in h.recorded
  }

  // ----- The invariant of windows -----

  /** No window outlives the anchor, and those of unrecorded keys end before it. */
  ghost predicate WindowsEnd(h: History) {
    && h.anchor >= 0
    && forall key, w | w in WindowsOf(h, key) :: w.to <= h.anchor && (key !in h.recorded ==> w.to < h.anchor)
  }

  lemma StepWindows(h: History, c: Cycle, key: PlayerKey)
    requires c.committed
    ensures WindowsOf(Step(h, c), key) == WindowsOf(h, key) + Crawled(h, c, key)
  {
  }

  lemma StepWindowsEnd(h: History, c: Cycle)
    requires WindowsEnd(h) && c.committed && h.anchor < c.ts
    ensures WindowsEnd(Step(h, c))
  {
    forall key, w | w in WindowsOf(Step(h, c), key)
      ensures w.to <= c.ts && (key !in Succeeded(c) ==> w.to < c.ts)
    {
      StepWindows(h, c, key);
    }
  }

  lemma {:induction false} AfterWindowsEnd(cycles: seq<Cycle>)
    requires ClockAdvances(cycles)
    ensures WindowsEnd(After(cycles))
  {
    if cycles != [] {
      var n := |cycles| - 1;
      var init := cycles[..n];
      forall i | 0 <= i < n ensures init[i] == cycles[i] && init[..i] == cycles[..i] {
      }
      AfterWindowsEnd(init);
      if cycles[n].committed {
        StepWindowsEnd(After(init), cycles[n]);
      }
    }
  }

  // ----- One committed cycle -----

  /** A key that resumes its own coverage, or starts over at 0, stays gap-free. */
  lemma StepGapFree(h: History, c: Cycle, key: PlayerKey)
    requires c.committed && key in Succeeded(c)
    requires Resumes(h, key) ==> GapFree(h, key)
    ensures GapFree(Step(h, c), key)
  {
    StepWindows(h, c, key);
    var w := WindowOf(h, key, c.ts);
    forall t: real | 0.0 <= t <= c.ts as real ensures Covers(WindowsOf(Step(h, c), key), t) {
      if Inside(t, w) {
        assert w in WindowsOf(Step(h, c), key);
      } else {
        assert Covers(WindowsOf(h, key), t);
        var v :| v in WindowsOf(h, key) && Inside(t, v);
        assert v in WindowsOf(Step(h, c), key);
      }
    }
  }

  /** A key that resumes without being recorded misses the instants just before the anchor. */
  lemma StepGap(h: History, c: Cycle, key: PlayerKey)
    requires WindowsEnd(h) && c.committed && h.anchor < c.ts
    requires key in Succeeded(c) && Resumes(h, key) && key !in h.recorded
    ensures !GapFree(Step(h, c), key)
  {
    StepWindows(h, c, key);
    var t := h.anchor as real - 0.5;
    forall w <- WindowsOf(Step(h, c), key) ensures !Inside(t, w) {
      if w in WindowsOf(h, key) {
        assert w.to as real <= (h.anchor - 1) as real;
      }
    }
    assert !Covers(WindowsOf(Step(h, c), key), t);
    assert 0.0 <= t <= Step(h, c).anchor as real;
  }

  // ----- Whole runs -----

  ghost predicate GapFreeThroughout(cycles: seq<Cycle>) {
    forall n | 0 <= n <= |cycles| :: AllGapFree(After(cycles[..n]))
  }

  ghost predicate ResumesOwnThroughout(cycles: seq<Cycle>) {
    forall n | 0 <= n < |cycles| && cycles[n].committed :: ResumesOwnKeys(After(cycles[..n]), cycles[n])
  }

  lemma AfterNext(cycles: seq<Cycle>, n: nat)
    requires n < |cycles|
    ensures After(cycles[..n + 1]) == Step(After(cycles[..n]), cycles[n])
  {
    assert cycles[..n + 1][..n] == cycles[..n];
  }

  lemma PrefixAdvances(cycles: seq<Cycle>, n: nat)
    requires ClockAdvances(cycles) && n <= |cycles|
    ensures ClockAdvances(cycles[..n])
  {
    forall i | 0 <= i < n ensures cycles[..n][..i] == cycles[..i] {
    }
  }

  lemma {:induction false} OwnKeysSuffice(cycles: seq<Cycle>, n: nat)
    requires ResumesOwnThroughout(cycles) && n <= |cycles|
    ensures AllGapFree(After(cycles[..n]))
  {
    if n > 0 {
      AfterNext(cycles, n - 1);
      OwnKeysSuffice(cycles, n - 1);
      var h, c := After(cycles[..n - 1]), cycles[n - 1];
      if c.committed {
        forall key <- Succeeded(c) ensures GapFree(Step(h, c), key) {
          StepGapFree(h, c, key);
        }
      }
    }
  }

  /**
   * Over any sequence of committed and undone cycles: every recorded player is covered from 0 to the
   * anchor at all times exactly when no cycle resumes a key whose puuid, but not the key itself, is
   * recorded.
   */
  lemma GapFreeExactly(cycles: seq<Cycle>)
    requires ClockAdvances(cycles)
    ensures GapFreeThroughout(cycles) <==> ResumesOwnThroughout(cycles)
  {
    if ResumesOwnThroughout(cycles) {
      forall n | 0 <= n <= |cycles| ensures AllGapFree(After(cycles[..n])) {
        OwnKeysSuffice(cycles, n);
      }
    }
    if GapFreeThroughout(cycles) {
      forall n | 0 <= n < |cycles| && cycles[n].committed ensures ResumesOwnKeys(After(cycles[..n]), cycles[n]) {
        var h, c := After(cycles[..n]), cycles[n];
        AfterNext(cycles, n);
        PrefixAdvances(cycles, n);
        AfterWindowsEnd(cycles[..n]);
        assert AllGapFree(Step(h, c));
        forall key <- Succeeded(c) | Resumes(h, key) ensures key in h.recorded {
          if key !in h.recorded {
            StepGap(h, c, key);
          }
        }
      }
    }
  }

  /** Every puuid is crawled under one queue type only. */
  ghost predicate OneQueueType(cycles: seq<Cycle>) {
    forall c <- cycles, d <- cycles :: SameKeys(c.players, d.players)
  }

  predicate SameKeys(a: seq<PlayerKey>, b: seq<PlayerKey>) {
    forall k <- a, l <- b :: k.puuid == l.puuid ==> k == l
  }

  lemma {:induction false} RecordedWerePlayers(cycles: seq<Cycle>, n: nat, key: PlayerKey)
    requires n <= |cycles| && key in After(cycles[..n]).recorded
    ensures exists c :: c in cycles && key in c.players
  {
    if n > 0 {
      AfterNext(cycles, n - 1);
      if cycles[n - 1].committed {
        assert cycles[n - 1] in cycles;
      } else {
        RecordedWerePlayers(cycles, n - 1, key);
      }
    }
  }

  /** With one queue type per puuid no cycle leaves a gap. */
  lemma OneQueueTypeSuffices(cycles: seq<Cycle>)
    requires ClockAdvances(cycles) && OneQueueType(cycles)
    ensures GapFreeThroughout(cycles)
  {
    forall n | 0 <= n < |cycles| && cycles[n].committed ensures ResumesOwnKeys(After(cycles[..n]), cycles[n]) {
      var h, c := After(cycles[..n]), cycles[n];
      forall key <- Succeeded(c) | Resumes(h, key) ensures key in h.recorded {
        var other :| other in h.recorded && other.puuid == key.puuid;
        RecordedWerePlayers(cycles, n, other);
        var d :| d in cycles && other in d.players;
        assert c in cycles && SameKeys(c.players, d.players);
      }
    }
    GapFreeExactly(cycles);
  }

  /**
   * Without it a gap does occur: a player has two queue types, the crawl of one fails in the first cycle,
   * and in the second it resumes at the first anchor although nothing before that was crawled.
   */
  lemma TwoQueueTypesLeaveAGap(solo: PlayerKey, flex: PlayerKey, t0: int, t1: int)
    requires solo.puuid == flex.puuid && solo != flex && 0 < t0 < t1
    ensures
      var cycles := [Cycle([solo, flex], {flex}, t0, true), Cycle([solo, flex], {}, t1, true)];
      && ClockAdvances(cycles)
      && flex in After(cycles).recorded
      && WindowsOf(After(cycles), flex) == {Window(t0, t1)}
      && !GapFree(After(cycles), flex)
  {
    var first, second := Cycle([solo, flex], {flex}, t0, true), Cycle([solo, flex], {}, t1, true);
    var cycles := [first, second];
    assert cycles[..0] == [] && cycles[..1] == [first] && cycles[..2] == cycles;
    AfterNext(cycles, 0);
    AfterNext(cycles, 1);
    FlexBorrows(solo, flex, first, second);
    StepGap(Step(NO_CYCLES, first), second, flex);
  }

  lemma FlexBorrows(solo: PlayerKey, flex: PlayerKey, first: Cycle, second: Cycle)
    requires solo.puuid == flex.puuid && solo != flex && 0 < first.ts < second.ts
    requires first == Cycle([solo, flex], {flex}, first.ts, true) && second == Cycle([solo, flex], {}, second.ts, true)
    ensures
      var h := Step(NO_CYCLES, first);
      && flex in Succeeded(second) && flex !in h.recorded && Resumes(h, flex) && WindowsEnd(h)
      && WindowsOf(Step(h, second), flex) == {Window(first.ts, second.ts)}
  {
    var h := Step(NO_CYCLES, first);
    assert Succeeded(first) == {solo};
    StepWindowsEnd(NO_CYCLES, first);
    StepWindows(NO_CYCLES, first, flex);
    StepWindows(h, second, flex);
    assert solo in h.recorded;
  }

  // ----- The loader and the cycle on the database -----

  /** `max(stored_at)` and `argMax(run_id, stored_at)`: the newest anchor. */
  function Newest(anchors: seq<Anchor>): Option<Anchor> {
    if anchors == [] then None
    else
      var rest, last := Newest(anchors[..|anchors| - 1]), anchors[|anchors| - 1];
      if rest.Some? && rest.value.storedAt > last.storedAt then rest else Some(last)
  }

  function AnchorTime(anchors: seq<Anchor>): int {
    if Newest(anchors).Some? then Newest(anchors).value.storedAt else 0
  }

  function KeysOf(rows: seq<KeyRow>): seq<PlayerKey> {
    seq(|rows|, i requires 0 <= i < |rows| => rows[i].key)
  }

  function RecordedKeys(snap: Snapshot): seq<PlayerKey> {
    match Newest(snap.anchors)
    case None => []
    case Some(a) => KeysOf(Filter(snap.keys, OwnKeys(a.run)))
  }

  function AsSet(keys: seq<PlayerKey>): set<PlayerKey> {
    set k | k in keys
  }

  ghost predicate DistinctTimes(anchors: seq<Anchor>) {
    forall a <- anchors, b <- anchors :: a.storedAt == b.storedAt ==> a == b
  }

  lemma {:induction false} NewestMeaning(anchors: seq<Anchor>)
    requires DistinctTimes(anchors) && anchors != []
    ensures Newest(anchors).Some? && IsNewest(anchors, Newest(anchors).value)
  {
    var init := anchors[..|anchors| - 1];
    assert anchors == init + [anchors[|anchors| - 1]];
    if init != [] {
      NewestMeaning(init);
    }
  }

  lemma NewestUnique(anchors: seq<Anchor>, a: Anchor)
    requires DistinctTimes(anchors) && IsNewest(anchors, a)
    ensures Newest(anchors) == Some(a)
  {
    NewestMeaning(anchors);
  }

  /** The database shows the history: the newest anchor's time and the keys recorded under it. */
  ghost predicate Shows(snap: Snapshot, h: History) {
    && DistinctTimes(snap.anchors)
    && AnchorTime(snap.anchors) == h.anchor
    && AsSet(RecordedKeys(snap)) == h.recorded
  }

  datatype InitialState = InitialState(key: PlayerKey, pageStart: nat, window: Window)

  /** `build_initial_player_states`. */
  method BuildInitialPlayerStates(players: seq<PlayerKey>, collectedPuuids: set<string>, collectedTs: int, ts: int)
    returns (states: seq<InitialState>)
    ensures forall h: History, i | Puuids(h.recorded) == collectedPuuids && h.anchor == collectedTs
              && 0 <= i < |states| ::
              states[i].window == WindowOf(h, states[i].key, ts)
    ensures |states| == |players|
    ensures forall i | 0 <= i < |players| :: states[i].key == players[i] && states[i].pageStart == 0
  {
    states := [];
    for i := 0 to |players|
      invariant |states| == i
      invariant forall j | 0 <= j < i :: states[j].key == players[j] && states[j].pageStart == 0
      invariant forall h: History, j | Puuids(h.recorded) == collectedPuuids && h.anchor == collectedTs && 0 <= j < i ::
                  states[j].window == WindowOf(h, states[j].key, ts)
    {
      var from := if players[i].puuid in collectedPuuids && collectedTs > 0 then collectedTs else 0;
      states := states + [InitialState(players[i], 0, Window(from, ts))];
    }
  }

  /** What a cycle at time `ts` crawls: every player from page 0 in the window that the history gives it. */
  function StatesOf(h: History, players: seq<PlayerKey>, ts: int): seq<InitialState> {
    seq(|players|, i requires 0 <= i < |players| => InitialState(players[i], 0, WindowOf(h, players[i], ts)))
  }

  /** `MatchIDLoader.load`: every player's window follows from the history the database shows. */
  method Load(db: Database, players: seq<PlayerKey>, ts: int, ghost h: History) returns (states: seq<InitialState>)
    requires Shows(db.Now(), h)
    ensures states == StatesOf(h, players, ts)
  {
    var collected := RecordedKeys(Snapshot(db.ids, db.keys, db.anchors));
    var puuids := set k | k in collected :: k.puuid;
    assert puuids == Puuids(h.recorded) by {
      assert AsSet(collected) == h.recorded;
      forall k ensures k in collected <==> k in h.recorded {
        assert k in AsSet(collected) <==> k in collected;
      }
    }
    states := BuildInitialPlayerStates(players, puuids, AnchorTime(db.anchors), ts);
  }

  function OwnAnchor(anchors: seq<Anchor>, run: nat): bool {
    exists i | 0 <= i < |anchors| :: anchors[i].run == run
  }

  lemma KeysOfRows(run: nat, keys: seq<PlayerKey>)
    ensures KeysOf(KeyRows(run, keys)) == keys
  {
  }

  lemma ExpectedKeys(items: seq<Item>, players: seq<PlayerKey>, ts: int)
    ensures AsSet(Expected(items, players).keys) == Succeeded(Cycle(players, FailedKeys(items), ts, true))
  {
    forall k ensures k in Expected(items, players).keys <==> k in players && k !in FailedKeys(items) {
      FilterMembers(players, NotIn(FailedKeys(items)), k);
    }
  }

  /** Whatever a cycle leaves behind, the database shows the history with that cycle committed or not. */
  lemma CycleShows(snap: Snapshot, start: Snapshot, run: nat, items: seq<Item>, players: seq<PlayerKey>, ts: int,
                   h: History)
    requires FreshRun(start, run) && Shows(start, h) && (forall a <- start.anchors :: a.storedAt < ts)
    requires CycleState(snap, start, run, ts, Expected(items, players))
    ensures Shows(snap, Step(h, Cycle(players, FailedKeys(items), ts, OwnAnchor(snap.anchors, run))))
  {
    var data, own := Expected(items, players), OwnAnchor(snap.anchors, run);
    forall a <- snap.anchors ensures a in start.anchors || a == Anchor(run, ts) {
      FilterMembers(snap.anchors, OtherAnchors(run), a);
    }
    assert DistinctTimes(snap.anchors);
    if own {
      var i :| 0 <= i < |snap.anchors| && snap.anchors[i].run == run;
      assert snap.anchors[i] in snap.anchors;
      NewestUnique(snap.anchors, Anchor(run, ts));
      KeysOfRows(run, data.keys);
      ExpectedKeys(items, players, ts);
    } else {
      NothingNew(snap, start, run);
    }
  }

  lemma NothingNew(snap: Snapshot, start: Snapshot, run: nat)
    requires FreshRun(start, run) && !OwnAnchor(snap.anchors, run)
    requires OthersKept(snap, start, run) && Filter(snap.anchors, OtherAnchors(run)) == start.anchors
    ensures snap.anchors == start.anchors && RecordedKeys(snap) == RecordedKeys(start)
  {
    forall a <- snap.anchors ensures a.run != run {
      var i :| 0 <= i < |snap.anchors| && snap.anchors[i] == a;
    }
    FilterAll(snap.anchors, OtherAnchors(run));
    if Newest(start.anchors).Some? {
      NewestIn(start.anchors);
      var other := Newest(start.anchors).value.run;
      FilterTwice(snap.keys, OtherKeys(run), OwnKeys(other));
    }
  }

  lemma {:induction false} NewestIn(anchors: seq<Anchor>)
    requires anchors != []
    ensures Newest(anchors).Some? && Newest(anchors).value in anchors
  {
    var init := anchors[..|anchors| - 1];
    assert anchors == init + [anchors[|anchors| - 1]];
    if init != [] {
      NewestIn(init);
    }
  }

  /**
   * `MatchIDOrchestrator.run`: load, crawl (`items` is what the crawl delivers), save. However it ends,
   * the next cycle starts from the history in which this one is committed or never happened.
   */
  method RunCycle(db: Database, players: seq<PlayerKey>, items: seq<Item>, streamRaises: bool, stops: Check -> bool,
                  ts: int, run: nat, batchSize: nat, patience: nat, ghost h: History)
    returns (states: seq<InitialState>, outcome: CycleSave.Outcome, ghost committed: bool)
    requires Shows(db.Now(), h) && FreshRun(db.Now(), run) && (forall a <- db.anchors :: a.storedAt < ts)
    modifies db
    ensures states == StatesOf(h, players, ts)
    ensures Shows(db.Now(), Step(h, Cycle(players, FailedKeys(items), ts, committed)))
    ensures outcome.Done? ==> committed
    ensures outcome.RolledBack? ==> !committed && db.Now() == old(db.Now())
    ensures committed ==> Holds(db.Now(), run, Expected(items, players))
    ensures old(db.trace) <= db.trace
    ensures Traced(db.trace, |old(db.trace)|, old(db.Now()), run, ts, Expected(items, players))
    ensures CycleState(db.Now(), old(db.Now()), run, ts, Expected(items, players))
    ensures old(db.faults) <= db.faults && (outcome.Done? ==> !Broken(items, streamRaises, stops))
    ensures !outcome.Done? && patience > 0 ==> Broken(items, streamRaises, stops) || old(db.faults) < db.faults
  {
    ghost var start := db.Now();
    states := Load(db, players, ts, h);
    outcome := Save(db, items, streamRaises, stops, players, ts, run, batchSize, patience);
    CycleShows(db.Now(), start, run, items, players, ts, h);
    committed := OwnAnchor(db.anchors, run);
    if committed {
      var i :| 0 <= i < |db.anchors| && db.anchors[i].run == run;
      assert db.anchors[i] in db.anchors;
    }
    if outcome.Done? {
      assert db.anchors[0].run == run;
    }
  }

  // ----- Cycle after cycle -----

  /** What one cycle is given: its players, what the crawl delivers, whether it breaks off, stop requests, the time. */
  datatype Input = Input(players: seq<PlayerKey>, items: seq<Item>, streamRaises: bool, stops: Check -> bool, ts: int)
  {
    /** The crawl breaks off, or a stop is requested. */
    ghost predicate Fails() {
      Broken(items, streamRaises, stops)
    }
  }

  /** Every row belongs to an earlier run, and every anchor is older than `ts`. */
  ghost predicate Earlier(snap: Snapshot, run: nat, ts: int) {
    && (forall r <- snap.ids :: r.run < run)
    && (forall r <- snap.keys :: r.run < run)
    && (forall a <- snap.anchors :: a.run < run && a.storedAt < ts)
  }

  lemma CycleStaysEarlier(snap: Snapshot, start: Snapshot, run: nat, ts: int, data: RunData, later: int)
    requires Earlier(start, run, ts) && CycleState(snap, start, run, ts, data) && ts < later
    ensures Earlier(snap, run + 1, later)
  {
    forall r <- snap.ids ensures r.run < run + 1 {
      FilterMembers(snap.ids, OtherIds(run), r);
    }
    forall r <- snap.keys ensures r.run < run + 1 {
      FilterMembers(snap.keys, OtherKeys(run), r);
    }
    forall a <- snap.anchors ensures a.run < run + 1 && a.storedAt < later {
      FilterMembers(snap.anchors, OtherAnchors(run), a);
    }
  }

  ghost predicate AllSound(trace: seq<Snapshot>, from: nat, complete: map<nat, RunData>) {
    from <= |trace| && forall k | from <= k < |trace| :: Sound(trace[k], complete)
  }

  /** A new run adds its data to the complete ones without touching what earlier anchors name. */
  lemma CycleAllSound(before: seq<Snapshot>, trace: seq<Snapshot>, from: nat, start: Snapshot, run: nat, ts: int,
                      data: RunData, complete: map<nat, RunData>)
    requires before <= trace && AllSound(before, from, complete) && run !in complete
    requires Sound(start, complete) && FreshRun(start, run) && Traced(trace, |before|, start, run, ts, data)
    ensures AllSound(trace, from, complete[run := data])
  {
    forall k | from <= k < |trace| ensures Sound(trace[k], complete[run := data]) {
      if k < |before| {
        assert Sound(before[k], complete);
      } else {
        CycleStateSound(trace[k], start, run, ts, data, complete);
      }
    }
  }

  lemma NextCycle(cycles: seq<Cycle>, c: Cycle)
    requires ClockAdvances(cycles) && (c.committed ==> After(cycles).anchor < c.ts)
    ensures ClockAdvances(cycles + [c]) && After(cycles + [c]) == Step(After(cycles), c)
  {
    var all := cycles + [c];
    assert all[..|cycles|] == cycles;
    forall n | 0 <= n < |all| && all[n].committed ensures After(all[..n]).anchor < all[n].ts {
      if n < |cycles| {
        assert all[..n] == cycles[..n] && all[n] == cycles[n];
      }
    }
  }

  /** The cycle an input amounts to, committed or not. */
  ghost predicate CycleOf(input: Input, c: Cycle) {
    c == Cycle(input.players, FailedKeys(input.items), input.ts, c.committed)
  }

  /** After some cycles, the last at time `now`; `run` is the next unused run. */
  ghost predicate SoFar(snap: Snapshot, trace: seq<Snapshot>, from: nat, cycles: seq<Cycle>,
                        complete: map<nat, RunData>, run: nat, now: int)
  {
    && ClockAdvances(cycles) && Shows(snap, After(cycles)) && After(cycles).anchor <= now
    && Earlier(snap, run, now + 1) && (forall r <- complete :: r < run)
    && AllSound(trace, from, complete) && Sound(snap, complete)
  }

  lemma SoFarNext(start: Snapshot, snap: Snapshot, before: seq<Snapshot>, trace: seq<Snapshot>, from: nat,
                  cycles: seq<Cycle>, complete: map<nat, RunData>, run: nat, now: int, c: Cycle, data: RunData)
    requires SoFar(start, before, from, cycles, complete, run, now) && now < c.ts && before <= trace
    requires Traced(trace, |before|, start, run, c.ts, data) && CycleState(snap, start, run, c.ts, data)
    requires Shows(snap, Step(After(cycles), c))
    ensures SoFar(snap, trace, from, cycles + [c], complete[run := data], run + 1, c.ts)
  {
    CycleStateSound(snap, start, run, c.ts, data, complete);
    CycleAllSound(before, trace, from, start, run, c.ts, data, complete);
    CycleStaysEarlier(snap, start, run, c.ts, data, c.ts + 1);
    NextCycle(cycles, c);
  }

  /** The data every one of these cycles is to store, by its run. */
  function RunsOf(inputs: seq<Input>, firstRun: nat): map<nat, RunData> {
    if inputs == [] then map[]
    else
      var n := |inputs| - 1;
      RunsOf(inputs[..n], firstRun)[firstRun + n := Expected(inputs[n].items, inputs[n].players)]
  }

  lemma {:induction false} RunsOfMeaning(inputs: seq<Input>, firstRun: nat, run: nat)
    ensures run in RunsOf(inputs, firstRun) <==> firstRun <= run < firstRun + |inputs|
    ensures firstRun <= run < firstRun + |inputs| ==>
      RunsOf(inputs, firstRun)[run] == Expected(inputs[run - firstRun].items, inputs[run - firstRun].players)
  {
    if inputs != [] {
      var n := |inputs| - 1;
      RunsOfMeaning(inputs[..n], firstRun, run);
      assert firstRun <= run < firstRun + n ==> inputs[..n][run - firstRun] == inputs[run - firstRun];
    }
  }

  /** A cycle crawled the windows of the history before it, and was committed or not as it reported. */
  ghost predicate Conducted(input: Input, before: seq<Cycle>, c: Cycle, states: seq<InitialState>,
                            outcome: CycleSave.Outcome)
  {
    && CycleOf(input, c) && states == StatesOf(After(before), input.players, input.ts)
    && (outcome.Done? ==> c.committed && !input.Fails()) && (outcome.RolledBack? ==> !c.committed)
  }

  ghost predicate AllConducted(inputs: seq<Input>, cycles: seq<Cycle>, crawled: seq<seq<InitialState>>,
                               outcomes: seq<CycleSave.Outcome>)
  {
    && |inputs| == |cycles| == |crawled| == |outcomes|
    && forall i | 0 <= i < |inputs| :: Conducted(inputs[i], cycles[..i], cycles[i], crawled[i], outcomes[i])
  }

  /** Every cycle that nothing has broken has been completed. */
  ghost predicate AllCompleted(inputs: seq<Input>, outcomes: seq<CycleSave.Outcome>) {
    |inputs| == |outcomes| && forall i | 0 <= i < |inputs| :: outcomes[i].Done? || inputs[i].Fails()
  }

  lemma AllConductedNext(inputs: seq<Input>, cycles: seq<Cycle>, crawled: seq<seq<InitialState>>,
                         outcomes: seq<CycleSave.Outcome>, input: Input, c: Cycle, states: seq<InitialState>,
                         outcome: CycleSave.Outcome)
    requires AllConducted(inputs, cycles, crawled, outcomes) && Conducted(input, cycles, c, states, outcome)
    ensures AllConducted(inputs + [input], cycles + [c], crawled + [states], outcomes + [outcome])
  {
    var all := cycles + [c];
    assert all[..|cycles|] == cycles;
    forall i | 0 <= i < |cycles| ensures all[..i] == cycles[..i] && all[i] == cycles[i] {
    }
  }

  function LastTime(inputs: seq<Input>): int {
    if inputs == [] then 0 else inputs[|inputs| - 1].ts
  }

  /** Cycles with these inputs have been run, one after the other, from run `firstRun` on. */
  ghost predicate Ran(snap: Snapshot, trace: seq<Snapshot>, from: nat, inputs: seq<Input>, firstRun: nat,
                      cycles: seq<Cycle>, crawled: seq<seq<InitialState>>, outcomes: seq<CycleSave.Outcome>)
  {
    && AllConducted(inputs, cycles, crawled, outcomes)
    && SoFar(snap, trace, from, cycles, RunsOf(inputs, firstRun), firstRun + |inputs|, LastTime(inputs))
  }

  lemma NothingRan(snap: Snapshot, trace: seq<Snapshot>, firstRun: nat)
    requires snap.anchors == [] && Earlier(snap, firstRun, 1)
    ensures Ran(snap, trace, |trace|, [], firstRun, [], [], [])
  {
  }

  lemma RanNext(snap: Snapshot, trace: seq<Snapshot>, from: nat, inputs: seq<Input>, firstRun: nat, cycles: seq<Cycle>,
                c: Cycle, crawled: seq<seq<InitialState>>, states: seq<InitialState>, outcomes: seq<CycleSave.Outcome>,
                outcome: CycleSave.Outcome, n: nat, run: nat, next: nat)
    requires |inputs| == n + 1 && run == firstRun + n && next == run + 1
    requires AllConducted(inputs[..n], cycles, crawled, outcomes) && Conducted(inputs[n], cycles, c, states, outcome)
    requires SoFar(snap, trace, from, cycles + [c],
                   RunsOf(inputs[..n], firstRun)[run := Expected(inputs[n].items, inputs[n].players)], next,
                   inputs[n].ts)
    ensures Ran(snap, trace, from, inputs, firstRun, cycles + [c], crawled + [states], outcomes + [outcome])
  {
    AllConductedNext(inputs[..n], cycles, crawled, outcomes, inputs[n], c, states, outcome);
    SplitLast(inputs);
  }

  /** One more cycle, as run `run`. */
  method ConductCycle(db: Database, input: Input, run: nat, batchSize: nat, patience: nat, ghost cycles: seq<Cycle>,
                      ghost complete: map<nat, RunData>, ghost from: nat, ghost now: int)
    returns (states: seq<InitialState>, outcome: CycleSave.Outcome, ghost c: Cycle)
    requires SoFar(db.Now(), db.trace, from, cycles, complete, run, now) && now < input.ts
    modifies db
    ensures Conducted(input, cycles, c, states, outcome) && old(db.trace) <= db.trace
    ensures SoFar(db.Now(), db.trace, from, cycles + [c], complete[run := Expected(input.items, input.players)],
                  run + 1, input.ts)
    ensures old(db.faults) <= db.faults
    ensures patience > 0 && db.faults == old(db.faults) ==> outcome.Done? || input.Fails()
  {
    ghost var start, before := db.Now(), db.trace;
    ghost var committed;
    states, outcome, committed :=
      RunCycle(db, input.players, input.items, input.streamRaises, input.stops, input.ts, run, batchSize, patience,
               After(cycles));
    c := Cycle(input.players, FailedKeys(input.items), input.ts, committed);
    SoFarNext(start, db.Now(), before, db.trace, from, cycles, complete, run, now, c,
              Expected(input.items, input.players));
  }

  /** The last of the cycles `inputs`, after the ones before it. */
  method ConductLast(db: Database, inputs: seq<Input>, firstRun: nat, batchSize: nat, patience: nat,
                     ghost cycles: seq<Cycle>, crawled: seq<seq<InitialState>>, outcomes: seq<CycleSave.Outcome>,
                     ghost from: nat, n: nat)
    returns (crawled': seq<seq<InitialState>>, outcomes': seq<CycleSave.Outcome>, ghost cycles': seq<Cycle>)
    requires |inputs| == n + 1
    requires Ran(db.Now(), db.trace, from, inputs[..n], firstRun, cycles, crawled, outcomes)
    requires LastTime(inputs[..n]) < inputs[n].ts
    modifies db
    ensures old(db.trace) <= db.trace
    ensures Ran(db.Now(), db.trace, from, inputs, firstRun, cycles', crawled', outcomes')
    ensures old(db.faults) <= db.faults
    ensures patience > 0 && db.faults == old(db.faults) && AllCompleted(inputs[..n], outcomes) ==>
      AllCompleted(inputs, outcomes')
  {
    var states, outcome;
    ghost var c;
    var run := firstRun + n;
    states, outcome, c := ConductCycle(db, inputs[n], run, batchSize, patience, cycles, RunsOf(inputs[..n], firstRun),
                                       from, LastTime(inputs[..n]));
    RanNext(db.Now(), db.trace, from, inputs, firstRun, cycles, c, crawled, states, outcomes, outcome, n, run, run + 1);
    crawled', outcomes', cycles' := crawled + [states], outcomes + [outcome], cycles + [c];
  }

  /**
   * Cycle after cycle on one database that starts without anchors, whatever fails when: at every point
   * between commands each anchor names a run whose match ids and keys are all present (those of `RunsOf`);
   * each cycle crawls the windows of the history so far; and at the end the database shows the history of
   * exactly these cycles, so that `GapFreeExactly` says when it has a gap. If no command fails, every cycle
   * completes whose crawl does not break off and that no stop request meets.
   */
  method RunCycles(db: Database, inputs: seq<Input>, firstRun: nat, batchSize: nat, patience: nat)
    returns (crawled: seq<seq<InitialState>>, outcomes: seq<CycleSave.Outcome>, ghost cycles: seq<Cycle>)
    requires db.anchors == [] && Earlier(db.Now(), firstRun, 1)
    requires forall i | 0 <= i < |inputs| :: 0 < inputs[i].ts && (i > 0 ==> inputs[i - 1].ts < inputs[i].ts)
    modifies db
    ensures old(db.trace) <= db.trace
    ensures Ran(db.Now(), db.trace, |old(db.trace)|, inputs, firstRun, cycles, crawled, outcomes)
    ensures old(db.faults) <= db.faults
    ensures patience > 0 && db.faults == old(db.faults) ==> AllCompleted(inputs, outcomes)
  {
    crawled, outcomes, cycles := [], [], [];
    if inputs == [] {
      NothingRan(db.Now(), db.trace, firstRun);
      return;
    }
    ghost var from := |db.trace|;
    var n := |inputs| - 1;
    crawled, outcomes, cycles := RunCycles(db, inputs[..n], firstRun, batchSize, patience);
    crawled, outcomes, cycles := ConductLast(db, inputs, firstRun, batchSize, patience, cycles, crawled, outcomes, from,
                                             n);
  }
}
