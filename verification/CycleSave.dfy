/**
 * Saving one match-id cycle: stream and deduplicate match ids, store them, store the player keys that
 * succeeded, and only then the anchor (`MatchIDCollector`, `_dedupe_async`, `MatchIDSaver.save`).
 */
module CycleSave {
  import opened Crawl
  import opened CycleStore
  import opened Results
  import opened Sequences

  // ----- What a cycle should store -----

  function PairsOf(item: Item): seq<Pair> {
    if item.error.Some? then []
    else seq(|item.ids|, i requires 0 <= i < |item.ids| => Pair(item.ids[i], item.key.queueType))
  }

  function AllPairs(items: seq<Item>): seq<Pair> {
    if items == [] then [] else AllPairs(items[..|items| - 1]) + PairsOf(items[|items| - 1])
  }

  predicate HasId(pairs: seq<Pair>, id: string) {
    exists i | 0 <= i < |pairs| :: pairs[i].id == id
  }

  /** Every match id once, with the queue type it was first seen under. */
  function FirstById(pairs: seq<Pair>): seq<Pair> {
    if pairs == [] then []
    else
      var rest, last := FirstById(pairs[..|pairs| - 1]), pairs[|pairs| - 1];
      if HasId(rest, last.id) then rest else rest + [last]
  }

  /** Deduplication keeps no id twice, and keeps each pair at the first occurrence of its id. */
  lemma {:induction false} FirstByIdMeaning(pairs: seq<Pair>)
    ensures forall i, j | 0 <= i < j < |FirstById(pairs)| :: FirstById(pairs)[i].id != FirstById(pairs)[j].id
    ensures forall p <- FirstById(pairs) :: exists k | 0 <= k < |pairs| :: pairs[k] == p && !HasId(pairs[..k], p.id)
  {
    if pairs != [] {
      var n := |pairs| - 1;
      var init, last := pairs[..n], pairs[n];
      FirstByIdMeaning(init);
      FirstByIdCovers(init, last.id);
      forall p <- FirstById(pairs) ensures exists k | 0 <= k < |pairs| :: pairs[k] == p && !HasId(pairs[..k], p.id) {
        if p in FirstById(init) {
          var k :| 0 <= k < |init| && init[k] == p && !HasId(init[..k], p.id);
          assert pairs[..k] == init[..k] && pairs[k] == p;
        } else {
          assert pairs[n] == p && pairs[..n] == init;
        }
      }
    }
  }

  /** Deduplication keeps every id. */
  lemma {:induction false} FirstByIdCovers(pairs: seq<Pair>, id: string)
    ensures HasId(FirstById(pairs), id) <==> HasId(pairs, id)
  {
    if pairs != [] {
      var n := |pairs| - 1;
      var init, last := pairs[..n], pairs[n];
      FirstByIdCovers(init, id);
      assert pairs == init + [last];
      var rest := FirstById(init);
      assert HasId(rest + [last], id) <==> HasId(rest, id) || last.id == id by { HasIdAppend(rest, last, id); }
      HasIdAppend(init, last, id);
    }
  }

  lemma HasIdAppend(pairs: seq<Pair>, p: Pair, id: string)
    ensures HasId(pairs + [p], id) <==> HasId(pairs, id) || p.id == id
  {
    var all := pairs + [p];
    if HasId(pairs, id) {
      var i :| 0 <= i < |pairs| && pairs[i].id == id;
      assert all[i].id == id;
    }
    if p.id == id {
      assert all[|pairs|].id == id;
    }
  }

  function FailedKeys(items: seq<Item>): set<PlayerKey> {
    set item | item in items && item.error.Some? :: item.key
  }

  function NotIn(failed: set<PlayerKey>): PlayerKey -> bool { (k: PlayerKey) => k !in failed }

  /** Match ids and player keys that belong to a run. */
  datatype RunData = RunData(pairs: seq<Pair>, keys: seq<PlayerKey>)

  function Expected(items: seq<Item>, fullKeys: seq<PlayerKey>): RunData {
    RunData(FirstById(AllPairs(items)), Filter(fullKeys, NotIn(FailedKeys(items))))
  }

  // ----- Sound anchors -----

  ghost predicate Holds(snap: Snapshot, run: nat, data: RunData) {
    && Filter(snap.ids, OwnIds(run)) == IdRows(run, data.pairs)
    && Filter(snap.keys, OwnKeys(run)) == KeyRows(run, data.keys)
  }

  /** An anchor names only a run whose match ids and successful player keys are all stored. */
  ghost predicate Sound(snap: Snapshot, complete: map<nat, RunData>) {
    forall a <- snap.anchors :: a.run in complete && Holds(snap, a.run, complete[a.run])
  }

  ghost predicate FreshRun(snap: Snapshot, run: nat) {
    && (forall r <- snap.ids :: r.run != run)
    && (forall r <- snap.keys :: r.run != run)
    && (forall a <- snap.anchors :: a.run != run)
  }

  /** Rows of other runs are as at the start of the cycle. */
  ghost predicate OthersKept(snap: Snapshot, start: Snapshot, run: nat) {
    && Filter(snap.ids, OtherIds(run)) == start.ids
    && Filter(snap.keys, OtherKeys(run)) == start.keys
  }

  /** An anchor of this run stands only while the run's data is all there. */
  ghost predicate OwnSound(snap: Snapshot, run: nat, ts: int, data: RunData) {
    forall a <- snap.anchors | a.run == run :: a.storedAt == ts && Holds(snap, run, data)
  }

  /** The cycle may still be undone: the previous anchors stand. */
  ghost predicate Pending(snap: Snapshot, start: Snapshot, run: nat, ts: int, data: RunData) {
    && OthersKept(snap, start, run)
    && Filter(snap.anchors, OtherAnchors(run)) == start.anchors
    && OwnSound(snap, run, ts, data)
  }

  /** The cycle has replaced the previous anchors by its own. */
  ghost predicate Committed(snap: Snapshot, start: Snapshot, run: nat, ts: int, data: RunData) {
    && OthersKept(snap, start, run)
    && snap.anchors == [Anchor(run, ts)]
    && Holds(snap, run, data)
  }

  ghost predicate CycleState(snap: Snapshot, start: Snapshot, run: nat, ts: int, data: RunData) {
    Pending(snap, start, run, ts, data) || Committed(snap, start, run, ts, data)
  }

  ghost predicate Traced(trace: seq<Snapshot>, from: nat, start: Snapshot, run: nat, ts: int, data: RunData) {
    from <= |trace| && forall k | from <= k < |trace| :: CycleState(trace[k], start, run, ts, data)
  }

  lemma OtherRunsHold(snap: Snapshot, start: Snapshot, run: nat, other: nat, data: RunData)
    requires OthersKept(snap, start, run) && other != run && Holds(start, other, data)
    ensures Holds(snap, other, data)
  {
    FilterTwice(snap.ids, OtherIds(run), OwnIds(other));
    FilterTwice(snap.keys, OtherKeys(run), OwnKeys(other));
  }

  /** Whatever the cycle has done so far, every anchor names a complete run. */
  lemma CycleStateSound(snap: Snapshot, start: Snapshot, run: nat, ts: int, data: RunData, complete: map<nat, RunData>)
    requires Sound(start, complete) && FreshRun(start, run) && CycleState(snap, start, run, ts, data)
    ensures Sound(snap, complete[run := data])
  {
    forall a <- snap.anchors
      ensures a.run in complete[run := data] && Holds(snap, a.run, complete[run := data][a.run])
    {
      if a.run != run {
        FilterMembers(snap.anchors, OtherAnchors(run), a);
        OtherRunsHold(snap, start, run, a.run, complete[a.run]);
      }
    }
  }

  /** The anchor the next cycle starts from: the newest one. */
  ghost predicate IsNewest(anchors: seq<Anchor>, a: Anchor) {
    a in anchors && forall b <- anchors :: b.storedAt < a.storedAt || b == a
  }

  /** At every point the newest anchor is the previous one or this cycle's own. */
  lemma NewestAnchor(snap: Snapshot, start: Snapshot, run: nat, ts: int, data: RunData, previous: Anchor)
    requires FreshRun(start, run) && IsNewest(start.anchors, previous) && previous.storedAt < ts
    requires CycleState(snap, start, run, ts, data)
    ensures IsNewest(snap.anchors, if exists a :: a in snap.anchors && a.run == run then Anchor(run, ts) else previous)
  {
    if Pending(snap, start, run, ts, data) {
      forall a: Anchor { FilterMembers(snap.anchors, OtherAnchors(run), a); }
    }
  }

  // ----- Streaming match ids into the table -----

  function IdSet(pairs: seq<Pair>): set<string> {
    set p | p in pairs :: p.id
  }

  /** `_dedupe_async` on one batch; `seen` lives as long as the stream. */
  method DedupeBatch(batch: seq<Pair>, seen: set<string>, ghost before: seq<Pair>)
    returns (out: seq<Pair>, seen': set<string>)
    requires seen == IdSet(FirstById(before))
    ensures FirstById(before + batch) == FirstById(before) + out
    ensures seen' == IdSet(FirstById(before + batch))
  {
    out, seen' := [], seen;
    assert before + batch[..0] == before;
    for i := 0 to |batch|
      invariant FirstById(before + batch[..i]) == FirstById(before) + out
      invariant seen' == IdSet(FirstById(before + batch[..i]))
    {
      var p := batch[i];
      var done := before + batch[..i];
      assert before + batch[..i + 1] == done + [p];
      assert (done + [p])[..|done|] == done;
      if p.id !in seen' {
        out := out + [p];
        seen' := seen' + {p.id};
      }
    }
    assert batch[..|batch|] == batch;
  }

  /** Before the anchor: this run's rows follow the previous ones, the anchors are as they were. */
  ghost predicate Growing(snap: Snapshot, start: Snapshot, run: nat) {
    && start.ids <= snap.ids && (forall i | |start.ids| <= i < |snap.ids| :: snap.ids[i].run == run)
    && start.keys <= snap.keys && (forall i | |start.keys| <= i < |snap.keys| :: snap.keys[i].run == run)
    && snap.anchors == start.anchors
  }

  lemma GrowingPending(snap: Snapshot, start: Snapshot, run: nat, ts: int, data: RunData)
    requires FreshRun(start, run) && Growing(snap, start, run)
    ensures Pending(snap, start, run, ts, data)
  {
    var ids, keys := snap.ids[|start.ids|..], snap.keys[|start.keys|..];
    assert snap.ids == start.ids + ids && snap.keys == start.keys + keys;
    FilterConcat(start.ids, ids, OtherIds(run));
    FilterConcat(start.keys, keys, OtherKeys(run));
    FilterAll(start.ids, OtherIds(run));
    FilterAll(start.keys, OtherKeys(run));
    FilterAll(start.anchors, OtherAnchors(run));
    FilterNone(ids, OtherIds(run));
    FilterNone(keys, OtherKeys(run));
  }

  /** The writing phase of a cycle: rows grow, and every recorded state may still be undone. */
  ghost predicate Writing(db: Database, from: nat, start: Snapshot, run: nat, ts: int, data: RunData)
    reads db
  {
    FreshRun(start, run) && Growing(db.Now(), start, run) && Traced(db.trace, from, start, run, ts, data)
  }

  lemma TracedAppend(trace: seq<Snapshot>, now: Snapshot, from: nat, start: Snapshot, run: nat, ts: int, data: RunData)
    requires Traced(trace, from, start, run, ts, data) && CycleState(now, start, run, ts, data)
    ensures Traced(trace + [now], from, start, run, ts, data)
  {
  }

  /** `_insert_matchids_rows`. */
  method WriteIds(db: Database, rows: seq<IdRow>, run: nat,
                  ghost from: nat, ghost start: Snapshot, ghost ts: int, ghost data: RunData) returns (ok: bool)
    requires Writing(db, from, start, run, ts, data) && forall r <- rows :: r.run == run
    modifies db
    ensures Writing(db, from, start, run, ts, data) && old(db.trace) <= db.trace
    ensures db.keys == old(db.keys) && (ok ==> db.ids == old(db.ids) + rows)
    ensures db.faults == old(db.faults) + if ok then 0 else 1
  {
    if rows == [] {
      return true;
    }
    ok := db.InsertIds(rows);
    GrowingPending(db.Now(), start, run, ts, data);
    TracedAppend(old(db.trace), db.Now(), from, start, run, ts, data);
  }

  lemma IdRowsConcat(run: nat, a: seq<Pair>, b: seq<Pair>)
    ensures IdRows(run, a + b) == IdRows(run, a) + IdRows(run, b)
  {
  }

  /** Append one deduplicated batch to the pending rows, writing them out whenever `batchSize` is reached. */
  method AddPairs(db: Database, pairs: seq<Pair>, pending: seq<IdRow>, run: nat, batchSize: nat,
                  ghost from: nat, ghost start: Snapshot, ghost ts: int, ghost data: RunData)
    returns (ok: bool, pending': seq<IdRow>)
    requires Writing(db, from, start, run, ts, data) && forall r <- pending :: r.run == run
    modifies db
    ensures Writing(db, from, start, run, ts, data) && old(db.trace) <= db.trace && db.keys == old(db.keys)
    ensures forall r <- pending' :: r.run == run
    ensures ok ==> db.ids + pending' == old(db.ids) + pending + IdRows(run, pairs)
    ensures db.faults == old(db.faults) + if ok then 0 else 1
  {
    ok, pending' := true, pending;
    ghost var before := db.ids + pending;
    assert before + IdRows(run, pairs[..0]) == before;
    for i := 0 to |pairs|
      invariant Writing(db, from, start, run, ts, data) && old(db.trace) <= db.trace && db.keys == old(db.keys)
      invariant forall r <- pending' :: r.run == run
      invariant ok && db.ids + pending' == before + IdRows(run, pairs[..i]) && db.faults == old(db.faults)
    {
      var row := IdRow(run, pairs[i]);
      assert IdRows(run, pairs[..i + 1]) == IdRows(run, pairs[..i]) + [row];
      Associative(db.ids, pending', [row]);
      Associative(before, IdRows(run, pairs[..i]), [row]);
      pending' := pending' + [row];
      if |pending'| >= batchSize {
        ok := WriteIds(db, pending', run, from, start, ts, data);
        if !ok {
          return;
        }
        pending' := [];
        NothingAdded(db.ids);
      }
    }
    assert pairs[..|pairs|] == pairs;
  }

  /** The places where a cycle looks at the stop flag, by the position of the item at hand. */
  datatype Check = CollectStart | Collecting(k: nat) | Deduping(k: nat)

  /** A stop request is seen while item `k` is collected or, if it carries match ids, deduplicated. */
  ghost predicate StopsAt(items: seq<Item>, stops: Check -> bool, k: nat)
    requires k < |items|
  {
    stops(Collecting(k)) || (items[k].error.None? && items[k].ids != [] && stops(Deduping(k)))
  }

  ghost predicate Stopped(items: seq<Item>, stops: Check -> bool, n: nat)
    requires n <= |items|
  {
    exists k: nat | k < n :: StopsAt(items, stops, k)
  }

  lemma StoppedNext(items: seq<Item>, stops: Check -> bool, n: nat)
    requires n < |items|
    ensures Stopped(items, stops, n + 1) <==> Stopped(items, stops, n) || StopsAt(items, stops, n)
  {
  }

  /** Why a cycle may fail: the crawl raises, or a stop is requested. */
  ghost predicate Broken(items: seq<Item>, streamRaises: bool, stops: Check -> bool) {
    streamRaises || stops(CollectStart) || Stopped(items, stops, |items|)
  }

  /** `items` have been streamed: each match id once, in the table or in the pending batch. */
  ghost predicate Streamed(ids: seq<IdRow>, before: seq<IdRow>, items: seq<Item>, seen: set<string>,
                           pending: seq<IdRow>, run: nat)
  {
    && seen == IdSet(FirstById(AllPairs(items))) && (forall r <- pending :: r.run == run)
    && ids + pending == before + IdRows(run, FirstById(AllPairs(items)))
  }

  lemma NothingStreamed(before: seq<IdRow>, run: nat)
    ensures Streamed(before, before, [], {}, [], run)
  {
    NothingAdded(before);
  }

  /** A failed player adds no match ids. */
  lemma FailedStreamed(ids: seq<IdRow>, before: seq<IdRow>, items: seq<Item>, item: Item, seen: set<string>,
                       pending: seq<IdRow>, run: nat)
    requires Streamed(ids, before, items, seen, pending, run) && item.error.Some?
    ensures Streamed(ids, before, items + [item], seen, pending, run)
  {
    AppendPrefix(items, item);
    NothingAdded(AllPairs(items));
  }

  /** The match ids of one page: deduplicate them and append them to the pending rows. */
  method StreamItem(db: Database, item: Item, seen: set<string>, pending: seq<IdRow>, run: nat, batchSize: nat,
                    ghost before: seq<IdRow>, ghost items: seq<Item>, ghost from: nat, ghost start: Snapshot,
                    ghost ts: int, ghost data: RunData)
    returns (ok: bool, seen': set<string>, pending': seq<IdRow>)
    requires Writing(db, from, start, run, ts, data) && item.error.None?
    requires Streamed(db.ids, before, items, seen, pending, run)
    modifies db
    ensures Writing(db, from, start, run, ts, data) && old(db.trace) <= db.trace && db.keys == old(db.keys)
    ensures ok ==> Streamed(db.ids, before, items + [item], seen', pending', run)
    ensures db.faults == old(db.faults) + if ok then 0 else 1
  {
    var out;
    ghost var stored := FirstById(AllPairs(items));
    AppendPrefix(items, item);
    out, seen' := DedupeBatch(PairsOf(item), seen, AllPairs(items));
    IdRowsConcat(run, stored, out);
    Associative(before, IdRows(run, stored), IdRows(run, out));
    ok, pending' := AddPairs(db, out, pending, run, batchSize, from, start, ts, data);
  }

  /**
   * `MatchIDCollector.collect`, `_dedupe_async` and `insert_matchids_stream_in_batches`, pulled by one
   * another: record failed keys, deduplicate, write in batches.
   */
  method StreamIds(db: Database, items: seq<Item>, streamRaises: bool, stops: Check -> bool, run: nat, batchSize: nat,
                   ghost from: nat, ghost start: Snapshot, ghost ts: int, ghost data: RunData)
    returns (ok: bool, failed: set<PlayerKey>)
    requires Writing(db, from, start, run, ts, data)
    modifies db
    ensures Writing(db, from, start, run, ts, data) && old(db.trace) <= db.trace && db.keys == old(db.keys)
    ensures ok ==> failed == FailedKeys(items)
    ensures ok ==> db.ids == old(db.ids) + IdRows(run, FirstById(AllPairs(items)))
    ensures old(db.faults) <= db.faults && (ok <==> !Broken(items, streamRaises, stops) && db.faults == old(db.faults))
  {
    failed := {};
    if stops(CollectStart) {
      return false, failed;
    }
    var seen: set<string>, pending: seq<IdRow> := {}, [];
    ghost var before := db.ids;
    NothingStreamed(before, run);
    for i := 0 to |items|
      invariant Writing(db, from, start, run, ts, data) && old(db.trace) <= db.trace && db.keys == old(db.keys)
      invariant failed == FailedKeys(items[..i]) && Streamed(db.ids, before, items[..i], seen, pending, run)
      invariant db.faults == old(db.faults) && !Stopped(items, stops, i)
    {
      StoppedNext(items, stops, i);
      if stops(Collecting(i)) {
        return false, failed;
      }
      assert items[..i + 1] == items[..i] + [items[i]];
      if items[i].error.Some? {
        FailedStreamed(db.ids, before, items[..i], items[i], seen, pending, run);
        failed := failed + {items[i].key};
        continue;
      }
      if items[i].ids != [] && stops(Deduping(i)) {
        return false, failed;
      }
      ok, seen, pending := StreamItem(db, items[i], seen, pending, run, batchSize, before, items[..i], from, start, ts,
                                      data);
      if !ok {
        return;
      }
    }
    assert items[..|items|] == items;
    if streamRaises {
      return false, failed;
    }
    ok := WriteIds(db, pending, run, from, start, ts, data);
  }

  // ----- Player keys -----

  method WriteKeyBatch(db: Database, rows: seq<KeyRow>, run: nat,
                       ghost from: nat, ghost start: Snapshot, ghost ts: int, ghost data: RunData)
    returns (ok: bool)
    requires Writing(db, from, start, run, ts, data) && forall r <- rows :: r.run == run
    modifies db
    ensures Writing(db, from, start, run, ts, data) && old(db.trace) <= db.trace && db.ids == old(db.ids)
    ensures ok ==> db.keys == old(db.keys) + rows
    ensures db.faults == old(db.faults) + if ok then 0 else 1
  {
    ok := db.InsertKeys(rows);
    GrowingPending(db.Now(), start, run, ts, data);
    TracedAppend(old(db.trace), db.Now(), from, start, run, ts, data);
  }

  /** `insert_puuids_in_batches`. */
  method WriteKeys(db: Database, keys: seq<PlayerKey>, run: nat, batchSize: nat,
                   ghost from: nat, ghost start: Snapshot, ghost ts: int, ghost data: RunData)
    returns (ok: bool)
    requires Writing(db, from, start, run, ts, data)
    modifies db
    ensures Writing(db, from, start, run, ts, data) && old(db.trace) <= db.trace && db.ids == old(db.ids)
    ensures ok ==> db.keys == old(db.keys) + KeyRows(run, keys)
    ensures db.faults == old(db.faults) + if ok then 0 else 1
  {
    ghost var before := db.keys;
    var batch: seq<KeyRow> := [];
    assert before + KeyRows(run, keys[..0]) == before + [] == before;
    for i := 0 to |keys|
      invariant Writing(db, from, start, run, ts, data) && old(db.trace) <= db.trace && db.ids == old(db.ids)
      invariant forall r <- batch :: r.run == run
      invariant db.keys + batch == before + KeyRows(run, keys[..i]) && db.faults == old(db.faults)
    {
      var row := KeyRow(run, keys[i]);
      assert KeyRows(run, keys[..i + 1]) == KeyRows(run, keys[..i]) + [row];
      Associative(db.keys, batch, [row]);
      Associative(before, KeyRows(run, keys[..i]), [row]);
      batch := batch + [row];
      if |batch| >= batchSize {
        ok := WriteKeyBatch(db, batch, run, from, start, ts, data);
        if !ok {
          return;
        }
        batch := [];
        NothingAdded(db.keys);
      }
    }
    assert keys[..|keys|] == keys;
    ok := true;
    if batch != [] {
      ok := WriteKeyBatch(db, batch, run, from, start, ts, data);
    }
  }

  // ----- The anchor, and undoing a cycle -----

  /** Like `Growing`, but this run's anchor may stand once its data is all there. */
  ghost predicate Anchoring(snap: Snapshot, start: Snapshot, run: nat, ts: int, data: RunData) {
    && Growing(snap.(anchors := start.anchors), start, run)
    && (snap.anchors == start.anchors
        || (snap.anchors == start.anchors + [Anchor(run, ts)] && Holds(snap, run, data)))
  }

  lemma AnchoringPending(snap: Snapshot, start: Snapshot, run: nat, ts: int, data: RunData)
    requires FreshRun(start, run) && Anchoring(snap, start, run, ts, data)
    ensures Pending(snap, start, run, ts, data)
    ensures Filter(snap.anchors, OtherAnchors(run)) == start.anchors
  {
    GrowingPending(snap.(anchors := start.anchors), start, run, ts, data);
    FilterConcat(start.anchors, [Anchor(run, ts)], OtherAnchors(run));
    FilterNone([Anchor(run, ts)], OtherAnchors(run));
    FilterAll(start.anchors, OtherAnchors(run));
  }

  lemma WrittenHolds(snap: Snapshot, start: Snapshot, run: nat, data: RunData)
    requires FreshRun(start, run)
    requires snap.ids == start.ids + IdRows(run, data.pairs) && snap.keys == start.keys + KeyRows(run, data.keys)
    ensures Holds(snap, run, data)
  {
    FilterConcat(start.ids, IdRows(run, data.pairs), OwnIds(run));
    FilterConcat(start.keys, KeyRows(run, data.keys), OwnKeys(run));
    FilterNone(start.ids, OwnIds(run));
    FilterNone(start.keys, OwnKeys(run));
    FilterAll(IdRows(run, data.pairs), OwnIds(run));
    FilterAll(KeyRows(run, data.keys), OwnKeys(run));
  }

  ghost predicate Closing(db: Database, from: nat, start: Snapshot, run: nat, ts: int, data: RunData)
    reads db
  {
    FreshRun(start, run) && Anchoring(db.Now(), start, run, ts, data) && Traced(db.trace, from, start, run, ts, data)
  }

  /** `delete_failed_puuid_timestamp`, retried as long as the process lives (`patience` attempts). */
  method UndoAnchor(db: Database, run: nat, patience: nat,
                    ghost from: nat, ghost start: Snapshot, ghost ts: int, ghost data: RunData) returns (ok: bool)
    requires Closing(db, from, start, run, ts, data)
    modifies db
    ensures Closing(db, from, start, run, ts, data) && old(db.trace) <= db.trace
    ensures ok ==> Writing(db, from, start, run, ts, data)
    ensures db.faults >= old(db.faults) + if ok then 0 else patience
  {
    ok := false;
    for attempt := 0 to patience
      invariant db.faults == old(db.faults) + attempt
      invariant Closing(db, from, start, run, ts, data) && old(db.trace) <= db.trace && !ok
    {
      ghost var before := db.trace;
      AnchoringPending(db.Now(), start, run, ts, data);
      ok := db.DeleteAnchor(run);
      AnchoringPending(db.Now(), start, run, ts, data);
      TracedAppend(before, db.Now(), from, start, run, ts, data);
      if ok {
        return;
      }
    }
  }

  /** `delete_matchid_puuids`, retried. */
  method UndoKeys(db: Database, run: nat, patience: nat,
                  ghost from: nat, ghost start: Snapshot, ghost ts: int, ghost data: RunData) returns (ok: bool)
    requires Writing(db, from, start, run, ts, data)
    modifies db
    ensures Writing(db, from, start, run, ts, data) && old(db.trace) <= db.trace
    ensures ok ==> db.keys == start.keys
    ensures db.faults >= old(db.faults) + if ok then 0 else patience
  {
    ok := false;
    for attempt := 0 to patience
      invariant db.faults == old(db.faults) + attempt
      invariant Writing(db, from, start, run, ts, data) && old(db.trace) <= db.trace && !ok
    {
      ghost var before := db.trace;
      GrowingPending(db.Now(), start, run, ts, data);
      ok := db.DeleteKeys(run);
      GrowingPending(db.Now(), start, run, ts, data);
      TracedAppend(before, db.Now(), from, start, run, ts, data);
      if ok {
        return;
      }
    }
  }

  /** `delete_matchids`, retried. */
  method UndoIds(db: Database, run: nat, patience: nat,
                 ghost from: nat, ghost start: Snapshot, ghost ts: int, ghost data: RunData) returns (ok: bool)
    requires Writing(db, from, start, run, ts, data)
    modifies db
    ensures Writing(db, from, start, run, ts, data) && old(db.trace) <= db.trace && db.keys == old(db.keys)
    ensures ok ==> db.ids == start.ids
    ensures db.faults >= old(db.faults) + if ok then 0 else patience
  {
    ok := false;
    for attempt := 0 to patience
      invariant db.faults == old(db.faults) + attempt
      invariant Writing(db, from, start, run, ts, data) && old(db.trace) <= db.trace && db.keys == old(db.keys) && !ok
    {
      ghost var before := db.trace;
      GrowingPending(db.Now(), start, run, ts, data);
      ok := db.DeleteIds(run);
      GrowingPending(db.Now(), start, run, ts, data);
      TracedAppend(before, db.Now(), from, start, run, ts, data);
      if ok {
        return;
      }
    }
  }

  lemma OwnAnchorOnly(anchors: seq<Anchor>, run: nat, ts: int)
    requires forall a <- anchors :: a.run != run
    ensures Filter(anchors + [Anchor(run, ts)], OwnAnchors(run)) == [Anchor(run, ts)]
    ensures Filter([Anchor(run, ts)], OwnAnchors(run)) == [Anchor(run, ts)]
  {
    FilterConcat(anchors, [Anchor(run, ts)], OwnAnchors(run));
    FilterNone(anchors, OwnAnchors(run));
    FilterAll([Anchor(run, ts)], OwnAnchors(run));
  }

  /** The data of a completed cycle is all there, and its anchor stands last or alone. */
  ghost predicate Completed(snap: Snapshot, start: Snapshot, run: nat, ts: int, data: RunData) {
    && Anchoring(snap.(anchors := start.anchors), start, run, ts, data)
    && Holds(snap, run, data)
    && (snap.anchors == start.anchors + [Anchor(run, ts)] || snap.anchors == [Anchor(run, ts)])
  }

  lemma CompletedState(snap: Snapshot, start: Snapshot, run: nat, ts: int, data: RunData)
    requires FreshRun(start, run) && Completed(snap, start, run, ts, data)
    ensures CycleState(snap, start, run, ts, data)
    ensures Filter(snap.anchors, OwnAnchors(run)) == [Anchor(run, ts)]
  {
    OwnAnchorOnly(start.anchors, run, ts);
    if snap.anchors == start.anchors + [Anchor(run, ts)] {
      AnchoringPending(snap, start, run, ts, data);
    } else {
      AnchoringPending(snap.(anchors := start.anchors), start, run, ts, data);
    }
  }

  /** One attempt of `delete_old_puuid_timestamps`. */
  method TryDropOldAnchors(db: Database, run: nat,
                           ghost from: nat, ghost start: Snapshot, ghost ts: int, ghost data: RunData)
    returns (ok: bool)
    requires FreshRun(start, run) && Completed(db.Now(), start, run, ts, data)
    requires Traced(db.trace, from, start, run, ts, data)
    modifies db
    ensures Completed(db.Now(), start, run, ts, data) && Traced(db.trace, from, start, run, ts, data)
    ensures old(db.trace) <= db.trace && db.ids == old(db.ids) && db.keys == old(db.keys)
    ensures ok ==> db.anchors == [Anchor(run, ts)]
    ensures db.faults == old(db.faults) + if ok then 0 else 1
  {
    CompletedState(db.Now(), start, run, ts, data);
    ok := db.DeleteOtherAnchors(run);
    CompletedState(db.Now(), start, run, ts, data);
    TracedAppend(old(db.trace), db.Now(), from, start, run, ts, data);
  }

  /** `delete_old_puuid_timestamps`, retried. */
  method DropOldAnchors(db: Database, run: nat, patience: nat,
                        ghost from: nat, ghost start: Snapshot, ghost ts: int, ghost data: RunData) returns (ok: bool)
    requires FreshRun(start, run) && Completed(db.Now(), start, run, ts, data)
    requires Traced(db.trace, from, start, run, ts, data)
    modifies db
    ensures Completed(db.Now(), start, run, ts, data) && Traced(db.trace, from, start, run, ts, data)
    ensures old(db.trace) <= db.trace && db.ids == old(db.ids) && db.keys == old(db.keys)
    ensures ok ==> db.anchors == [Anchor(run, ts)]
    ensures db.faults >= old(db.faults) + if ok then 0 else patience
  {
    ok := false;
    for attempt := 0 to patience
      invariant db.faults == old(db.faults) + attempt
      invariant Completed(db.Now(), start, run, ts, data) && Traced(db.trace, from, start, run, ts, data)
      invariant old(db.trace) <= db.trace && db.ids == old(db.ids) && db.keys == old(db.keys) && !ok
    {
      ok := TryDropOldAnchors(db, run, from, start, ts, data);
      if ok {
        return;
      }
    }
  }

  // ----- The whole save -----

  datatype Outcome = Done | RolledBack | Killed

  /** The body of the `try` block. */
  method TrySave(db: Database, items: seq<Item>, streamRaises: bool, stops: Check -> bool, fullKeys: seq<PlayerKey>,
                 ts: int, run: nat, batchSize: nat, ghost from: nat, ghost start: Snapshot, ghost data: RunData)
    returns (ok: bool)
    requires data == Expected(items, fullKeys) && start == db.Now() && Writing(db, from, start, run, ts, data)
    modifies db
    ensures Closing(db, from, start, run, ts, data) && old(db.trace) <= db.trace
    ensures ok ==> db.ids == start.ids + IdRows(run, data.pairs) && db.keys == start.keys + KeyRows(run, data.keys)
    ensures ok ==> db.anchors == start.anchors + [Anchor(run, ts)]
    ensures old(db.faults) <= db.faults && (ok <==> !Broken(items, streamRaises, stops) && db.faults == old(db.faults))
  {
    var failed;
    ok, failed := StreamIds(db, items, streamRaises, stops, run, batchSize, from, start, ts, data);
    if !ok {
      return;
    }
    var successful := Filter(fullKeys, NotIn(failed));
    ok := WriteKeys(db, successful, run, batchSize, from, start, ts, data);
    if !ok {
      return;
    }
    ghost var before := db.trace;
    WrittenHolds(db.Now(), start, run, data);
    ok := db.InsertAnchor(Anchor(run, ts));
    AnchoringPending(db.Now(), start, run, ts, data);
    TracedAppend(before, db.Now(), from, start, run, ts, data);
  }

  /**
   * `MatchIDSaver.save`. A completed cycle stores exactly the deduplicated match ids and the successful
   * keys and leaves exactly its own anchor; a failed one leaves the database as it was; and in every
   * recorded state the cycle can be undone or is committed (`CycleStateSound`, `NewestAnchor`). It completes
   * whenever the crawl does not raise, no stop is requested and no command fails; the retried deletes only give up
   * with the process, after `patience` failures.
   */
  method Save(db: Database, items: seq<Item>, streamRaises: bool, stops: Check -> bool, fullKeys: seq<PlayerKey>,
              ts: int, run: nat, batchSize: nat, patience: nat)
    returns (outcome: Outcome)
    requires FreshRun(db.Now(), run)
    modifies db
    ensures old(db.trace) <= db.trace
    ensures Traced(db.trace, |old(db.trace)|, old(db.Now()), run, ts, Expected(items, fullKeys))
    ensures outcome.Done? ==>
      && db.ids == old(db.ids) + IdRows(run, Expected(items, fullKeys).pairs)
      && db.keys == old(db.keys) + KeyRows(run, Expected(items, fullKeys).keys)
      && db.anchors == [Anchor(run, ts)]
    ensures outcome.RolledBack? ==> db.Now() == old(db.Now())
    ensures CycleState(db.Now(), old(db.Now()), run, ts, Expected(items, fullKeys))
    ensures old(db.faults) <= db.faults && (outcome.Done? ==> !Broken(items, streamRaises, stops))
    ensures outcome.RolledBack? ==> Broken(items, streamRaises, stops) || old(db.faults) < db.faults
    ensures outcome.Killed? ==> old(db.faults) + patience <= db.faults
  {
    ghost var from, start, data := |db.trace|, db.Now(), Expected(items, fullKeys);
    GrowingPending(start, start, run, ts, data);
    var ok := TrySave(db, items, streamRaises, stops, fullKeys, ts, run, batchSize, from, start, data);
    if ok {
      WrittenHolds(db.Now(), start, run, data);
      ok := DropOldAnchors(db, run, patience, from, start, ts, data);
      CompletedState(db.Now(), start, run, ts, data);
      return if ok then Done else Killed;
    }
    AnchoringPending(db.Now(), start, run, ts, data);
    ok := UndoAnchor(db, run, patience, from, start, ts, data);
    AnchoringPending(db.Now(), start, run, ts, data);
    if ok {
      ok := UndoKeys(db, run, patience, from, start, ts, data);
      GrowingPending(db.Now(), start, run, ts, data);
    }
    if ok {
      ok := UndoIds(db, run, patience, from, start, ts, data);
      GrowingPending(db.Now(), start, run, ts, data);
    }
    outcome := if ok then RolledBack else Killed;
  }
}
