/** `MatchDataSaver.save`: persist what arrived, delete the rows of failed ids, finish the others, or roll back. */
module MatchSave {
  import opened CombineStreams
  import opened Deduping
  import opened MatchSaver
  import opened MatchStore
  import opened Results
  import opened Sequences

  // ----- Which ids of a batch are complete -----

  ghost predicate Delivered(items: seq<Item>, id: string, stream: Stream) {
    id != UNKNOWN_ID && exists item :: item in items && item.stream == stream && item.raw.matchId == id
  }

  /** Both streams delivered a document of this match. */
  ghost predicate Complete(items: seq<Item>, id: string) {
    Delivered(items, id, NonTimeline) && Delivered(items, id, Timeline)
  }

  ghost function CompleteIn(items: seq<Item>): string -> bool { (id: string) => Complete(items, id) }

  ghost function IncompleteIn(items: seq<Item>): string -> bool { (id: string) => !Complete(items, id) }

  ghost function Successful(batch: seq<string>, items: seq<Item>): seq<string> {
    Filter(batch, CompleteIn(items))
  }

  ghost function Failed(batch: seq<string>, items: seq<Item>): seq<string> {
    Filter(batch, IncompleteIn(items))
  }

  lemma BatchSplit(batch: seq<string>, items: seq<Item>, id: string)
    ensures id in Successful(batch, items) <==> id in batch && Complete(items, id)
    ensures id in Failed(batch, items) <==> id in batch && !Complete(items, id)
  {
    FilterMembers(batch, CompleteIn(items), id);
    FilterMembers(batch, IncompleteIn(items), id);
  }

  /** `stream_successes` holds exactly the streams delivered per match id. */
  ghost predicate Tracks(successes: map<string, set<Stream>>, items: seq<Item>) {
    forall id, stream :: (id in successes && stream in successes[id]) <==> Delivered(items, id, stream)
  }

  lemma TrackItem(successes: map<string, set<Stream>>, successes': map<string, set<Stream>>, items: seq<Item>,
                  item: Item)
    requires Tracks(successes, items)
    requires
      var id := item.raw.matchId;
      successes' == if id == UNKNOWN_ID then successes
                    else successes[id := (if id in successes then successes[id] else {}) + {item.stream}]
    ensures Tracks(successes', items + [item])
  {
    forall id, stream
      ensures (id in successes' && stream in successes'[id]) <==> Delivered(items + [item], id, stream)
    {
      assert Delivered(items + [item], id, stream) <==>
        Delivered(items, id, stream) || (id != UNKNOWN_ID && item.stream == stream && item.raw.matchId == id) by {
        assert forall x :: x in items + [item] <==> x in items || x == item;
      }
    }
  }

  /** No document made its parser raise. */
  ghost predicate AllParsed(items: seq<Item>) {
    forall item <- items :: item.raw.tables.Some?
  }

  /** The state of the loop of `save` after the documents `items`. */
  ghost predicate Receiving(store: Store, buffers: Buffers, successes: map<string, set<Stream>>, items: seq<Item>,
                            run: nat, start: Snapshot, faults: nat, batchSize: nat)
    reads store, buffers
  {
    && faults <= store.faults && Small(buffers.rows, batchSize)
    && Tracks(successes, items)
    && Consistent(store.tables, buffers.rows, start.tables, ProducedBy(items), run, store.faults == faults)
    && AllParsed(items)
  }

  /** One document: note its stream, buffer its rows, and flush everything when the interval has elapsed. */
  method ReceiveOne(store: Store, buffers: Buffers, successes: map<string, set<Stream>>, item: Item,
                    stopRequested: bool, run: nat, batchSize: nat, ghost items: seq<Item>, ghost from: nat,
                    ghost start: Snapshot, ghost faults: nat)
    returns (ok: bool, successes': map<string, set<Stream>>)
    requires batchSize > 0 && store.Valid() && Guarded(store, from, start, run)
    requires Receiving(store, buffers, successes, items, run, start, faults, batchSize)
    modifies store, buffers
    ensures store.Valid() && Guarded(store, from, start, run) && old(store.trace) <= store.trace
    ensures faults <= store.faults
    ensures ok ==> !stopRequested
    ensures ok ==> Receiving(store, buffers, successes', items + [item], run, start, faults, batchSize)
    ensures ok || stopRequested || item.raw.tables.None? || faults + MAX_ATTEMPTS <= store.faults
  {
    successes' := successes;
    if stopRequested || item.raw.tables.None? {
      return false, successes';
    }
    var id := item.raw.matchId;
    if id != UNKNOWN_ID {
      successes' := successes[id := (if id in successes then successes[id] else {}) + {item.stream}];
    }
    TrackItem(successes, successes', items, item);
    ok := BufferInserts(store, buffers, item, run, batchSize, from, start, items, faults);
    if !ok {
      return;
    }
    var intervalElapsed: bool := *;
    if intervalElapsed {
      ok := FlushAll(store, buffers, run, batchSize, from, start, ProducedBy(items + [item]), faults);
      if ok {
        NothingPendingIsSmall(buffers.rows, batchSize);
      }
    }
  }

  /** The stop flag is seen up at one of the first `n` documents. */
  ghost predicate Stopped(stops: nat -> bool, n: nat) {
    exists i | 0 <= i < n :: stops(i)
  }

  /** Why a save may fail: a stream raises, a document does not parse, or a stop is requested. */
  ghost predicate Broken(items: seq<Item>, streamRaises: bool, stops: nat -> bool) {
    streamRaises || !AllParsed(items) || Stopped(stops, |items|)
  }

  /**
   * The loop over the stream of documents, up to and including the last flush. It comes through exactly if nothing
   * is broken, unless at least eight commands report an error.
   */
  method Receive(store: Store, items: seq<Item>, streamRaises: bool, stops: nat -> bool, run: nat, batchSize: nat,
                 ghost from: nat, ghost start: Snapshot)
    returns (ok: bool, successes: map<string, set<Stream>>)
    requires batchSize > 0 && store.Valid() && Guarded(store, from, start, run)
    requires store.tables == start.tables
    modifies store
    ensures store.Valid() && Guarded(store, from, start, run) && old(store.trace) <= store.trace
    ensures old(store.faults) <= store.faults
    ensures ok ==> Tracks(successes, items)
    ensures ok ==>
              Consistent(store.tables, map[], start.tables, ProducedBy(items), run, store.faults == old(store.faults))
    ensures ok ==> !Broken(items, streamRaises, stops)
    ensures ok || Broken(items, streamRaises, stops) || old(store.faults) + MAX_ATTEMPTS <= store.faults
  {
    var buffers := new Buffers();
    successes := map[];
    ghost var faults := store.faults;
    StartConsistent(start.tables, run);
    for i := 0 to |items|
      invariant store.Valid() && Guarded(store, from, start, run) && old(store.trace) <= store.trace
      invariant Receiving(store, buffers, successes, items[..i], run, start, faults, batchSize)
      invariant !Stopped(stops, i)
    {
      assert items[..i + 1] == items[..i] + [items[i]];
      var stopRequested := stops(i);
      ok, successes := ReceiveOne(store, buffers, successes, items[i], stopRequested, run, batchSize, items[..i], from,
                                  start, faults);
      if !ok {
        assert stopRequested ==> Stopped(stops, |items|);
        return;
      }
    }
    if streamRaises {
      return false, successes;
    }
    assert items[..|items|] == items;
    ok := FlushAll(store, buffers, run, batchSize, from, start, ProducedBy(items), faults);
    if ok {
      FlushedConsistent(store.tables, buffers.rows, start.tables, ProducedBy(items), run, store.faults == faults);
    }
  }

  lemma FlushedConsistent(tables: map<Table, seq<Row>>, buffers: map<Table, seq<Parsed>>, base: map<Table, seq<Row>>,
                          produced: Table -> seq<Parsed>, run: nat, clean: bool)
    requires Consistent(tables, buffers, base, produced, run, clean) && PendingOnly(buffers, {})
    ensures Consistent(tables, map[], base, produced, run, clean)
  {
    ConsistentCongruent(tables, buffers, map[], base, produced, produced, run, clean);
  }

  lemma StartConsistent(base: map<Table, seq<Row>>, run: nat)
    requires Total(base) && forall t: Table :: WithoutRun(base[t], run) == base[t]
    ensures Consistent(base, map[], base, ProducedBy([]), run, true)
  {
    forall t: Table ensures TableInv(base[t], base[t], [], [], run, true) {
      WithoutRunMembers(base[t], run);
      var none: seq<Parsed> := [];
      assert none == none[0..] && base[t] == base[t] + Stamped(run, none[..0]);
    }
  }

  // ----- Deleting the rows of failed ids -----

  /** What the delete command for `ids` leaves of `rows`. */
  function Purged(rows: seq<Row>, run: nat, ids: seq<string>): seq<Row> {
    WithoutIds(rows, run, Deduped(ids), Deduped(NumericSuffixes(Deduped(ids))))
  }

  lemma PurgedMembers(rows: seq<Row>, run: nat, ids: seq<string>)
    ensures forall r :: r in Purged(rows, run, ids) <==> r in rows && !(r.run == run && Named(r.parsed.mid, ids))
    ensures WithoutRun(Purged(rows, run, ids), run) == WithoutRun(rows, run)
  {
    WithoutIdsMembers(rows, run, Deduped(ids), Deduped(NumericSuffixes(Deduped(ids))));
    forall r: Row { DeleteListsName(ids, r.parsed.mid); }
  }

  lemma PurgedNothing(rows: seq<Row>, run: nat)
    ensures WithoutIds(rows, run, [], []) == rows
  {
    FilterAll(rows, OtherIds(run, [], []));
  }

  lemma WithoutIdsTwice(rows: seq<Row>, run: nat, ids: seq<string>, numericIds: seq<string>)
    ensures WithoutIds(WithoutIds(rows, run, ids, numericIds), run, ids, numericIds)
            == WithoutIds(rows, run, ids, numericIds)
  {
    FilterTwice(rows, OtherIds(run, ids, numericIds), OtherIds(run, ids, numericIds));
  }

  /** One delete command for the failed ids. */
  method TryDeleteIds(store: Store, t: Table, run: nat, ids: seq<string>, numericIds: seq<string>,
                      ghost from: nat, ghost start: Snapshot)
    returns (ok: bool)
    requires store.Valid() && Guarded(store, from, start, run)
    modifies store
    ensures store.Valid() && Guarded(store, from, start, run) && old(store.trace) <= store.trace
    ensures SameExcept(old(store.tables), store.tables, t)
    ensures || store.tables[t] == WithoutIds(old(store.tables[t]), run, ids, numericIds)
            || (!ok && store.tables[t] == old(store.tables[t]))
    ensures store.faults == old(store.faults) + if ok then 0 else 1
  {
    ghost var before := store.Now();
    WithoutIdsMembers(store.tables[t], run, ids, numericIds);
    ok := store.DeleteIds(t, run, ids, numericIds);
    OneTableHarmless(before, store.Now(), t, start, run);
    GuardedAfter(store.trace, old(store.trace), store.Now(), from, start, run);
  }

  /** `delete_by_run_id_and_matchids` under the retry decorator. */
  method DeleteFailedFrom(store: Store, t: Table, run: nat, matchIds: seq<string>,
                          ghost from: nat, ghost start: Snapshot)
    returns (ok: bool)
    requires store.Valid() && Guarded(store, from, start, run)
    modifies store
    ensures store.Valid() && Guarded(store, from, start, run) && old(store.trace) <= store.trace
    ensures SameExcept(old(store.tables), store.tables, t)
    ensures ok ==> store.tables[t] == Purged(old(store.tables[t]), run, matchIds)
    ensures store.faults >= old(store.faults) + if ok then 0 else MAX_ATTEMPTS
  {
    var ids := Dedupe(matchIds);
    if ids == [] {
      PurgedNothing(store.tables[t], run);
      return true;
    }
    var numericIds := ExtractNumeric(ids);
    WithoutIdsTwice(store.tables[t], run, ids, numericIds);
    ok := false;
    for attempt := 0 to MAX_ATTEMPTS
      invariant store.Valid() && Guarded(store, from, start, run) && old(store.trace) <= store.trace
      invariant SameExcept(old(store.tables), store.tables, t)
      invariant || store.tables[t] == old(store.tables[t])
                || store.tables[t] == WithoutIds(old(store.tables[t]), run, ids, numericIds)
      invariant store.faults == old(store.faults) + attempt && !ok
    {
      ok := TryDeleteIds(store, t, run, ids, numericIds, from, start);
      if ok {
        return;
      }
    }
  }

  /** The tables of `list` have been purged of the ids' rows, the others have not changed. */
  ghost predicate PurgedIn(before: map<Table, seq<Row>>, after: map<Table, seq<Row>>, list: seq<Table>,
                           run: nat, ids: seq<string>)
  {
    && Total(before) && Total(after)
    && forall t: Table :: after[t] == if t in list then Purged(before[t], run, ids) else before[t]
  }

  /** `_run_deletes_for_matchids` over one delete list. */
  method DeleteFailedFromAll(store: Store, list: seq<Table>, run: nat, matchIds: seq<string>,
                             ghost from: nat, ghost start: Snapshot)
    returns (ok: bool)
    requires store.Valid() && Guarded(store, from, start, run) && Distinct(list)
    modifies store
    ensures store.Valid() && Guarded(store, from, start, run) && old(store.trace) <= store.trace
    ensures store.faults >= old(store.faults) + if ok then 0 else MAX_ATTEMPTS
    ensures ok ==> PurgedIn(old(store.tables), store.tables, list, run, matchIds)
  {
    ok := true;
    for i := 0 to |list|
      invariant store.Valid() && Guarded(store, from, start, run) && old(store.trace) <= store.trace
      invariant old(store.faults) <= store.faults
      invariant PurgedIn(old(store.tables), store.tables, list[..i], run, matchIds)
      invariant ok
    {
      ok := DeleteFailedFrom(store, list[i], run, matchIds, from, start);
      if !ok {
        return;
      }
    }
    assert list[..|list|] == list;
  }

  lemma DeletesDistinct()
    ensures Distinct(NON_TIMELINE_DELETES) && Distinct(TIMELINE_DELETES)
    ensures forall t: Table :: !(t in NON_TIMELINE_DELETES && t in TIMELINE_DELETES)
  {
    assert NON_TIMELINE_DELETES == NON_TIMELINE_INSERTS && TIMELINE_DELETES == TIMELINE_INSERTS;
    InsertsDistinct(NonTimeline);
    InsertsDistinct(Timeline);
  }

  lemma PurgedTwice(before: map<Table, seq<Row>>, between: map<Table, seq<Row>>, after: map<Table, seq<Row>>,
                    run: nat, ids: seq<string>)
    requires PurgedIn(before, between, NON_TIMELINE_DELETES, run, ids)
    requires PurgedIn(between, after, TIMELINE_DELETES, run, ids)
    ensures forall t: Table :: after[t] == Purged(before[t], run, ids)
  {
    DeletesDistinct();
    forall t: Table ensures after[t] == Purged(before[t], run, ids) {
      DeletesCoverAll(t);
    }
  }

  /** `delete_failed_matchids`: all nineteen tables. */
  method DeleteFailed(store: Store, run: nat, matchIds: seq<string>,
                      ghost from: nat, ghost start: Snapshot)
    returns (ok: bool)
    requires store.Valid() && Guarded(store, from, start, run)
    modifies store
    ensures store.Valid() && Guarded(store, from, start, run) && old(store.trace) <= store.trace
    ensures store.faults >= old(store.faults) + if ok then 0 else MAX_ATTEMPTS
    ensures ok ==> forall t: Table :: store.tables[t] == Purged(old(store.tables[t]), run, matchIds)
  {
    DeletesDistinct();
    ghost var before := store.tables;
    ok := DeleteFailedFromAll(store, NON_TIMELINE_DELETES, run, matchIds, from, start);
    if !ok {
      return;
    }
    ghost var between := store.tables;
    ok := DeleteFailedFromAll(store, TIMELINE_DELETES, run, matchIds, from, start);
    if ok {
      PurgedTwice(before, between, store.tables, run, matchIds);
    }
  }

  // ----- Rolling a run back -----

  /** `_run_deletes` over one delete list. */
  method RollbackTables(store: Store, list: seq<Table>, run: nat,
                        ghost from: nat, ghost start: Snapshot)
    returns (ok: bool)
    requires store.Valid() && Guarded(store, from, start, run)
    modifies store
    ensures store.Valid() && Guarded(store, from, start, run) && old(store.trace) <= store.trace
    ensures ok ==> forall t <- list :: store.tables[t] == start.tables[t]
    ensures forall t: Table :: old(store.tables[t]) == start.tables[t] ==> store.tables[t] == start.tables[t]
    ensures store.faults >= old(store.faults) + if ok then 0 else MAX_ATTEMPTS
  {
    ok := true;
    for i := 0 to |list|
      invariant store.Valid() && Guarded(store, from, start, run) && old(store.trace) <= store.trace
      invariant forall t <- list[..i] :: store.tables[t] == start.tables[t]
      invariant forall t: Table :: old(store.tables[t]) == start.tables[t] ==> store.tables[t] == start.tables[t]
      invariant ok && old(store.faults) <= store.faults
    {
      assert list[..i + 1] == list[..i] + [list[i]];
      ok := RollbackTable(store, list[i], run, from, start);
      if !ok {
        return;
      }
    }
  }

  lemma WithoutRunTwice(rows: seq<Row>, run: nat)
    ensures WithoutRun(WithoutRun(rows, run), run) == WithoutRun(rows, run)
  {
    FilterTwice(rows, OtherRuns(run), OtherRuns(run));
  }

  /** One delete command for the whole run. */
  method TryDeleteRun(store: Store, t: Table, run: nat,
                      ghost from: nat, ghost start: Snapshot)
    returns (ok: bool)
    requires store.Valid() && Guarded(store, from, start, run)
    modifies store
    ensures store.Valid() && Guarded(store, from, start, run) && old(store.trace) <= store.trace
    ensures SameExcept(old(store.tables), store.tables, t)
    ensures store.tables[t] == start.tables[t] || (!ok && store.tables[t] == old(store.tables[t]))
    ensures store.faults == old(store.faults) + if ok then 0 else 1
  {
    ghost var before := store.Now();
    WithoutRunTwice(store.tables[t], run);
    ok := store.DeleteRun(t, run);
    OneTableHarmless(before, store.Now(), t, start, run);
    GuardedAfter(store.trace, old(store.trace), store.Now(), from, start, run);
  }

  /** `delete_by_run_id` under the retry decorator. */
  method RollbackTable(store: Store, t: Table, run: nat,
                       ghost from: nat, ghost start: Snapshot)
    returns (ok: bool)
    requires store.Valid() && Guarded(store, from, start, run)
    modifies store
    ensures store.Valid() && Guarded(store, from, start, run) && old(store.trace) <= store.trace
    ensures SameExcept(old(store.tables), store.tables, t)
    ensures store.tables[t] == start.tables[t] || (!ok && store.tables[t] == old(store.tables[t]))
    ensures store.faults >= old(store.faults) + if ok then 0 else MAX_ATTEMPTS
  {
    ok := false;
    for attempt := 0 to MAX_ATTEMPTS
      invariant store.faults == old(store.faults) + attempt
      invariant store.Valid() && Guarded(store, from, start, run) && old(store.trace) <= store.trace
      invariant SameExcept(old(store.tables), store.tables, t) && !ok
      invariant store.tables[t] == old(store.tables[t]) || store.tables[t] == start.tables[t]
    {
      ok := TryDeleteRun(store, t, run, from, start);
      if ok {
        return;
      }
    }
  }

  /** `rollback_run`. */
  method Rollback(store: Store, run: nat, ghost from: nat, ghost start: Snapshot)
    returns (ok: bool)
    requires store.Valid() && Guarded(store, from, start, run)
    modifies store
    ensures store.Valid() && Guarded(store, from, start, run) && old(store.trace) <= store.trace
    ensures ok ==> forall t: Table :: store.tables[t] == start.tables[t]
    ensures store.faults >= old(store.faults) + if ok then 0 else MAX_ATTEMPTS
  {
    ok := RollbackTables(store, NON_TIMELINE_DELETES, run, from, start);
    if ok {
      ok := RollbackTables(store, TIMELINE_DELETES, run, from, start);
    }
    forall t: Table { DeletesCoverAll(t); }
  }

  // ----- The whole save -----

  datatype Outcome = Finished | RolledBack | RollbackFailed

  ghost function NamedByNone(ids: seq<string>): Parsed -> bool { (p: Parsed) => !Named(p.mid, ids) }

  /** Rows of failed ids taken out of the parsed rows. */
  ghost function NotNamed(rows: seq<Parsed>, ids: seq<string>): seq<Parsed> {
    Filter(rows, NamedByNone(ids))
  }

  /**
   * One table after a finished save: other runs' rows as before; of this run exactly the parsed rows
   * that no failed id names; and, if no command failed, each of them once and in order.
   */
  ghost predicate TableSaved(base: seq<Row>, stored: seq<Row>, produced: seq<Parsed>, failed: seq<string>,
                             run: nat, clean: bool)
  {
    && WithoutRun(stored, run) == base
    && (forall r <- stored | r.run == run :: r.parsed in produced && !Named(r.parsed.mid, failed))
    && (forall p <- produced | !Named(p.mid, failed) :: Row(run, p) in stored)
    && (clean ==> stored == base + Stamped(run, NotNamed(produced, failed)))
  }

  lemma {:induction false} PurgedStamped(rows: seq<Parsed>, run: nat, ids: seq<string>)
    ensures Purged(Stamped(run, rows), run, ids) == Stamped(run, NotNamed(rows, ids))
  {
    if rows != [] {
      var init, last := rows[..|rows| - 1], rows[|rows| - 1];
      PurgedStamped(init, run, ids);
      assert Stamped(run, rows)[..|rows| - 1] == Stamped(run, init);
      DeleteListsName(ids, last.mid);
    }
  }

  lemma PurgedOthers(rows: seq<Row>, run: nat, ids: seq<string>)
    requires forall r <- rows :: r.run != run
    ensures Purged(rows, run, ids) == rows
  {
    FilterAll(rows, OtherIds(run, Deduped(ids), Deduped(NumericSuffixes(Deduped(ids)))));
  }

  lemma PurgedAll(rows: seq<Row>, run: nat, ids: seq<string>)
    requires forall r <- rows :: r.run == run && Named(r.parsed.mid, ids)
    ensures Purged(rows, run, ids) == []
  {
    var numericIds := Deduped(NumericSuffixes(Deduped(ids)));
    forall r <- rows ensures !OtherIds(run, Deduped(ids), numericIds)(r) {
      DeleteListsName(ids, r.parsed.mid);
    }
    FilterNone(rows, OtherIds(run, Deduped(ids), numericIds));
  }

  lemma PurgeSavesTable(base: seq<Row>, stored: seq<Row>, produced: seq<Parsed>, failed: seq<string>,
                        run: nat, before: bool, clean: bool)
    requires TableInv(base, stored, [], produced, run, before) && (clean ==> before)
    ensures TableSaved(base, Purged(stored, run, failed), produced, failed, run, clean)
  {
    PurgedMembers(stored, run, failed);
    if clean {
      var none: seq<Parsed> := [];
      var n :| 0 <= n <= |produced| && none == produced[n..] && stored == base + Stamped(run, produced[..n]);
      assert produced[..n] == produced;
      FilterConcat(base, Stamped(run, produced),
                   OtherIds(run, Deduped(failed), Deduped(NumericSuffixes(Deduped(failed)))));
      WithoutRunMembers(stored, run);
      PurgedOthers(base, run, failed);
      PurgedStamped(produced, run, failed);
    }
  }

  lemma PurgedByNobody(rows: seq<Row>, run: nat)
    ensures Purged(rows, run, []) == rows
  {
    PurgedNothing(rows, run);
  }

  /** Every document was parsed, and every table holds what it should. */
  ghost predicate Saved(base: map<Table, seq<Row>>, tables: map<Table, seq<Row>>, items: seq<Item>, failed: seq<string>,
                        run: nat, clean: bool)
  {
    && Total(base) && Total(tables) && AllParsed(items)
    && forall t: Table :: TableSaved(base[t], tables[t], Produced(items, t), failed, run, clean)
  }

  lemma PurgeSaves(base: map<Table, seq<Row>>, tables: map<Table, seq<Row>>, tables': map<Table, seq<Row>>,
                   items: seq<Item>, failed: seq<string>, run: nat, before: bool, clean: bool)
    requires Consistent(tables, map[], base, ProducedBy(items), run, before) && (clean ==> before)
    requires AllParsed(items)
    requires Total(tables') && forall t: Table :: tables'[t] == Purged(tables[t], run, failed)
    ensures Saved(base, tables', items, failed, run, clean)
  {
    forall t: Table ensures TableSaved(base[t], tables'[t], Produced(items, t), failed, run, clean) {
      PurgeSavesTable(base[t], tables[t], Produced(items, t), failed, run, before, clean);
    }
  }

  lemma BothStreams(streams: set<Stream>)
    requires NonTimeline in streams && Timeline in streams
    ensures streams == {NonTimeline, Timeline}
  {
    forall stream | stream in streams ensures stream in {NonTimeline, Timeline} {
      match stream
      case NonTimeline =>
      case Timeline =>
    }
  }

  /** The two list comprehensions that sort a batch by `stream_successes`. */
  method SplitBatch(batch: seq<string>, successes: map<string, set<Stream>>, ghost items: seq<Item>)
    returns (successful: seq<string>, failed: seq<string>)
    requires Tracks(successes, items)
    ensures successful == Successful(batch, items) && failed == Failed(batch, items)
  {
    successful, failed := [], [];
    for i := 0 to |batch|
      invariant successful == Successful(batch[..i], items) && failed == Failed(batch[..i], items)
    {
      var id := batch[i];
      assert batch[..i + 1][..i] == batch[..i];
      if id in successes && successes[id] == {NonTimeline, Timeline} {
        assert Complete(items, id);
        successful := successful + [id];
      } else {
        assert !Complete(items, id) by {
          if Complete(items, id) {
            BothStreams(successes[id]);
          }
        }
        failed := failed + [id];
      }
    }
    assert batch[..|batch|] == batch;
  }

  /** `start` with the queue as it is `now`. */
  ghost function WithQueueOf(start: Snapshot, now: Snapshot): Snapshot {
    start.(queue := now.queue, torn := now.torn)
  }

  /**
   * While finished ids are being removed: nothing has happened yet, or a removal has taken effect although
   * it reported an error.
   */
  ghost predicate Removing(store: Store, ids: seq<string>, from: nat, start: Snapshot, run: nat)
    reads store
  {
    if store.torn == start.torn then Guarded(store, from, start, run)
    else
      && store.torn > start.torn && store.queue == WithoutQueued(start.queue, ids)
      && Harmless(store.Now(), WithQueueOf(start, store.Now()), run)
      && RemovalTraced(store.trace, from, store.Now(), start, run)
  }

  /** Every recorded state is harmless or, but for `torn`, the present one. */
  ghost predicate RemovalTraced(trace: seq<Snapshot>, from: nat, now: Snapshot, start: Snapshot, run: nat) {
    from <= |trace| && forall k | from <= k < |trace| ::
      Harmless(trace[k], start, run) || trace[k] == now.(torn := trace[k].torn)
  }

  /** One removal command for the finished ids. */
  method TryRemoveQueued(store: Store, ids: seq<string>, ghost from: nat, ghost start: Snapshot, ghost run: nat)
    returns (ok: bool)
    requires store.Valid() && Removing(store, ids, from, start, run)
    modifies store
    ensures store.Valid() && old(store.trace) <= store.trace
    ensures store.Now() == old(store.Now()).(queue := store.queue, torn := store.torn)
    ensures store.faults == old(store.faults) + (if ok then 0 else 1) && start.torn <= store.torn
    ensures ok ==> store.queue == WithoutQueued(start.queue, ids)
    ensures ok ==> RemovalTraced(store.trace, from, store.Now(), start, run)
    ensures !ok ==> Removing(store, ids, from, start, run)
  {
    FilterTwice(start.queue, NoneOf(ids), NoneOf(ids));
    ok := store.RemoveQueued(ids);
  }

  /** `mark_matchids_finished` under the retry decorator. */
  method MarkFinished(store: Store, matchIds: seq<string>, ghost from: nat, ghost start: Snapshot, ghost run: nat)
    returns (ok: bool)
    requires store.Valid() && Guarded(store, from, start, run)
    modifies store
    ensures store.Valid() && old(store.trace) <= store.trace
    ensures store.Now() == old(store.Now()).(queue := store.queue, torn := store.torn)
    ensures store.faults >= old(store.faults) + (if ok then 0 else MAX_ATTEMPTS) && start.torn <= store.torn
    ensures ok ==> store.queue == WithoutQueued(start.queue, Deduped(matchIds))
    ensures ok ==> RemovalTraced(store.trace, from, store.Now(), start, run)
    ensures !ok ==> Removing(store, Deduped(matchIds), from, start, run)
  {
    var ids := Dedupe(matchIds);
    if ids == [] {
      FilterAll(start.queue, NoneOf([]));
      return true;
    }
    ok := false;
    for attempt := 0 to MAX_ATTEMPTS
      invariant store.Valid() && old(store.trace) <= store.trace
      invariant store.Now() == old(store.Now()).(queue := store.queue, torn := store.torn)
      invariant Removing(store, ids, from, start, run)
      invariant store.faults == old(store.faults) + attempt && !ok
    {
      ok := TryRemoveQueued(store, ids, from, start, run);
      if ok {
        return;
      }
    }
  }

  /** The body of the `try` block. */
  method TrySave(store: Store, items: seq<Item>, streamRaises: bool, stops: nat -> bool, batch: seq<string>, run: nat,
                 batchSize: nat)
    returns (ok: bool)
    requires batchSize > 0 && store.Valid()
    requires forall t: Table :: WithoutRun(store.tables[t], run) == store.tables[t]
    modifies store
    ensures store.Valid() && old(store.trace) <= store.trace
    ensures store.seeded == old(store.seeded) && store.seedAnchor == old(store.seedAnchor)
    ensures old(store.torn) <= store.torn && old(store.faults) <= store.faults
    ensures ok ==> !Broken(items, streamRaises, stops)
    ensures ok || Broken(items, streamRaises, stops) || old(store.faults) + MAX_ATTEMPTS <= store.faults
    ensures !ok ==> Removing(store, Deduped(Successful(batch, items)), |old(store.trace)|, old(store.Now()), run)
    ensures ok ==>
              Saved(old(store.tables), store.tables, items, Failed(batch, items), run,
                    store.faults == old(store.faults))
    ensures ok ==> store.queue == WithoutQueued(old(store.queue), Deduped(Successful(batch, items)))
    ensures ok ==> RemovalTraced(store.trace, |old(store.trace)|, store.Now(), old(store.Now()), run)
  {
    ghost var from, start, faults := |store.trace|, store.Now(), store.faults;
    var successes;
    ok, successes := Receive(store, items, streamRaises, stops, run, batchSize, from, start);
    if !ok {
      return;
    }
    var successful, failed := SplitBatch(batch, successes, items);
    ghost var received, before := store.tables, store.faults == faults;
    if failed != [] {
      ok := DeleteFailed(store, run, failed, from, start);
      if !ok {
        return;
      }
    } else {
      forall t: Table { PurgedByNobody(received[t], run); }
    }
    ok := MarkFinished(store, successful, from, start, run);
    if ok {
      PurgeSaves(start.tables, received, store.tables, items, failed, run, before, store.faults == faults);
    }
  }

  /**
   * What a save that ends with `outcome` leaves behind, seen from the state `start` it began in. A finished
   * save has taken exactly the complete ids off the queue and keeps exactly the rows that no failed id
   * names; any other save has left the queue and all other runs' rows as they were, unless a removal took
   * effect although it reported an error; and a rolled-back one has no row left.
   */
  ghost predicate SaveEnded(start: Snapshot, now: Snapshot, outcome: Outcome, items: seq<Item>, batch: seq<string>,
                            run: nat, clean: bool)
  {
    var remaining := WithoutQueued(start.queue, Deduped(Successful(batch, items)));
    && now.seeded == start.seeded && now.seedAnchor == start.seedAnchor && start.torn <= now.torn
    && if outcome.Finished? then
         Saved(start.tables, now.tables, items, Failed(batch, items), run, clean) && now.queue == remaining
       else
         && Harmless(now, WithQueueOf(start, now), run)
         && now.queue == (if start.torn < now.torn then remaining else start.queue)
         && (outcome.RolledBack? ==> forall t: Table :: now.tables[t] == start.tables[t])
  }

  /** The states recorded during a save; a finished one shows its result at once. */
  ghost predicate SaveTraced(trace: seq<Snapshot>, from: nat, start: Snapshot, now: Snapshot, outcome: Outcome,
                             run: nat)
  {
    from <= |trace| && forall k | from <= k < |trace| ::
      || Harmless(trace[k], start, run)
      || (if outcome.Finished? then trace[k] == now.(torn := trace[k].torn)
          else start.torn < now.torn && Harmless(trace[k], WithQueueOf(start, now).(torn := trace[k].torn), run))
  }

  /**
   * `save`, for a batch that is not empty; otherwise it does nothing. It finishes exactly if no stream raises, every
   * document parses and no stop is requested, unless some command, tried eight times, fails each time.
   */
  method Save(store: Store, items: seq<Item>, streamRaises: bool, stops: nat -> bool, batch: seq<string>, run: nat,
              batchSize: nat)
    returns (outcome: Outcome)
    requires batchSize > 0 && store.Valid()
    requires forall t: Table :: WithoutRun(store.tables[t], run) == store.tables[t]
    modifies store
    ensures store.Valid() && old(store.trace) <= store.trace
    ensures batch == [] ==> outcome.Finished? && store.Now() == old(store.Now()) && store.trace == old(store.trace)
    ensures batch != [] ==>
      SaveEnded(old(store.Now()), store.Now(), outcome, items, batch, run, store.faults == old(store.faults))
    ensures SaveTraced(store.trace, |old(store.trace)|, old(store.Now()), store.Now(), outcome, run)
    ensures old(store.faults) <= store.faults
    ensures batch != [] && outcome.Finished? ==> !Broken(items, streamRaises, stops)
    ensures !outcome.Finished? ==> Broken(items, streamRaises, stops) || old(store.faults) + 8 <= store.faults
    ensures outcome.RollbackFailed? ==> old(store.faults) + 8 <= store.faults
  {
    if batch == [] {
      return Finished;
    }
    ghost var from, start := |store.trace|, store.Now();
    var ok := TrySave(store, items, streamRaises, stops, batch, run, batchSize);
    if ok {
      return Finished;
    }
    ghost var torn, reached := store.Now(), |store.trace|;
    ok := Rollback(store, run, reached, WithQueueOf(start, torn));
    outcome := if ok then RolledBack else RollbackFailed;
  }
}
