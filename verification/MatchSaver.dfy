/** Saving one batch of match data: `MatchDataSaver` (matchdata_orchestrator.py) with `persist_data`. */
module MatchSaver {
  import opened CombineStreams
  import opened Deduping
  import opened MatchStore
  import opened Results
  import opened Sequences

  /** Attempts made by the retry decorators. */
  const MAX_ATTEMPTS: nat := 8

  const UNKNOWN_ID := "unknown"

  /** A fetched document: the match id found in it, and what its parser makes of it (`None`: it raises). */
  datatype Payload = Payload(matchId: string, tables: Option<map<Table, seq<Parsed>>>)

  type Item = StreamItem<Payload>

  function RowsFor(item: Item, t: Table): seq<Parsed> {
    if t in InsertsOf(item.stream) && item.raw.tables.Some? && t in item.raw.tables.value
    then item.raw.tables.value[t] else []
  }

  /** All rows of table `t` parsed from `items`, in order. */
  function Produced(items: seq<Item>, t: Table): seq<Parsed> {
    if items == [] then [] else Produced(items[..|items| - 1], t) + RowsFor(items[|items| - 1], t)
  }

  /** A parsed document has a row for a table: the table belongs to its stream, and its parser put the row there. */
  predicate HasRow(item: Item, t: Table, p: Parsed) {
    && (IsTimelineTable(t) <==> item.stream.Timeline?)
    && item.raw.tables.Some? && t in item.raw.tables.value && p in item.raw.tables.value[t]
  }

  /** The rows produced for a table are exactly those that one of the documents has for it. */
  lemma {:induction false} ProducedExactly(items: seq<Item>, t: Table, p: Parsed)
    ensures p in Produced(items, t) <==> exists item :: item in items && HasRow(item, t, p)
  {
    if items != [] {
      var init, last := items[..|items| - 1], items[|items| - 1];
      SplitLast(items);
      ProducedExactly(init, t, p);
      InsertsExactly(last.stream, t);
      assert p in RowsFor(last, t) <==> HasRow(last, t, p);
      assert forall item :: item in items <==> item in init || item == last;
    }
  }

  // ----- Batched inserts -----

  /** Nothing but rows of `run` has changed in `snap`. */
  ghost predicate Harmless(snap: Snapshot, start: Snapshot, run: nat) {
    && Total(snap.tables) && Total(start.tables)
    && snap.(tables := start.tables) == start
    && forall t: Table :: WithoutRun(snap.tables[t], run) == start.tables[t]
  }

  /** The database, now and after every command since position `from` of the trace, is harmless. */
  ghost predicate Guarded(store: Store, from: nat, start: Snapshot, run: nat)
    reads store
  {
    && Harmless(store.Now(), start, run)
    && from <= |store.trace|
    && forall k | from <= k < |store.trace| :: Harmless(store.trace[k], start, run)
  }

  ghost predicate SameExcept(before: map<Table, seq<Row>>, after: map<Table, seq<Row>>, t: Table) {
    Total(before) && Total(after) && forall u: Table | u != t :: after[u] == before[u]
  }

  lemma AppendHarmless(rows: seq<Row>, run: nat, added: seq<Parsed>)
    ensures WithoutRun(rows + Stamped(run, added), run) == WithoutRun(rows, run)
  {
    FilterConcat(rows, Stamped(run, added), OtherRuns(run));
    FilterNone(Stamped(run, added), OtherRuns(run));
  }

  /** A command that changes one table, and of it only rows of `run`, is harmless. */
  lemma OneTableHarmless(before: Snapshot, now: Snapshot, t: Table, start: Snapshot, run: nat)
    requires Harmless(before, start, run) && now == before.(tables := now.tables)
    requires SameExcept(before.tables, now.tables, t) && WithoutRun(now.tables[t], run) == start.tables[t]
    ensures Harmless(now, start, run)
  {
    forall u: Table ensures WithoutRun(now.tables[u], run) == start.tables[u] {
      assert u != t ==> now.tables[u] == before.tables[u];
    }
  }

  /** A command that was harmless leaves the database guarded. */
  lemma GuardedAfter(trace: seq<Snapshot>, before: seq<Snapshot>, now: Snapshot,
                     from: nat, start: Snapshot, run: nat)
    requires from <= |before| && forall k | from <= k < |before| :: Harmless(before[k], start, run)
    requires trace == before + [now] && Harmless(now, start, run)
    ensures forall k | from <= k < |trace| :: Harmless(trace[k], start, run)
    ensures before <= trace
  {
  }

  /** One insert command with rows of `run`. */
  method InsertBatch(store: Store, t: Table, rows: seq<Parsed>, run: nat,
                     ghost from: nat, ghost start: Snapshot)
    returns (ok: bool)
    requires store.Valid() && Guarded(store, from, start, run)
    modifies store
    ensures store.Valid() && Guarded(store, from, start, run) && old(store.trace) <= store.trace
    ensures SameExcept(old(store.tables), store.tables, t)
    ensures || store.tables[t] == old(store.tables[t]) + Stamped(run, rows)
            || (!ok && store.tables[t] == old(store.tables[t]))
    ensures store.faults == old(store.faults) + if ok then 0 else 1
  {
    ghost var before := store.Now();
    AppendHarmless(store.tables[t], run, rows);
    ok := store.Insert(t, Stamped(run, rows));
    OneTableHarmless(before, store.Now(), t, start, run);
    GuardedAfter(store.trace, old(store.trace), store.Now(), from, start, run);
  }

  lemma StampedPrefix(rows: seq<Row>, run: nat, items: seq<Parsed>, i: nat, j: nat)
    requires i <= j <= |items|
    ensures rows + Stamped(run, items[..i]) + Stamped(run, items[i..j]) == rows + Stamped(run, items[..j])
  {
    assert Stamped(run, items[..i]) + Stamped(run, items[i..j]) == Stamped(run, items[..j]);
  }

  /** `persist_data` with `insert_rows_in_batches`: stamp the rows and insert them batch by batch. */
  method PersistData(store: Store, t: Table, items: seq<Parsed>, run: nat, batchSize: nat,
                     ghost from: nat, ghost start: Snapshot)
    returns (ok: bool, ghost added: seq<Row>)
    requires batchSize > 0 && store.Valid() && Guarded(store, from, start, run)
    modifies store
    ensures store.Valid() && Guarded(store, from, start, run) && old(store.trace) <= store.trace
    ensures SameExcept(old(store.tables), store.tables, t)
    ensures store.tables[t] == old(store.tables[t]) + added
    ensures exists n | 0 <= n <= |items| :: added == Stamped(run, items[..n])
    ensures ok ==> added == Stamped(run, items)
    ensures store.faults == old(store.faults) + if ok then 0 else 1
  {
    var i := 0;
    ghost var rows := store.tables[t];
    assert rows + Stamped(run, items[..0]) == rows;
    while i < |items|
      invariant store.Valid() && Guarded(store, from, start, run) && old(store.trace) <= store.trace
      invariant i <= |items| && store.faults == old(store.faults)
      invariant SameExcept(old(store.tables), store.tables, t)
      invariant store.tables[t] == rows + Stamped(run, items[..i])
    {
      var next := if i + batchSize <= |items| then i + batchSize else |items|;
      StampedPrefix(rows, run, items, i, next);
      ok := InsertBatch(store, t, items[i..next], run, from, start);
      if !ok {
        return ok, Stamped(run, items[..if store.tables[t] == rows + Stamped(run, items[..next]) then next else i]);
      }
      i := next;
    }
    assert items[..i] == items;
    return true, Stamped(run, items);
  }

  /** What an insert with retries has added: only rows of `items`, all of them when it succeeded. */
  ghost predicate Covers(added: seq<Row>, items: seq<Parsed>, run: nat, ok: bool) {
    && (forall r <- added :: r.run == run && r.parsed in items)
    && (ok ==> forall p <- items :: Row(run, p) in added)
  }

  lemma CoversAppend(added: seq<Row>, more: seq<Row>, items: seq<Parsed>, run: nat, ok: bool)
    requires Covers(added, items, run, false)
    requires exists n | 0 <= n <= |items| :: more == Stamped(run, items[..n])
    requires ok ==> more == Stamped(run, items)
    ensures Covers(added + more, items, run, ok)
  {
    forall p <- items | ok ensures Row(run, p) in added + more {
      var i :| 0 <= i < |items| && items[i] == p;
      assert more[i] == Row(run, p);
    }
  }

  /** `_insert_one`: up to eight attempts, each starting over from the first row. */
  method InsertOne(store: Store, t: Table, items: seq<Parsed>, run: nat, batchSize: nat,
                   ghost from: nat, ghost start: Snapshot)
    returns (ok: bool, ghost added: seq<Row>)
    requires batchSize > 0 && store.Valid() && Guarded(store, from, start, run)
    modifies store
    ensures store.Valid() && Guarded(store, from, start, run) && old(store.trace) <= store.trace
    ensures SameExcept(old(store.tables), store.tables, t)
    ensures store.tables[t] == old(store.tables[t]) + added
    ensures Covers(added, items, run, ok)
    ensures store.faults >= old(store.faults) + if ok then 0 else 8
    ensures store.faults == old(store.faults) ==> ok && added == Stamped(run, items)
  {
    added := [];
    if items == [] {
      return true, added;
    }
    ghost var rows := store.tables[t];
    ok := false;
    for attempt := 0 to MAX_ATTEMPTS
      invariant store.Valid() && Guarded(store, from, start, run) && old(store.trace) <= store.trace
      invariant SameExcept(old(store.tables), store.tables, t)
      invariant store.tables[t] == rows + added
      invariant Covers(added, items, run, false)
      invariant store.faults == old(store.faults) + attempt
      invariant attempt == 0 ==> added == []
    {
      ghost var more;
      ok, more := PersistData(store, t, items, run, batchSize, from, start);
      CoversAppend(added, more, items, run, ok);
      Associative(rows, added, more);
      NothingAdded(more);
      added := added + more;
      if ok {
        return;
      }
    }
  }

  // ----- Buffers -----

  /** `buffers`: rows parsed but not yet inserted, per table. */
  class Buffers {
    var rows: map<Table, seq<Parsed>>

    constructor ()
      ensures rows == map[]
    {
      rows := map[];
    }
  }

  function BufferOf(rows: map<Table, seq<Parsed>>, t: Table): seq<Parsed> {
    if t in rows then rows[t] else []
  }

  /** The stored rows of a run followed by its buffered rows are all rows produced so far, in order. */
  ghost predicate InOrder(base: seq<Row>, stored: seq<Row>, buffered: seq<Parsed>, produced: seq<Parsed>, run: nat) {
    exists n | 0 <= n <= |produced| :: buffered == produced[n..] && stored == base + Stamped(run, produced[..n])
  }

  /**
   * One table in the middle of a save: no other run's row has changed, the run's own rows are parsed
   * rows, every parsed row is stored or buffered, and in order while no command has failed.
   */
  ghost predicate TableInv(base: seq<Row>, stored: seq<Row>, buffered: seq<Parsed>, produced: seq<Parsed>,
                           run: nat, clean: bool)
  {
    && WithoutRun(stored, run) == base
    && (forall r <- stored :: r.run == run ==> r.parsed in produced)
    && (forall p <- buffered :: p in produced)
    && (forall p <- produced :: Row(run, p) in stored || p in buffered)
    && (clean ==> InOrder(base, stored, buffered, produced, run))
  }

  lemma BufferInOrder(base: seq<Row>, stored: seq<Row>, buffered: seq<Parsed>, produced: seq<Parsed>,
                      more: seq<Parsed>, run: nat)
    requires InOrder(base, stored, buffered, produced, run)
    ensures InOrder(base, stored, buffered + more, produced + more, run)
  {
    var n :| 0 <= n <= |produced| && buffered == produced[n..] && stored == base + Stamped(run, produced[..n]);
    assert (produced + more)[n..] == buffered + more && (produced + more)[..n] == produced[..n];
  }

  /** Parsing more rows only extends the buffer. */
  lemma BufferKeepsTableInv(base: seq<Row>, stored: seq<Row>, buffered: seq<Parsed>, produced: seq<Parsed>,
                            more: seq<Parsed>, run: nat, clean: bool)
    requires TableInv(base, stored, buffered, produced, run, clean)
    ensures TableInv(base, stored, buffered + more, produced + more, run, clean)
  {
    if clean {
      BufferInOrder(base, stored, buffered, produced, more, run);
    }
  }

  lemma FlushInOrder(base: seq<Row>, stored: seq<Row>, buffered: seq<Parsed>, produced: seq<Parsed>, run: nat)
    requires InOrder(base, stored, buffered, produced, run)
    ensures InOrder(base, stored + Stamped(run, buffered), [], produced, run)
  {
    var n :| 0 <= n <= |produced| && buffered == produced[n..] && stored == base + Stamped(run, produced[..n]);
    StampedPrefix(base, run, produced, n, |produced|);
    assert produced[n..|produced|] == produced[n..];
    assert [] == produced[|produced|..];
  }

  /** Moving the whole buffer into the table. */
  lemma FlushKeepsTableInv(base: seq<Row>, stored: seq<Row>, buffered: seq<Parsed>, produced: seq<Parsed>,
                           added: seq<Row>, run: nat, before: bool, clean: bool)
    requires TableInv(base, stored, buffered, produced, run, before) && (clean ==> before)
    requires WithoutRun(stored + added, run) == WithoutRun(stored, run)
    requires Covers(added, buffered, run, true)
    requires clean ==> added == Stamped(run, buffered)
    ensures TableInv(base, stored + added, [], produced, run, clean)
  {
    if clean {
      FlushInOrder(base, stored, buffered, produced, run);
    }
  }

  ghost predicate Consistent(tables: map<Table, seq<Row>>, buffers: map<Table, seq<Parsed>>,
                             base: map<Table, seq<Row>>, produced: Table -> seq<Parsed>, run: nat, clean: bool)
  {
    && Total(tables) && Total(base)
    && forall t: Table :: TableInv(base[t], tables[t], BufferOf(buffers, t), produced(t), run, clean)
  }

  lemma FlushKeepsTable(tables: map<Table, seq<Row>>, tables': map<Table, seq<Row>>,
                        buffers: map<Table, seq<Parsed>>, t: Table, added: seq<Row>, u: Table,
                        base: map<Table, seq<Row>>, produced: Table -> seq<Parsed>, run: nat, before: bool, clean: bool)
    requires u in tables && u in base && t in tables && (clean ==> before)
    requires TableInv(base[u], tables[u], BufferOf(buffers, u), produced(u), run, before)
    requires SameExcept(tables, tables', t) && u in tables' && t in tables' && tables'[t] == tables[t] + added
    requires u == t ==> WithoutRun(tables'[t], run) == base[t]
    requires Covers(added, BufferOf(buffers, t), run, true)
    requires clean ==> added == Stamped(run, BufferOf(buffers, t))
    ensures TableInv(base[u], tables'[u], BufferOf(buffers[t := []], u), produced(u), run, clean)
  {
    if u == t {
      FlushKeepsTableInv(base[t], tables[t], BufferOf(buffers, t), produced(t), added, run, before, clean);
    } else {
      assert tables'[u] == tables[u] && BufferOf(buffers[t := []], u) == BufferOf(buffers, u);
    }
  }

  lemma FlushKeepsConsistent(tables: map<Table, seq<Row>>, tables': map<Table, seq<Row>>,
                             buffers: map<Table, seq<Parsed>>, t: Table, added: seq<Row>,
                             base: map<Table, seq<Row>>, produced: Table -> seq<Parsed>, run: nat, before: bool,
                             clean: bool)
    requires Consistent(tables, buffers, base, produced, run, before) && (clean ==> before)
    requires SameExcept(tables, tables', t) && tables'[t] == tables[t] + added
    requires WithoutRun(tables'[t], run) == base[t]
    requires Covers(added, BufferOf(buffers, t), run, true)
    requires clean ==> added == Stamped(run, BufferOf(buffers, t))
    ensures Consistent(tables', buffers[t := []], base, produced, run, clean)
  {
    forall u: Table ensures TableInv(base[u], tables'[u], BufferOf(buffers[t := []], u), produced(u), run, clean) {
      FlushKeepsTable(tables, tables', buffers, t, added, u, base, produced, run, before, clean);
    }
  }

  /** `_flush_table_buffer`: empty the buffer first, then insert what it held. */
  method FlushTable(store: Store, buffers: Buffers, t: Table, run: nat, batchSize: nat,
                    ghost from: nat, ghost start: Snapshot,
                    ghost produced: Table -> seq<Parsed>, ghost faults: nat)
    returns (ok: bool)
    requires batchSize > 0 && store.Valid() && Guarded(store, from, start, run) && faults <= store.faults
    requires Consistent(store.tables, buffers.rows, start.tables, produced, run, store.faults == faults)
    modifies store, buffers
    ensures store.Valid() && Guarded(store, from, start, run) && old(store.trace) <= store.trace
    ensures faults <= store.faults && (ok || faults + MAX_ATTEMPTS <= store.faults)
    ensures ok ==> Consistent(store.tables, buffers.rows, start.tables, produced, run, store.faults == faults)
    ensures ok ==>
              || buffers.rows == old(buffers.rows)[t := []]
              || (buffers.rows == old(buffers.rows) && BufferOf(buffers.rows, t) == [])
  {
    var items := BufferOf(buffers.rows, t);
    if items == [] {
      return true;
    }
    ghost var tables, rows, before := store.tables, buffers.rows, store.faults == faults;
    buffers.rows := buffers.rows[t := []];
    ghost var added;
    ok, added := InsertOne(store, t, items, run, batchSize, from, start);
    if ok {
      assert WithoutRun(store.tables[t], run) == start.tables[t];
      FlushKeepsConsistent(tables, store.tables, rows, t, added, start.tables, produced, run, before,
                           store.faults == faults);
    }
  }

  /** Rows produced when the first `k` tables of `item` have been buffered. */
  ghost function Partial(items: seq<Item>, item: Item, k: nat): Table -> seq<Parsed>
    requires k <= |InsertsOf(item.stream)|
  {
    (t: Table) => Produced(items, t) + if t in InsertsOf(item.stream)[..k] then RowsFor(item, t) else []
  }

  ghost function ProducedBy(items: seq<Item>): Table -> seq<Parsed> {
    (t: Table) => Produced(items, t)
  }

  lemma PartialNext(items: seq<Item>, item: Item, k: nat, u: Table)
    requires k < |InsertsOf(item.stream)|
    ensures
      var t := InsertsOf(item.stream)[k];
      && (u == t ==> Partial(items, item, k)(u) == Produced(items, u))
      && Partial(items, item, k + 1)(u) ==
         if u == t then Produced(items, u) + RowsFor(item, u) else Partial(items, item, k)(u)
  {
    InsertsDistinct(item.stream);
  }

  lemma BufferKeepsTable(stored: seq<Row>, buffers: map<Table, seq<Parsed>>, base: seq<Row>,
                         items: seq<Item>, item: Item, k: nat, run: nat, clean: bool, u: Table)
    requires k < |InsertsOf(item.stream)|
    requires TableInv(base, stored, BufferOf(buffers, u), Partial(items, item, k)(u), run, clean)
    ensures
      var t := InsertsOf(item.stream)[k];
      TableInv(base, stored, BufferOf(buffers[t := BufferOf(buffers, t) + RowsFor(item, t)], u),
               Partial(items, item, k + 1)(u), run, clean)
  {
    PartialNext(items, item, k, u);
    if u == InsertsOf(item.stream)[k] {
      BufferKeepsTableInv(base, stored, BufferOf(buffers, u), Produced(items, u), RowsFor(item, u), run, clean);
    }
  }

  lemma BufferKeepsConsistent(tables: map<Table, seq<Row>>, buffers: map<Table, seq<Parsed>>,
                              base: map<Table, seq<Row>>,
                              items: seq<Item>, item: Item, k: nat, run: nat, clean: bool)
    requires k < |InsertsOf(item.stream)|
    requires Consistent(tables, buffers, base, Partial(items, item, k), run, clean)
    ensures
      var t := InsertsOf(item.stream)[k];
      Consistent(tables, buffers[t := BufferOf(buffers, t) + RowsFor(item, t)], base, Partial(items, item, k + 1),
                 run, clean)
  {
    var t := InsertsOf(item.stream)[k];
    forall u: Table
      ensures TableInv(base[u], tables[u], BufferOf(buffers[t := BufferOf(buffers, t) + RowsFor(item, t)], u),
                       Partial(items, item, k + 1)(u), run, clean)
    {
      BufferKeepsTable(tables[u], buffers, base[u], items, item, k, run, clean, u);
    }
  }

  lemma ConsistentCongruent(tables: map<Table, seq<Row>>, buffers: map<Table, seq<Parsed>>,
                            buffers': map<Table, seq<Parsed>>,
                            base: map<Table, seq<Row>>, produced: Table -> seq<Parsed>, produced': Table -> seq<Parsed>,
                            run: nat, clean: bool)
    requires Consistent(tables, buffers, base, produced, run, clean)
    requires forall t: Table :: BufferOf(buffers', t) == BufferOf(buffers, t) && produced'(t) == produced(t)
    ensures Consistent(tables, buffers', base, produced', run, clean)
  {
    forall t: Table ensures TableInv(base[t], tables[t], BufferOf(buffers', t), produced'(t), run, clean) {
      assert TableInv(base[t], tables[t], BufferOf(buffers, t), produced(t), run, clean);
    }
  }

  lemma PartialStart(items: seq<Item>, item: Item, t: Table)
    ensures Partial(items, item, 0)(t) == ProducedBy(items)(t)
  {
  }

  lemma PartialEnd(items: seq<Item>, item: Item, t: Table)
    ensures Partial(items, item, |InsertsOf(item.stream)|)(t) == ProducedBy(items + [item])(t)
  {
    assert (items + [item])[..|items|] == items;
    assert InsertsOf(item.stream)[..|InsertsOf(item.stream)|] == InsertsOf(item.stream);
  }

  /** No buffer is full. */
  ghost predicate Small(rows: map<Table, seq<Parsed>>, batchSize: nat) {
    forall t: Table :: |BufferOf(rows, t)| < batchSize
  }

  /** Only the buffer of `t` may be full. */
  ghost predicate SmallExcept(rows: map<Table, seq<Parsed>>, batchSize: nat, t: Table) {
    forall u: Table | u != t :: |BufferOf(rows, u)| < batchSize
  }

  lemma FlushedIsSmall(rows: map<Table, seq<Parsed>>, rows': map<Table, seq<Parsed>>, batchSize: nat, t: Table)
    requires SmallExcept(rows, batchSize, t) && batchSize > 0
    requires rows' == rows[t := []] || (rows' == rows && BufferOf(rows, t) == [])
    ensures Small(rows', batchSize)
  {
    forall u: Table ensures |BufferOf(rows', u)| < batchSize {
      assert u != t ==> |BufferOf(rows, u)| < batchSize;
    }
  }

  lemma ExtendedIsSmallExcept(rows: map<Table, seq<Parsed>>, batchSize: nat, t: Table, added: seq<Parsed>)
    requires Small(rows, batchSize)
    ensures SmallExcept(rows[t := BufferOf(rows, t) + added], batchSize, t)
  {
    var rows' := rows[t := BufferOf(rows, t) + added];
    forall u: Table | u != t ensures |BufferOf(rows', u)| < batchSize {
      assert |BufferOf(rows, u)| < batchSize;
    }
  }

  /** `_buffer_inserts`: buffer every table's rows of one document, flushing a table that is full. */
  method BufferInserts(store: Store, buffers: Buffers, item: Item, run: nat, batchSize: nat,
                       ghost from: nat, ghost start: Snapshot,
                       ghost items: seq<Item>, ghost faults: nat)
    returns (ok: bool)
    requires batchSize > 0 && store.Valid() && Guarded(store, from, start, run) && faults <= store.faults
    requires Consistent(store.tables, buffers.rows, start.tables, ProducedBy(items), run, store.faults == faults)
    requires Small(buffers.rows, batchSize)
    modifies store, buffers
    ensures store.Valid() && Guarded(store, from, start, run) && old(store.trace) <= store.trace
    ensures faults <= store.faults && (ok || faults + MAX_ATTEMPTS <= store.faults)
    ensures ok ==>
              Consistent(store.tables, buffers.rows, start.tables, ProducedBy(items + [item]), run,
                         store.faults == faults)
    ensures ok ==> Small(buffers.rows, batchSize)
  {
    var specs := InsertsOf(item.stream);
    forall t { PartialStart(items, item, t); }
    ConsistentCongruent(store.tables, buffers.rows, buffers.rows, start.tables, ProducedBy(items),
                        Partial(items, item, 0),
                        run, store.faults == faults);
    for k := 0 to |specs|
      invariant store.Valid() && Guarded(store, from, start, run) && old(store.trace) <= store.trace
      invariant faults <= store.faults && Small(buffers.rows, batchSize)
      invariant Consistent(store.tables, buffers.rows, start.tables, Partial(items, item, k), run,
                           store.faults == faults)
    {
      ok := BufferTable(store, buffers, item, k, run, batchSize, from, start, items, faults);
      if !ok {
        return;
      }
    }
    forall t { PartialEnd(items, item, t); }
    ConsistentCongruent(store.tables, buffers.rows, buffers.rows, start.tables, Partial(items, item, |specs|),
                        ProducedBy(items + [item]), run, store.faults == faults);
    ok := true;
  }

  /** A table without rows leaves the buffers as they are. */
  lemma NothingToBuffer(tables: map<Table, seq<Row>>, buffers: map<Table, seq<Parsed>>, base: map<Table, seq<Row>>,
                        items: seq<Item>, item: Item, k: nat, run: nat, clean: bool)
    requires k < |InsertsOf(item.stream)| && RowsFor(item, InsertsOf(item.stream)[k]) == []
    requires Consistent(tables, buffers, base, Partial(items, item, k), run, clean)
    ensures Consistent(tables, buffers, base, Partial(items, item, k + 1), run, clean)
  {
    forall u: Table ensures Partial(items, item, k + 1)(u) == Partial(items, item, k)(u) {
      PartialNext(items, item, k, u);
      NothingAdded(Produced(items, u));
    }
    ConsistentCongruent(tables, buffers, buffers, base, Partial(items, item, k), Partial(items, item, k + 1), run,
                        clean);
  }

  /** Buffer the rows of the `k`-th table of the document's stream; `full` asks for a flush. */
  method ExtendBuffer(buffers: Buffers, item: Item, k: nat, batchSize: nat, ghost tables: map<Table, seq<Row>>,
                      ghost base: map<Table, seq<Row>>, ghost items: seq<Item>, ghost run: nat, ghost clean: bool)
    returns (full: bool)
    requires k < |InsertsOf(item.stream)|
    requires Consistent(tables, buffers.rows, base, Partial(items, item, k), run, clean)
    requires Small(buffers.rows, batchSize)
    modifies buffers
    ensures Consistent(tables, buffers.rows, base, Partial(items, item, k + 1), run, clean)
    ensures SmallExcept(buffers.rows, batchSize, InsertsOf(item.stream)[k])
    ensures full <==> |BufferOf(buffers.rows, InsertsOf(item.stream)[k])| >= batchSize
  {
    var t := InsertsOf(item.stream)[k];
    var rows := RowsFor(item, t);
    if rows == [] {
      NothingToBuffer(tables, buffers.rows, base, items, item, k, run, clean);
      return false;
    }
    BufferKeepsConsistent(tables, buffers.rows, base, items, item, k, run, clean);
    ExtendedIsSmallExcept(buffers.rows, batchSize, t, rows);
    buffers.rows := buffers.rows[t := BufferOf(buffers.rows, t) + rows];
    full := |BufferOf(buffers.rows, t)| >= batchSize;
  }

  /** One round of `_buffer_inserts`, for the `k`-th table of the document's stream. */
  method BufferTable(store: Store, buffers: Buffers, item: Item, k: nat, run: nat, batchSize: nat,
                     ghost from: nat, ghost start: Snapshot, ghost items: seq<Item>, ghost faults: nat)
    returns (ok: bool)
    requires k < |InsertsOf(item.stream)|
    requires batchSize > 0 && store.Valid() && Guarded(store, from, start, run) && faults <= store.faults
    requires Consistent(store.tables, buffers.rows, start.tables, Partial(items, item, k), run, store.faults == faults)
    requires Small(buffers.rows, batchSize)
    modifies store, buffers
    ensures store.Valid() && Guarded(store, from, start, run) && old(store.trace) <= store.trace
    ensures faults <= store.faults && (ok || faults + MAX_ATTEMPTS <= store.faults)
    ensures ok ==>
              Consistent(store.tables, buffers.rows, start.tables, Partial(items, item, k + 1), run,
                         store.faults == faults)
    ensures ok ==> Small(buffers.rows, batchSize)
  {
    var full := ExtendBuffer(buffers, item, k, batchSize, store.tables, start.tables, items, run,
                             store.faults == faults);
    ok := true;
    ghost var rows := buffers.rows;
    if full {
      ok := FlushTable(store, buffers, InsertsOf(item.stream)[k], run, batchSize, from, start,
                       Partial(items, item, k + 1), faults);
      if ok {
        FlushedIsSmall(rows, buffers.rows, batchSize, InsertsOf(item.stream)[k]);
      }
    }
  }

  /** Only the tables in `keys` may still have buffered rows. */
  ghost predicate PendingOnly(rows: map<Table, seq<Parsed>>, keys: set<Table>) {
    forall t: Table :: t in keys || BufferOf(rows, t) == []
  }

  lemma NothingPendingIsSmall(rows: map<Table, seq<Parsed>>, batchSize: nat)
    requires PendingOnly(rows, {}) && batchSize > 0
    ensures Small(rows, batchSize)
  {
    forall t: Table ensures |BufferOf(rows, t)| < batchSize {
      assert BufferOf(rows, t) == [];
    }
  }

  lemma PendingShrinks(rows: map<Table, seq<Parsed>>, rows': map<Table, seq<Parsed>>, keys: set<Table>, t: Table)
    requires PendingOnly(rows, keys)
    requires rows' == rows[t := []] || (rows' == rows && BufferOf(rows, t) == [])
    ensures PendingOnly(rows', keys - {t})
  {
    forall u: Table ensures u in keys - {t} || BufferOf(rows', u) == [] {
      assert u in keys || BufferOf(rows, u) == [];
    }
  }

  /** `_flush_all_buffers`. */
  method FlushAll(store: Store, buffers: Buffers, run: nat, batchSize: nat,
                  ghost from: nat, ghost start: Snapshot,
                  ghost produced: Table -> seq<Parsed>, ghost faults: nat)
    returns (ok: bool)
    requires batchSize > 0 && store.Valid() && Guarded(store, from, start, run) && faults <= store.faults
    requires Consistent(store.tables, buffers.rows, start.tables, produced, run, store.faults == faults)
    modifies store, buffers
    ensures store.Valid() && Guarded(store, from, start, run) && old(store.trace) <= store.trace
    ensures faults <= store.faults && (ok || faults + MAX_ATTEMPTS <= store.faults)
    ensures ok ==> Consistent(store.tables, buffers.rows, start.tables, produced, run, store.faults == faults)
    ensures ok ==> PendingOnly(buffers.rows, {})
  {
    var keys := buffers.rows.Keys;
    while keys != {}
      invariant store.Valid() && Guarded(store, from, start, run) && old(store.trace) <= store.trace
      invariant faults <= store.faults
      invariant Consistent(store.tables, buffers.rows, start.tables, produced, run, store.faults == faults)
      invariant PendingOnly(buffers.rows, keys)
      decreases keys
    {
      var t :| t in keys;
      ghost var rows := buffers.rows;
      ok := FlushTable(store, buffers, t, run, batchSize, from, start, produced, faults);
      if !ok {
        return;
      }
      PendingShrinks(rows, buffers.rows, keys, t);
      keys := keys - {t};
    }
    ok := true;
  }
}
