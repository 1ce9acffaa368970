/**
 * The durable match-data queue over whole runs: seeding, claiming, fetching and saving batch after batch
 * (`MatchDataLoader`, `MatchDataOrchestrator.run`, `seed_from_latest_matchids`).
 */
module MatchQueue {
  import opened ClaimQueue
  import opened CombineStreams
  import opened Deduping
  import opened MatchSave
  import opened MatchSaver
  import opened MatchStore
  import opened Results
  import opened Sequences
  import opened Spreading

  // ----- The API and what it means to be persisted -----

  /** The document the API has for a match; a request may still fail to deliver it. */
  type Api = (Stream, string) -> Payload

  function Document(api: Api, stream: Stream, id: string): Item {
    StreamItem(stream, api(stream, id))
  }

  /** A row of match `id` carries the full id or its numeric suffix. */
  predicate Owned(mid: string, id: string) {
    mid == id || HasNumericSuffix(id, mid)
  }

  ghost predicate OwnRows(api: Api, stream: Stream, id: string, t: Table) {
    forall p <- RowsFor(Document(api, stream, id), t) :: Owned(p.mid, id)
  }

  /** Documents carry the id they were asked for, in their metadata and in their rows. */
  ghost predicate WellFormed(api: Api) {
    && (forall stream, id :: Document(api, stream, id).raw.matchId == id)
    && (forall stream, id, t :: OwnRows(api, stream, id, t))
  }

  ghost predicate PersistedIn(tables: map<Table, seq<Row>>, api: Api, stream: Stream, id: string, run: nat, t: Table)
    requires Total(tables)
  {
    var item := Document(api, stream, id);
    item.raw.tables.Some? && forall p <- RowsFor(item, t) :: Row(run, p) in tables[t]
  }

  ghost predicate PersistedBy(tables: map<Table, seq<Row>>, api: Api, id: string, run: nat) {
    Total(tables) && forall stream: Stream, t: Table :: PersistedIn(tables, api, stream, id, run, t)
  }

  /** Some run has parsed both documents of this match and stored all their rows. */
  ghost predicate Persisted(tables: map<Table, seq<Row>>, api: Api, id: string) {
    exists run: nat :: PersistedBy(tables, api, id, run)
  }

  /** If this id was ever queued, it is still queued or persisted. */
  ghost predicate Kept(snap: Snapshot, api: Api, id: string) {
    id in snap.seeded ==> id in snap.queue || Persisted(snap.tables, api, id)
  }

  ghost predicate KeptThroughout(trace: seq<Snapshot>, from: nat, api: Api, id: string) {
    forall k | from <= k < |trace| :: Kept(trace[k], api, id)
  }

  ghost predicate AllDistinct(trace: seq<Snapshot>, from: nat) {
    forall k | from <= k < |trace| :: Distinct(trace[k].queue)
  }

  /** Nothing seeded is lost: every id ever queued is still queued or persisted; and none is queued twice. */
  ghost predicate Safe(snap: Snapshot, api: Api) {
    Distinct(snap.queue) && forall id :: Kept(snap, api, id)
  }

  ghost predicate AllSafe(trace: seq<Snapshot>, from: nat, api: Api) {
    forall k | from <= k < |trace| :: Safe(trace[k], api)
  }

  lemma PersistedGrows(before: map<Table, seq<Row>>, after: map<Table, seq<Row>>, api: Api, id: string)
    requires Persisted(before, api, id) && Total(before) && Total(after)
    requires forall t: Table :: forall r <- before[t] :: r in after[t]
    ensures Persisted(after, api, id)
  {
    var run: nat :| PersistedBy(before, api, id, run);
    forall stream: Stream, t: Table ensures PersistedIn(after, api, stream, id, run, t) {
      assert PersistedIn(before, api, stream, id, run, t);
    }
    assert PersistedBy(after, api, id, run);
  }

  /** No row of `run` is stored yet. */
  ghost predicate Fresh(tables: map<Table, seq<Row>>, run: nat) {
    Total(tables) && forall t: Table :: WithoutRun(tables[t], run) == tables[t]
  }

  /** As long as a save has only touched its own run's rows, no seeded id is lost. */
  lemma HarmlessKeeps(snap: Snapshot, start: Snapshot, run: nat, api: Api, id: string)
    requires Kept(start, api, id) && Harmless(snap, start, run)
    ensures Kept(snap, api, id)
  {
    if id in snap.seeded && id !in snap.queue {
      forall t: Table ensures forall r <- start.tables[t] :: r in snap.tables[t] {
        WithoutRunMembers(snap.tables[t], run);
      }
      PersistedGrows(start.tables, snap.tables, api, id);
    }
  }

  // ----- A finished save -----

  /** Every delivered item is the API's document for an id of the batch. */
  ghost predicate FromApi(items: seq<Item>, api: Api, batch: seq<string>) {
    forall item <- items :: item.raw.matchId in batch && item == Document(api, item.stream, item.raw.matchId)
  }

  /** `f` is finished and shares its suffix with a failed id of the batch. */
  ghost predicate Clashes(batch: seq<string>, items: seq<Item>, f: string) {
    f in Successful(batch, items) && exists g :: g in Failed(batch, items) && Suffix(f) == Suffix(g)
  }

  ghost predicate Clash(batch: seq<string>, items: seq<Item>) {
    exists f :: Clashes(batch, items, f)
  }

  lemma {:induction false} DigitsAreTheirSuffix(s: string)
    requires forall i | 0 <= i < |s| :: '0' <= s[i] <= '9'
    ensures Suffix(s) == s
  {
    if s != "" {
      DigitsAreTheirSuffix(s[..|s| - 1]);
      assert s == s[..|s| - 1] + [s[|s| - 1]];
    }
  }

  /** A row of a finished id can only be named by a failed id with the same suffix. */
  lemma NamedNeedsSameSuffix(mid: string, f: string, g: string)
    requires Owned(mid, f) && NamedBy(mid, g)
    ensures Suffix(f) == Suffix(g)
  {
    if IsDigits(mid) {
      DigitsAreTheirSuffix(mid);
    }
  }

  lemma {:induction false} ProducedHas(items: seq<Item>, item: Item, t: Table)
    requires item in items
    ensures forall p <- RowsFor(item, t) :: p in Produced(items, t)
  {
    if item != items[|items| - 1] {
      assert items == items[..|items| - 1] + [items[|items| - 1]];
      ProducedHas(items[..|items| - 1], item, t);
    }
  }

  lemma DeliveredDocument(items: seq<Item>, api: Api, batch: seq<string>, id: string, stream: Stream)
    requires FromApi(items, api, batch) && Delivered(items, id, stream)
    ensures Document(api, stream, id) in items
  {
    var item :| item in items && item.stream == stream && item.raw.matchId == id;
  }

  lemma FinishedIdPersisted(base: map<Table, seq<Row>>, tables: map<Table, seq<Row>>, items: seq<Item>, api: Api,
                            batch: seq<string>, run: nat, clean: bool, id: string)
    requires WellFormed(api) && FromApi(items, api, batch)
    requires Saved(base, tables, items, Failed(batch, items), run, clean)
    requires id in Successful(batch, items) && !Clashes(batch, items, id)
    ensures PersistedBy(tables, api, id, run)
  {
    BatchSplit(batch, items, id);
    forall stream: Stream, t: Table ensures PersistedIn(tables, api, stream, id, run, t) {
      assert Delivered(items, id, stream);
      DeliveredDocument(items, api, batch, id, stream);
      ProducedHas(items, Document(api, stream, id), t);
      assert OwnRows(api, stream, id, t);
      assert TableSaved(base[t], tables[t], Produced(items, t), Failed(batch, items), run, clean);
      forall p <- RowsFor(Document(api, stream, id), t) ensures Row(run, p) in tables[t] {
        if Named(p.mid, Failed(batch, items)) {
          var g :| g in Failed(batch, items) && NamedBy(p.mid, g);
          NamedNeedsSameSuffix(p.mid, id, g);
          assert false;
        }
      }
    }
  }

  /** A finished save keeps every seeded id that does not clash. */
  lemma FinishedKeeps(start: Snapshot, now: Snapshot, items: seq<Item>, api: Api, batch: seq<string>, run: nat,
                      clean: bool, id: string)
    requires WellFormed(api) && FromApi(items, api, batch) && !Clashes(batch, items, id)
    requires Kept(start, api, id) && now.seeded == start.seeded
    requires Saved(start.tables, now.tables, items, Failed(batch, items), run, clean)
    requires now.queue == WithoutQueued(start.queue, Deduped(Successful(batch, items)))
    ensures Kept(now, api, id)
  {
    WithoutQueuedMembers(start.queue, Deduped(Successful(batch, items)));
    DedupedMeaning(Successful(batch, items));
    if id in start.queue && id !in now.queue {
      FinishedIdPersisted(start.tables, now.tables, items, api, batch, run, clean, id);
    } else if id in start.seeded && id !in start.queue {
      forall t: Table ensures forall r <- start.tables[t] :: r in now.tables[t] {
        assert TableSaved(start.tables[t], now.tables[t], Produced(items, t), Failed(batch, items), run, clean);
        WithoutRunMembers(now.tables[t], run);
      }
      PersistedGrows(start.tables, now.tables, api, id);
    }
  }

  /** The document stores a row under its numeric match id, as every table but the metadata does. */
  ghost predicate HasNumericRow(api: Api, id: string) {
    IsDigits(Suffix(id)) && exists stream: Stream, t: Table, p ::
      p in RowsFor(Document(api, stream, id), t) && p.mid == Suffix(id)
  }

  /**
   * Exactly when a finished save keeps an id it finished: the id is persisted if and only if it does not share
   * its suffix with a failed id of the batch.
   */
  lemma FinishedPersistedExactly(base: map<Table, seq<Row>>, tables: map<Table, seq<Row>>, items: seq<Item>, api: Api,
                                 batch: seq<string>, run: nat, clean: bool, id: string)
    requires WellFormed(api) && FromApi(items, api, batch)
    requires Saved(base, tables, items, Failed(batch, items), run, clean)
    requires id in Successful(batch, items) && HasNumericRow(api, id)
    ensures PersistedBy(tables, api, id, run) <==> !Clashes(batch, items, id)
  {
    if Clashes(batch, items, id) {
      ClashLosesRows(base, tables, items, api, batch, run, clean, id);
    } else {
      FinishedIdPersisted(base, tables, items, api, batch, run, clean, id);
    }
  }

  /** In a clash, deleting the failed id's rows takes the finished id's rows with them. */
  lemma ClashLosesRows(base: map<Table, seq<Row>>, tables: map<Table, seq<Row>>, items: seq<Item>, api: Api,
                       batch: seq<string>, run: nat, clean: bool, lost: string)
    requires Clashes(batch, items, lost) && Saved(base, tables, items, Failed(batch, items), run, clean)
    requires HasNumericRow(api, lost)
    ensures !PersistedBy(tables, api, lost, run)
  {
    var g :| g in Failed(batch, items) && Suffix(lost) == Suffix(g);
    var stream: Stream, t: Table, p :| p in RowsFor(Document(api, stream, lost), t) && p.mid == Suffix(lost);
    assert NamedBy(p.mid, g);
    assert TableSaved(base[t], tables[t], Produced(items, t), Failed(batch, items), run, clean);
    assert Row(run, p).parsed == p;
    assert !PersistedIn(tables, api, stream, lost, run, t);
  }

  /** Different ids have different suffixes. */
  ghost predicate SuffixesDistinct(ids: seq<string>) {
    forall f, g :: f in ids && g in ids && Suffix(f) == Suffix(g) ==> f == g
  }

  /** Both documents of one match, and nothing else. */
  function BothDocuments(api: Api, id: string): seq<Item> {
    [Document(api, NonTimeline, id), Document(api, Timeline, id)]
  }

  /** When only `f` is delivered, every other id of the batch fails. */
  lemma OnlyOneDelivered(api: Api, batch: seq<string>, f: string, g: string)
    requires WellFormed(api) && f in batch && g in batch && f != g && f != UNKNOWN_ID
    ensures FromApi(BothDocuments(api, f), api, batch)
    ensures f in Successful(batch, BothDocuments(api, f)) && g in Failed(batch, BothDocuments(api, f))
  {
    var items := BothDocuments(api, f);
    assert Document(api, NonTimeline, f).raw.matchId == f && Document(api, Timeline, f).raw.matchId == f;
    assert items[0] in items && items[1] in items;
    assert Delivered(items, f, NonTimeline) && Delivered(items, f, Timeline);
    BatchSplit(batch, items, f);
    BatchSplit(batch, items, g);
  }

  /**
   * Which batches can clash is known before the save: a batch clashes for no delivery whatsoever if and only
   * if its ids have different suffixes.
   */
  lemma NeverClashExactly(api: Api, batch: seq<string>)
    requires WellFormed(api)
    ensures (forall items :: FromApi(items, api, batch) ==> !Clash(batch, items)) <==> SuffixesDistinct(batch)
  {
    if SuffixesDistinct(batch) {
      forall items ensures !Clash(batch, items) {
        DistinctSuffixesNeverClash(batch, items);
      }
    } else {
      var f, g :| f in batch && g in batch && Suffix(f) == Suffix(g) && f != g;
      var delivered, other := if f != UNKNOWN_ID then f else g, if f != UNKNOWN_ID then g else f;
      OnlyOneDelivered(api, batch, delivered, other);
      assert Clashes(batch, BothDocuments(api, delivered), delivered);
    }
  }

  /** A batch of ids with different suffixes cannot clash, whatever is delivered. */
  lemma DistinctSuffixesNeverClash(batch: seq<string>, items: seq<Item>)
    requires SuffixesDistinct(batch)
    ensures !Clash(batch, items)
  {
    forall f, g | f in Successful(batch, items) && g in Failed(batch, items) ensures Suffix(f) != Suffix(g) {
      BatchSplit(batch, items, f);
      BatchSplit(batch, items, g);
    }
  }

  /** An API whose documents hold one row of general information, under the numeric match id if there is one. */
  function InfoOnly(stream: Stream, id: string): Payload {
    Payload(id, Some(map[Info := [Parsed(if IsDigits(Suffix(id)) then Suffix(id) else id, "")]]))
  }

  lemma InfoOnlyWellFormed()
    ensures WellFormed(InfoOnly)
  {
    forall stream, id, t ensures OwnRows(InfoOnly, stream, id, t) {
    }
  }

  function NoRows(t: Table): seq<Row> { [] }

  const EMPTY_TABLES: map<Table, seq<Row>> := map t: Table :: NoRows(t)

  /** The tables after a save that starts on empty ones and meets no fault. */
  ghost function CleanlySaved(items: seq<Item>, run: nat, failed: seq<string>): map<Table, seq<Row>> {
    map t: Table :: Purged(Stamped(run, Produced(items, t)), run, failed)
  }

  lemma StampedInOrder(rows: seq<Parsed>, run: nat)
    ensures InOrder([], Stamped(run, rows), [], rows, run)
  {
    var none: seq<Parsed> := [];
    assert none == rows[|rows|..] && rows[..|rows|] == rows;
    NothingAdded(Stamped(run, rows));
  }

  lemma StampedTable(rows: seq<Parsed>, run: nat)
    ensures TableInv([], Stamped(run, rows), [], rows, run, true)
  {
    FilterNone(Stamped(run, rows), OtherRuns(run));
    forall p <- rows ensures Row(run, p) in Stamped(run, rows) {
      var i :| 0 <= i < |rows| && rows[i] == p;
      assert Stamped(run, rows)[i] == Row(run, p);
    }
    StampedInOrder(rows, run);
  }

  lemma CleanlySavedIsSaved(items: seq<Item>, run: nat, failed: seq<string>)
    requires AllParsed(items)
    ensures Saved(EMPTY_TABLES, CleanlySaved(items, run, failed), items, failed, run, true)
  {
    var stored: map<Table, seq<Row>> := map t: Table :: Stamped(run, Produced(items, t));
    forall t: Table ensures TableInv(EMPTY_TABLES[t], stored[t], [], Produced(items, t), run, true) {
      StampedTable(Produced(items, t), run);
    }
    PurgeSaves(EMPTY_TABLES, stored, CleanlySaved(items, run, failed), items, failed, run, true, true);
  }

  lemma SuffixOfNumbered(shard: string, digit: char)
    requires '0' <= digit <= '9'
    ensures Suffix(shard + "_" + [digit]) == [digit]
  {
    var id := shard + "_" + [digit];
    assert id[..|id| - 1] == shard + "_" && Suffix(shard + "_") == "";
  }

  lemma InfoOnlyProduces(f: string, t: Table)
    requires IsDigits(Suffix(f))
    ensures forall p <- Produced(BothDocuments(InfoOnly, f), t) :: p.mid == Suffix(f)
  {
    var items := BothDocuments(InfoOnly, f);
    assert items[..1] == [items[0]] && items[..1][..0] == [];
    assert Produced(items, t) == Produced(items[..1], t) + RowsFor(items[1], t);
    assert Produced(items[..1], t) == RowsFor(items[0], t);
  }

  /** All rows the documents of `f` produce are named by an id with the same numeric suffix. */
  lemma EverythingPurged(f: string, g: string, run: nat, t: Table)
    requires g != "" && IsDigits(Suffix(f)) && Suffix(f) == Suffix(g)
    ensures CleanlySaved(BothDocuments(InfoOnly, f), run, [g])[t] == []
  {
    InfoOnlyProduces(f, t);
    assert NamedBy(Suffix(f), g) && g in [g];
    PurgedAll(Stamped(run, Produced(BothDocuments(InfoOnly, f), t)), run, [g]);
  }

  lemma FirstOfTwoFinishes(f: string, g: string)
    requires f != g && f != UNKNOWN_ID && Suffix(f) == Suffix(g)
    ensures
      var batch, items := [f, g], BothDocuments(InfoOnly, f);
      && FromApi(items, InfoOnly, batch) && Clash(batch, items)
      && Successful(batch, items) == [f] && Failed(batch, items) == [g]
  {
    var batch, items := [f, g], BothDocuments(InfoOnly, f);
    InfoOnlyWellFormed();
    OnlyOneDelivered(InfoOnly, batch, f, g);
    BatchSplit(batch, items, f);
    BatchSplit(batch, items, g);
    SplitOfTwo(batch, items);
    assert Clashes(batch, items, f);
  }

  /** Two ids with one numeric suffix of which only the first is delivered: it finishes and loses its row. */
  lemma FirstOfTwoLost(f: string, g: string)
    requires g != "" && IsDigits(Suffix(f)) && Suffix(f) == Suffix(g)
    ensures
      var items, tables := BothDocuments(InfoOnly, f), CleanlySaved(BothDocuments(InfoOnly, f), 0, [g]);
      && Saved(EMPTY_TABLES, tables, items, [g], 0, true) && tables[Info] == []
      && RowsFor(items[0], Info) == [Parsed(Suffix(f), "")]
  {
    CleanlySavedIsSaved(BothDocuments(InfoOnly, f), 0, [g]);
    EverythingPurged(f, g, 0, Info);
  }

  /**
   * A concrete loss: one match id in two shards, of which only the European one is delivered. The save
   * meets no fault and finishes that id, and has deleted the only row of it.
   */
  lemma TwoShardsLoseARow()
    ensures
      var batch, items := ["EUW1_7", "NA1_7"], BothDocuments(InfoOnly, "EUW1_7");
      && WellFormed(InfoOnly) && FromApi(items, InfoOnly, batch) && Clash(batch, items)
      && Successful(batch, items) == ["EUW1_7"] && Failed(batch, items) == ["NA1_7"]
      && Saved(EMPTY_TABLES, CleanlySaved(items, 0, ["NA1_7"]), items, ["NA1_7"], 0, true)
      && RowsFor(items[0], Info) == [Parsed("7", "")]
      && CleanlySaved(items, 0, ["NA1_7"])[Info] == []
  {
    var f, g := "EUW1_7", "NA1_7";
    assert f == "EUW1" + "_" + ['7'] && g == "NA1" + "_" + ['7'];
    SuffixOfNumbered("EUW1", '7');
    SuffixOfNumbered("NA1", '7');
    assert f[0] != UNKNOWN_ID[0] && f[0] != g[0];
    InfoOnlyWellFormed();
    FirstOfTwoFinishes(f, g);
    FirstOfTwoLost(f, g);
  }

  lemma SplitOfTwo(batch: seq<string>, items: seq<Item>)
    requires |batch| == 2 && Complete(items, batch[0]) && !Complete(items, batch[1])
    ensures Successful(batch, items) == [batch[0]] && Failed(batch, items) == [batch[1]]
  {
    var first, second := batch[..1], batch[1..];
    assert batch == first + second && first == [batch[0]] && second == [batch[1]];
    FilterConcat(first, second, CompleteIn(items));
    FilterConcat(first, second, IncompleteIn(items));
    FilterAll(first, CompleteIn(items));
    FilterNone(second, CompleteIn(items));
    FilterNone(first, IncompleteIn(items));
    FilterAll(second, IncompleteIn(items));
  }

  // ----- Seeding -----

  /** Every queued id has been seeded. */
  ghost predicate QueueSeeded(snap: Snapshot) {
    forall id <- snap.queue :: id in snap.seeded
  }

  ghost predicate AllQueueSeeded(trace: seq<Snapshot>, from: nat) {
    forall k | from <= k < |trace| :: QueueSeeded(trace[k])
  }

  /** Every match id of the run that the seed anchor names has been seeded. */
  ghost predicate SeedSound(snap: Snapshot, runs: nat -> seq<string>) {
    snap.seedAnchor.Some? ==> forall id <- runs(snap.seedAnchor.value) :: id in snap.seeded
  }

  ghost predicate AllSeedSound(trace: seq<Snapshot>, from: nat, runs: nat -> seq<string>) {
    forall k | from <= k < |trace| :: SeedSound(trace[k], runs)
  }

  /** What an anchored run means: each of its match ids is queued or stored completely. */
  lemma AnchoredIsKept(snap: Snapshot, api: Api, runs: nat -> seq<string>, id: string)
    requires Kept(snap, api, id) && SeedSound(snap, runs)
    requires snap.seedAnchor.Some? && id in runs(snap.seedAnchor.value)
    ensures id in snap.queue || Persisted(snap.tables, api, id)
  {
    assert id in snap.seeded;
  }

  /** The newest anchored match-id run and the match ids stored for it. */
  datatype LatestRun = LatestRun(run: nat, matchIds: seq<string>)

  /** The match ids read for the newest run are those stored for it. */
  ghost predicate IsLatest(latest: Option<LatestRun>, runs: nat -> seq<string>) {
    latest.Some? ==> latest.value.matchIds == runs(latest.value.run)
  }

  /**
   * From `before` over the recorded states from position `from` to `now`, the set of ids ever queued only grows:
   * no state forgets what an earlier one had seeded.
   */
  ghost predicate SeededGrows(before: Snapshot, now: Snapshot, trace: seq<Snapshot>, from: nat) {
    && before.seeded <= now.seeded
    && (forall k | from <= k < |trace| :: before.seeded <= trace[k].seeded <= now.seeded)
    && (forall j, k | from <= j <= k < |trace| :: trace[j].seeded <= trace[k].seeded)
  }

  /** No id is queued twice, now or in any recorded state. */
  ghost predicate StaysDistinct(before: Snapshot, now: Snapshot, trace: seq<Snapshot>, from: nat) {
    Distinct(before.queue) ==> Distinct(now.queue) && AllDistinct(trace, from)
  }

  /** What is queued is noted as seeded, and an anchored run has been seeded, now and in every recorded state. */
  ghost predicate StaysSeeded(before: Snapshot, now: Snapshot, trace: seq<Snapshot>, from: nat,
                              runs: nat -> seq<string>, latest: Option<LatestRun>)
  {
    && (QueueSeeded(before) ==> QueueSeeded(now) && AllQueueSeeded(trace, from))
    && (QueueSeeded(before) && SeedSound(before, runs) && IsLatest(latest, runs) ==>
          SeedSound(now, runs) && AllSeedSound(trace, from, runs))
  }

  /** An id that no batch of `log` may lose stays queued or persisted, now and in every recorded state. */
  ghost predicate StaysKept(before: Snapshot, now: Snapshot, trace: seq<Snapshot>, from: nat, api: Api,
                            log: seq<Attempt>)
  {
    forall id | Kept(before, api, id) && !LostIn(log, id) :: Kept(now, api, id) && KeptThroughout(trace, from, api, id)
  }

  /**
   * What a stretch of commands with the batches `log` keeps, from `before` to `now` with the trace from position
   * `from`: seeded ids are never forgotten, none is queued twice, none is lost but those a batch may lose, and the
   * seeds stay sound.
   */
  ghost predicate Keeps(before: Snapshot, now: Snapshot, trace: seq<Snapshot>, from: nat, api: Api,
                        runs: nat -> seq<string>, latest: Option<LatestRun>, log: seq<Attempt>)
  {
    && SeededGrows(before, now, trace, from) && StaysDistinct(before, now, trace, from)
    && StaysSeeded(before, now, trace, from, runs, latest) && StaysKept(before, now, trace, from, api, log)
  }

  /** One batch that was processed: what was claimed, what the streams delivered, and how the save ended. */
  datatype Attempt = Attempt(before: Snapshot, batch: seq<string>, items: seq<Item>, run: nat, outcome: Outcome,
                             after: Snapshot)

  /**
   * A batch can lose a finished id in two ways only: the id shares its suffix with a failed one, or a removal
   * from the queue takes effect, reports an error to the end, and the run is rolled back.
   */
  ghost predicate MayLose(a: Attempt, id: string) {
    if a.outcome.Finished? then Clashes(a.batch, a.items, id)
    else a.before.torn < a.after.torn && id in Successful(a.batch, a.items)
  }

  ghost predicate LostIn(log: seq<Attempt>, id: string) {
    exists a :: a in log && MayLose(a, id)
  }

  ghost predicate AnyLossy(log: seq<Attempt>) {
    exists id :: LostIn(log, id)
  }

  /** `SELECT DISTINCT ... NOT IN (queue)`. */
  function Unseen(ids: seq<string>, queue: seq<string>): seq<string> {
    KeysOf(WithoutQueued(ids, queue), Self)
  }

  lemma UnseenMeaning(ids: seq<string>, queue: seq<string>)
    ensures Distinct(Unseen(ids, queue))
    ensures forall id :: id in Unseen(ids, queue) <==> id in ids && id !in queue
    ensures Distinct(queue) ==> Distinct(queue + Unseen(ids, queue))
  {
    KeysDistinct(WithoutQueued(ids, queue), Self);
    WithoutQueuedMembers(ids, queue);
    forall id ensures id in Unseen(ids, queue) <==> id in ids && id !in queue {
      KeysMembers(WithoutQueued(ids, queue), id);
    }
    var all := queue + Unseen(ids, queue);
    forall i, j | 0 <= i < j < |all| && Distinct(queue) ensures all[i] != all[j] {
      if i < |queue| <= j {
        assert all[i] in queue && all[j] in Unseen(ids, queue);
      }
    }
  }

  /** The match ids a seeding may put into the queue. */
  function Sources(latest: Option<LatestRun>): seq<string> {
    if latest.Some? then latest.value.matchIds else []
  }

  /** The queue once seeding has succeeded. */
  function SeededQueue(snap: Snapshot, latest: Option<LatestRun>): seq<string> {
    if latest.None? || snap.seedAnchor == Some(latest.value.run) then snap.queue
    else snap.queue + Unseen(latest.value.matchIds, snap.queue)
  }

  /** From `before` to `after` nothing but seeding has happened, of ids among `sources`. */
  ghost predicate OnlySeeded(before: Snapshot, after: Snapshot, sources: seq<string>) {
    && after.tables == before.tables && after.torn == before.torn && before.queue <= after.queue
    && before.seeded <= after.seeded
    && forall id <- after.queue :: id in before.queue || (id in sources && id in after.seeded)
  }

  /** The queue is as before, or the unseen ids have been put behind it and noted as seeded. */
  ghost predicate UnseenQueued(before: Snapshot, snap: Snapshot, ids: seq<string>, queued: bool) {
    var added := if queued then Unseen(ids, before.queue) else [];
    snap.queue == before.queue + added && snap.seeded == before.seeded + set id | id in added
  }

  /** A state during seeding: the anchor names the run only once its unseen ids are queued. */
  ghost predicate SeedState(before: Snapshot, snap: Snapshot, latest: LatestRun) {
    && snap.tables == before.tables && snap.torn == before.torn
    && (UnseenQueued(before, snap, latest.matchIds, false) || UnseenQueued(before, snap, latest.matchIds, true))
    && (snap.seedAnchor == before.seedAnchor
        || (snap.seedAnchor == Some(latest.run) && UnseenQueued(before, snap, latest.matchIds, true)))
  }

  /** Queuing unseen ids is safe at once, before any anchor is written. */
  lemma SeedStateKeeps(before: Snapshot, snap: Snapshot, latest: LatestRun, api: Api)
    requires SeedState(before, snap, latest)
    ensures Distinct(before.queue) ==> Distinct(snap.queue)
    ensures QueueSeeded(before) ==> QueueSeeded(snap)
    ensures forall id | Kept(before, api, id) :: Kept(snap, api, id)
  {
    UnseenMeaning(latest.matchIds, before.queue);
  }

  lemma SeedStateSound(before: Snapshot, snap: Snapshot, latest: LatestRun, runs: nat -> seq<string>)
    requires SeedState(before, snap, latest) && QueueSeeded(before) && latest.matchIds == runs(latest.run)
    requires SeedSound(before, runs)
    ensures SeedSound(snap, runs)
  {
    UnseenMeaning(latest.matchIds, before.queue);
  }

  lemma SeedStateSeeds(before: Snapshot, snap: Snapshot, latest: LatestRun)
    requires SeedState(before, snap, latest)
    ensures OnlySeeded(before, snap, latest.matchIds)
  {
    UnseenMeaning(latest.matchIds, before.queue);
  }

  lemma SeedKeeps(before: Snapshot, now: Snapshot, trace: seq<Snapshot>, from: nat, api: Api,
                  runs: nat -> seq<string>, latest: LatestRun)
    requires SeedState(before, now, latest)
    requires forall k | from <= k < |trace| :: SeedState(before, trace[k], latest) && trace[k].seeded == now.seeded
    ensures Keeps(before, now, trace, from, api, runs, Some(latest), [])
  {
    SeedStateKeeps(before, now, latest, api);
    forall k | from <= k < |trace| {
      SeedStateKeeps(before, trace[k], latest, api);
    }
    if QueueSeeded(before) && SeedSound(before, runs) && IsLatest(Some(latest), runs) {
      SeedStateSound(before, now, latest, runs);
      forall k | from <= k < |trace| ensures SeedSound(trace[k], runs) {
        SeedStateSound(before, trace[k], latest, runs);
      }
    }
  }

  /** Queue the unseen ids, then write the anchor. */
  method SeedRun(store: Store, latest: LatestRun, ghost api: Api, ghost runs: nat -> seq<string>) returns (ok: bool)
    requires store.Valid() && Distinct(store.queue)
    modifies store
    ensures store.Valid() && Distinct(store.queue) && old(store.trace) <= store.trace
    ensures Keeps(old(store.Now()), store.Now(), store.trace, |old(store.trace)|, api, runs, Some(latest), [])
    ensures OnlySeeded(old(store.Now()), store.Now(), latest.matchIds)
    ensures store.faults == old(store.faults) + if ok then 0 else 1
    ensures ok ==>
      && store.seedAnchor == Some(latest.run)
      && store.queue == old(store.queue) + Unseen(latest.matchIds, old(store.queue))
      && forall id <- latest.matchIds :: id in store.queue
  {
    ghost var before, from := store.Now(), |store.trace|;
    var rows := Unseen(latest.matchIds, store.queue);
    UnseenMeaning(latest.matchIds, store.queue);
    NothingAdded(store.queue);
    ok := true;
    if rows != [] {
      ok := store.InsertQueued(rows);
    }
    if ok {
      ok := store.InsertSeedAnchor(latest.run);
    }
    SeedStateSeeds(before, store.Now(), latest);
    SeedKeeps(before, store.Now(), store.trace, from, api, runs, latest);
  }

  /**
   * `seed_from_latest_matchids`. The queue insert comes before the seed anchor; a crash between the two
   * only means that the next start seeds again, and ids already queued are not queued twice.
   */
  method Seed(store: Store, latest: Option<LatestRun>, ghost api: Api, ghost runs: nat -> seq<string>)
    returns (ok: bool)
    requires store.Valid() && Distinct(store.queue)
    modifies store
    ensures store.Valid() && Distinct(store.queue) && old(store.trace) <= store.trace
    ensures Keeps(old(store.Now()), store.Now(), store.trace, |old(store.trace)|, api, runs, latest, [])
    ensures OnlySeeded(old(store.Now()), store.Now(), Sources(latest))
    ensures store.faults == old(store.faults) + if ok then 0 else 1
    ensures ok ==> store.queue == SeededQueue(old(store.Now()), latest)
    ensures ok && latest.Some? ==> store.seedAnchor == Some(latest.value.run)
    ensures ok && latest.Some? && old(store.seedAnchor) != Some(latest.value.run) ==>
      forall id <- latest.value.matchIds :: id in store.queue
    ensures latest.None? || old(store.seedAnchor) == Some(latest.value.run) ==>
      ok && store.Now() == old(store.Now()) && store.trace == old(store.trace)
  {
    if latest.None? || store.seedAnchor == Some(latest.value.run) {
      return true;
    }
    ok := SeedRun(store, latest.value, api, runs);
  }

  /** `MatchDataLoader`: seeds once, on the first load, and claims. */
  class Loader {
    const batchSize: int
    var initialized: bool

    constructor (batchSize: int)
      ensures this.batchSize == batchSize && !initialized
    {
      this.batchSize := batchSize;
      initialized := false;
    }

    /** `None`: seeding or claiming raised, because of a failed command or a batch size that is not positive. */
    method Load(store: Store, latest: Option<LatestRun>, hash: string -> nat, ghost api: Api,
                ghost runs: nat -> seq<string>)
      returns (claimed: Option<seq<string>>)
      requires store.Valid() && Distinct(store.queue)
      modifies this, store
      ensures store.Valid() && Distinct(store.queue) && old(store.trace) <= store.trace
      ensures Keeps(old(store.Now()), store.Now(), store.trace, |old(store.trace)|, api, runs, latest, [])
      ensures OnlySeeded(old(store.Now()), store.Now(), Sources(latest))
      ensures claimed.Some? <==> batchSize > 0 && store.faults == old(store.faults)
      ensures claimed.Some? ==> initialized
      ensures old(store.faults) <= store.faults
      ensures claimed.Some? ==> claimed.value == Deduped(ClaimQuery(store.queue, batchSize, hash))
      ensures claimed.Some? && !old(initialized) ==> store.queue == SeededQueue(old(store.Now()), latest)
      ensures old(initialized) ==> store.Now() == old(store.Now()) && store.trace == old(store.trace) && initialized
      ensures claimed.Some? && !old(initialized) && latest.Some? && old(store.seedAnchor) != Some(latest.value.run) ==>
        forall id <- latest.value.matchIds :: id in store.queue
    {
      if !initialized {
        var ok := Seed(store, latest, api, runs);
        if !ok {
          return None;
        }
        initialized := true;
      }
      var ids := ClaimPending(store.queue, batchSize, hash);
      claimed := if ids.Ok? then Some(ids.value) else None;
    }
  }

  // ----- Fetching -----

  /** The answers of the API for `ids`, in order. */
  function Answers(api: Api, stream: Stream, ids: seq<string>): seq<Payload> {
    seq(|ids|, i requires 0 <= i < |ids| => api(stream, ids[i]))
  }

  /** What becomes of a request: a document arrives, the answer is no document, or the request raises. */
  datatype Reply = DocumentSent | NothingSent | RequestRaises

  /** How the network answers during one run. */
  type Net = (Stream, string) -> Reply

  /** The places where one batch looks at the stop flag, by the number of documents collected or saved before. */
  datatype Check = BatchStart | CollectStart(stream: Stream) | Collecting(stream: Stream, k: nat) | Saving(k: nat)

  /** Where the stop flag is seen up during one run. */
  type Stops = Check -> bool

  function Sends(net: Net, stream: Stream): string -> bool {
    (id: string) => net(stream, id).DocumentSent?
  }

  /** The documents that arrive for `ids`, in order. */
  function Sent(api: Api, net: Net, stream: Stream, ids: seq<string>): seq<Payload> {
    Answers(api, stream, Filter(ids, Sends(net, stream)))
  }

  lemma SentPrefix(api: Api, net: Net, stream: Stream, ids: seq<string>, i: nat)
    requires i <= |ids|
    ensures Sent(api, net, stream, ids[..i]) <= Sent(api, net, stream, ids)
  {
    assert ids == ids[..i] + ids[i..];
    FilterConcat(ids[..i], ids[i..], Sends(net, stream));
  }

  lemma SentNext(api: Api, net: Net, stream: Stream, ids: seq<string>, i: nat)
    requires i < |ids|
    ensures Sent(api, net, stream, ids[..i + 1])
            == Sent(api, net, stream, ids[..i])
             + if net(stream, ids[i]).DocumentSent? then [api(stream, ids[i])] else []
  {
    assert ids[..i + 1][..i] == ids[..i];
  }

  /** The first loop of `yield_match_data`: is there an id whose shard is unknown? */
  method HasUnknownShard(ids: seq<string>) returns (unknown: bool)
    ensures unknown <==> exists id <- ids :: ContinentOf(id).Unknown?
  {
    for i := 0 to |ids|
      invariant forall j | 0 <= j < i :: !ContinentOf(ids[j]).Unknown?
    {
      if ContinentOf(ids[i]).Unknown? {
        return true;
      }
    }
    return false;
  }

  /** Some request for these ids raises. */
  ghost predicate RequestFails(net: Net, stream: Stream, ids: seq<string>) {
    exists id :: id in ids && net(stream, id).RequestRaises?
  }

  /** The stop flag is seen up before the first or before one of `n` documents of a stream. */
  ghost predicate StopsCollecting(stops: Stops, stream: Stream, n: nat) {
    stops(CollectStart(stream)) || exists k: nat | k < n :: stops(Collecting(stream, k))
  }

  /** The task group of one chunk: it raises if any of its requests does. */
  method SomeRaise(net: Net, stream: Stream, ids: seq<string>) returns (raised: bool)
    ensures raised <==> RequestFails(net, stream, ids)
  {
    for i := 0 to |ids|
      invariant !RequestFails(net, stream, ids[..i])
    {
      assert ids[..i + 1] == ids[..i] + [ids[i]];
      if net(stream, ids[i]).RequestRaises? {
        return true;
      }
    }
    assert ids[..|ids|] == ids;
    return false;
  }

  /** Requests in flight at a time. */
  const MAX_IN_FLIGHT := 64

  /**
   * The requests chunk by chunk, and the loop of the collector around them. Either every document that the
   * network sends is delivered, or a request raises or a stop is requested, and the first of them are.
   */
  method Request(api: Api, net: Net, stops: Stops, stream: Stream, ids: seq<string>)
    returns (raws: seq<Payload>, raised: bool)
    requires !stops(CollectStart(stream))
    ensures raws <= Sent(api, net, stream, ids) && (!raised ==> raws == Sent(api, net, stream, ids))
    ensures raised <==>
      RequestFails(net, stream, ids) || StopsCollecting(stops, stream, |Sent(api, net, stream, ids)|)
  {
    raws := [];
    var start := 0;
    while start < |ids|
      invariant start <= |ids| && raws == Sent(api, net, stream, ids[..start])
      invariant !RequestFails(net, stream, ids[..start]) && !StopsCollecting(stops, stream, |raws|)
    {
      SentPrefix(api, net, stream, ids, start);
      var next := if start + MAX_IN_FLIGHT <= |ids| then start + MAX_IN_FLIGHT else |ids|;
      raised := SomeRaise(net, stream, ids[start..next]);
      if raised {
        return;
      }
      var stopped;
      raws, stopped := DeliverChunk(api, net, stops, stream, ids, start, next, raws);
      if stopped {
        return raws, true;
      }
      assert ids[..next] == ids[..start] + ids[start..next];
      start := next;
    }
    assert ids[..|ids|] == ids;
    raised := false;
  }

  /** The documents of one chunk, one by one; `before` has been delivered already. */
  method DeliverChunk(api: Api, net: Net, stops: Stops, stream: Stream, ids: seq<string>, start: nat, next: nat,
                      before: seq<Payload>)
    returns (raws: seq<Payload>, stopped: bool)
    requires start <= next <= |ids| && before == Sent(api, net, stream, ids[..start])
    requires !StopsCollecting(stops, stream, |before|)
    ensures raws <= Sent(api, net, stream, ids)
    ensures stopped ==> StopsCollecting(stops, stream, |Sent(api, net, stream, ids)|)
    ensures !stopped ==> raws == Sent(api, net, stream, ids[..next]) && !StopsCollecting(stops, stream, |raws|)
  {
    raws, stopped := before, false;
    for i := start to next
      invariant raws == Sent(api, net, stream, ids[..i]) && !StopsCollecting(stops, stream, |raws|)
    {
      SentNext(api, net, stream, ids, i);
      SentPrefix(api, net, stream, ids, i + 1);
      if net(stream, ids[i]).DocumentSent? {
        if stops(Collecting(stream, |raws|)) {
          return raws, true;
        }
        raws := raws + [api(stream, ids[i])];
      }
    }
    SentPrefix(api, net, stream, ids, next);
  }

  lemma SpreadMembers(batch: seq<string>, id: string)
    ensures id in Spread(batch, ContinentOf) <==> id in batch
  {
    SpreadPermutes(batch, ContinentOf);
    assert id in Spread(batch, ContinentOf) <==> id in multiset(Spread(batch, ContinentOf));
    assert id in batch <==> id in multiset(batch);
  }

  /** What stops a stream: an id without a platform, a request that raises, or a stop request. */
  ghost predicate CollectFails(api: Api, net: Net, stops: Stops, stream: Stream, batch: seq<string>) {
    || (exists id <- batch :: !OnPlatform(id))
    || RequestFails(net, stream, batch)
    || StopsCollecting(stops, stream, |Sent(api, net, stream, Spread(batch, ContinentOf))|)
  }

  ghost predicate FetchFails(api: Api, net: Net, stops: Stops, batch: seq<string>) {
    CollectFails(api, net, stops, NonTimeline, batch) || CollectFails(api, net, stops, Timeline, batch)
  }

  lemma UnknownShards(batch: seq<string>)
    ensures (exists id <- batch :: ContinentOf(id).Unknown?) <==> exists id <- batch :: !OnPlatform(id)
  {
    forall id: string ensures ContinentOf(id).Unknown? <==> !OnPlatform(id) {
      ContinentExactly(id);
    }
  }

  lemma SpreadRequestFails(net: Net, stream: Stream, batch: seq<string>)
    ensures RequestFails(net, stream, Spread(batch, ContinentOf)) <==> RequestFails(net, stream, batch)
  {
    forall id: string { SpreadMembers(batch, id); }
  }

  /**
   * `collect` with `yield_match_data`: one stream's documents, in spread order. An unknown shard raises before
   * anything is fetched; unless the stream fails, exactly the documents that the network sends are delivered.
   */
  method Collect(api: Api, net: Net, stops: Stops, stream: Stream, batch: seq<string>)
    returns (raws: seq<Payload>, raised: bool)
    ensures raised <==> CollectFails(api, net, stops, stream, batch)
    ensures (exists id <- batch :: !OnPlatform(id)) ==> raws == []
    ensures raws <= Sent(api, net, stream, Spread(batch, ContinentOf))
    ensures !raised ==> raws == Sent(api, net, stream, Spread(batch, ContinentOf))
  {
    if stops(CollectStart(stream)) {
      return [], true;
    }
    var unknown := HasUnknownShard(batch);
    UnknownShards(batch);
    if unknown {
      return [], true;
    }
    var spread := Spreading.Spreading(batch, ContinentOf);
    raws, raised := Request(api, net, stops, stream, spread);
    SpreadRequestFails(net, stream, batch);
  }

  /** A document arrives exactly for the ids of the batch that the network sends one for. */
  lemma SentMembers(api: Api, net: Net, stream: Stream, batch: seq<string>, raw: Payload)
    ensures raw in Sent(api, net, stream, Spread(batch, ContinentOf)) <==>
      exists id :: id in batch && net(stream, id).DocumentSent? && raw == api(stream, id)
  {
    var spread := Spread(batch, ContinentOf);
    var ids := Filter(spread, Sends(net, stream));
    forall id: string ensures id in ids <==> id in batch && net(stream, id).DocumentSent? {
      SpreadMembers(batch, id);
      FilterMembers(spread, Sends(net, stream), id);
    }
    if raw in Answers(api, stream, ids) {
      var i :| 0 <= i < |ids| && Answers(api, stream, ids)[i] == raw;
      assert ids[i] in batch;
    }
    if id :| id in batch && net(stream, id).DocumentSent? && raw == api(stream, id) {
      assert id in ids;
      var i :| 0 <= i < |ids| && ids[i] == id;
      assert Answers(api, stream, ids)[i] == raw;
    }
  }

  /** `combine_streams` buffers at most this many documents. */
  const MAX_BUFFER := 3000

  /** What each stream delivers: the first of the documents that arrive for it, all of them if nothing fails. */
  ghost predicate Collected(inputs: Inputs<Payload>, api: Api, net: Net, batch: seq<string>, complete: bool) {
    forall stream :: CollectedFrom(inputs(stream), api, net, stream, batch, complete)
  }

  ghost predicate CollectedFrom(raws: seq<Payload>, api: Api, net: Net, stream: Stream, batch: seq<string>,
                                complete: bool)
  {
    var sent := Sent(api, net, stream, Spread(batch, ContinentOf));
    raws <= sent && (complete ==> raws == sent)
  }

  lemma BothCollected(inputs: Inputs<Payload>, api: Api, net: Net, batch: seq<string>, complete: bool)
    requires CollectedFrom(inputs(NonTimeline), api, net, NonTimeline, batch, complete)
    requires CollectedFrom(inputs(Timeline), api, net, Timeline, batch, complete)
    ensures Collected(inputs, api, net, batch, complete)
  {
    forall stream ensures CollectedFrom(inputs(stream), api, net, stream, batch, complete) {
      match stream
      case NonTimeline =>
      case Timeline =>
    }
  }

  lemma MergedFromApi(inputs: Inputs<Payload>, items: seq<Item>, api: Api, net: Net, batch: seq<string>)
    requires WellFormed(api) && Collected(inputs, api, net, batch, false) && Yields(inputs, MAX_BUFFER, items, false)
    ensures FromApi(items, api, batch)
  {
    forall item <- items
      ensures item.raw.matchId in batch && item == Document(api, item.stream, item.raw.matchId)
    {
      YieldsMembers(inputs, MAX_BUFFER, items, item);
      SentMembers(api, net, item.stream, batch, item.raw);
      var id :| id in batch && item.raw == api(item.stream, id);
      assert Document(api, item.stream, id).raw.matchId == id;
    }
  }

  /** The streams delivered exactly the documents that the network sends for the batch. */
  ghost predicate DeliversAll(items: seq<Item>, net: Net, batch: seq<string>) {
    forall id, stream ::
      Delivered(items, id, stream) <==> id != "unknown" && id in batch && net(stream, id).DocumentSent?
  }

  lemma MergedDelivers(inputs: Inputs<Payload>, items: seq<Item>, api: Api, net: Net, batch: seq<string>)
    requires WellFormed(api) && Collected(inputs, api, net, batch, true) && Yields(inputs, MAX_BUFFER, items, true)
    ensures DeliversAll(items, net, batch)
  {
    forall id, stream
      ensures Delivered(items, id, stream) <==> id != UNKNOWN_ID && id in batch && net(stream, id).DocumentSent?
    {
      MergedMembers(inputs, items, stream);
      SentMembers(api, net, stream, batch, api(stream, id));
      assert Document(api, stream, id).raw.matchId == id;
      if item :| item in items && item.stream == stream && item.raw.matchId == id {
        SentMembers(api, net, stream, batch, item.raw);
        var other :| other in batch && net(stream, other).DocumentSent? && item.raw == api(stream, other);
        assert Document(api, stream, other).raw.matchId == other;
      }
    }
  }

  /** A complete merge yields exactly what its streams deliver. */
  lemma MergedMembers(inputs: Inputs<Payload>, items: seq<Item>, stream: Stream)
    requires Yields(inputs, MAX_BUFFER, items, true)
    ensures forall raw :: StreamItem(stream, raw) in items <==> raw in inputs(stream)
  {
    YieldsMerge(inputs, MAX_BUFFER, items, stream);
    var own := Bucket(items, StreamOf(), stream);
    forall raw ensures StreamItem(stream, raw) in items <==> raw in inputs(stream) {
      BucketCount(items, StreamOf(), StreamItem(stream, raw));
      assert StreamItem(stream, raw) in items <==> StreamItem(stream, raw) in multiset(items);
      assert StreamItem(stream, raw) in own <==> StreamItem(stream, raw) in multiset(own);
      if StreamItem(stream, raw) in own {
        var i :| 0 <= i < |own| && own[i] == StreamItem(stream, raw);
        assert inputs(stream)[i] == raw;
      }
      if raw in inputs(stream) {
        var i :| 0 <= i < |inputs(stream)| && inputs(stream)[i] == raw;
        assert own[i] == StreamItem(stream, raw);
      }
    }
  }

  /**
   * Both streams, merged by `combine_streams`; a raising stream may cut the merge short. Unless one does, exactly
   * the documents that the network sends are delivered.
   */
  method Fetch(api: Api, net: Net, stops: Stops, batch: seq<string>)
    returns (items: seq<Item>, raised: bool, ghost inputs: Inputs<Payload>)
    requires WellFormed(api)
    ensures Collected(inputs, api, net, batch, !raised) && Yields(inputs, MAX_BUFFER, items, !raised)
    ensures raised <==> FetchFails(api, net, stops, batch)
    ensures FromApi(items, api, batch) && (!raised ==> DeliversAll(items, net, batch))
  {
    var nonTimeline, raised1 := Collect(api, net, stops, NonTimeline, batch);
    var timeline, raised2 := Collect(api, net, stops, Timeline, batch);
    raised := raised1 || raised2;
    var both: Inputs<Payload> := (stream: Stream) => if stream.NonTimeline? then nonTimeline else timeline;
    inputs := both;
    BothCollected(inputs, api, net, batch, !raised);
    items := Combine(both, MAX_BUFFER, raised);
    MergedFromApi(inputs, items, api, net, batch);
    if !raised {
      MergedDelivers(inputs, items, api, net, batch);
    }
  }

  // ----- Runs are fresh -----

  /** Only runs before `run` have rows. */
  ghost predicate RunsBelow(tables: map<Table, seq<Row>>, run: nat) {
    Total(tables) && forall t: Table :: BelowIn(tables[t], run)
  }

  ghost predicate BelowIn(rows: seq<Row>, run: nat) {
    forall r <- rows :: r.run < run
  }

  lemma BelowIsFresh(tables: map<Table, seq<Row>>, run: nat)
    requires RunsBelow(tables, run)
    ensures Fresh(tables, run)
  {
    forall t: Table ensures WithoutRun(tables[t], run) == tables[t] {
      assert BelowIn(tables[t], run);
      FilterAll(tables[t], OtherRuns(run));
    }
  }

  lemma BelowNext(base: map<Table, seq<Row>>, tables: map<Table, seq<Row>>, run: nat)
    requires RunsBelow(base, run) && Total(tables)
    requires forall t: Table :: WithoutRun(tables[t], run) == base[t]
    ensures RunsBelow(tables, run + 1)
  {
    forall t: Table ensures BelowIn(tables[t], run + 1) {
      assert BelowIn(base[t], run);
      WithoutRunMembers(tables[t], run);
    }
  }

  // ----- One batch -----

  /** A batch seeds nothing: ids only leave the queue. */
  ghost predicate SameSeeds(snap: Snapshot, start: Snapshot) {
    snap.seeded == start.seeded && snap.seedAnchor == start.seedAnchor && forall id <- snap.queue :: id in start.queue
  }

  lemma BatchKeeps(a: Attempt, trace: seq<Snapshot>, from: nat, api: Api, runs: nat -> seq<string>,
                   latest: Option<LatestRun>)
    requires SameSeeds(a.after, a.before) && forall k | from <= k < |trace| :: SameSeeds(trace[k], a.before)
    requires StaysDistinct(a.before, a.after, trace, from)
    requires forall id | Kept(a.before, api, id) && !MayLose(a, id) ::
               Kept(a.after, api, id) && KeptThroughout(trace, from, api, id)
    ensures Keeps(a.before, a.after, trace, from, api, runs, latest, [a])
  {
    assert a in [a];
  }

  ghost predicate Succeeded(a: Attempt) {
    a.outcome.Finished? && Failed(a.batch, a.items) == []
  }

  /** Exactly this batch was fetched and saved. */
  ghost predicate Performed(a: Attempt, api: Api) {
    && a.batch != [] && FromApi(a.items, api, a.batch)
    && SaveEnded(a.before, a.after, a.outcome, a.items, a.batch, a.run, false)
  }

  /** The checks of the stop flag in `save`. */
  function SavingStops(stops: Stops): nat -> bool { (k: nat) => stops(Saving(k)) }

  /** The stop flag is seen up before one of the first `n` documents is saved. */
  ghost predicate StopsSaving(stops: Stops, n: nat) {
    exists k: nat | k < n :: stops(Saving(k))
  }

  lemma SavingStopped(stops: Stops, n: nat)
    ensures Stopped(SavingStops(stops), n) <==> StopsSaving(stops, n)
  {
    if StopsSaving(stops, n) {
      var k: nat :| k < n && stops(Saving(k));
      assert SavingStops(stops)(k);
    }
  }

  /** The number of documents that arrive for both streams. */
  function SentCount(api: Api, net: Net, batch: seq<string>): nat {
    |Sent(api, net, NonTimeline, Spread(batch, ContinentOf))| + |Sent(api, net, Timeline, Spread(batch, ContinentOf))|
  }

  /** Run `run` can save this batch: no stream fails, what arrives can be parsed, and no stop is requested meanwhile. */
  ghost predicate Deliverable(on: Setting, batch: seq<string>, run: nat) {
    && !FetchFails(on.api, on.net(run), on.stop(run), batch)
    && (forall id, stream | id in batch && on.net(run)(stream, id).DocumentSent? :: on.api(stream, id).tables.Some?)
    && !StopsSaving(on.stop(run), SentCount(on.api, on.net(run), batch))
  }

  lemma {:induction false} BothBuckets(items: seq<Item>)
    ensures |items| == |Bucket(items, StreamOf(), NonTimeline)| + |Bucket(items, StreamOf(), Timeline)|
  {
    if items != [] {
      var init, last := items[..|items| - 1], items[|items| - 1];
      BothBuckets(init);
      assert items == init + [last];
      BucketConcat(init, [last], StreamOf(), NonTimeline);
      BucketConcat(init, [last], StreamOf(), Timeline);
      BucketUniform([last], StreamOf(), last.stream, NonTimeline);
      BucketUniform([last], StreamOf(), last.stream, Timeline);
      assert last.stream == NonTimeline || last.stream == Timeline;
    }
  }

  lemma MergedCount(inputs: Inputs<Payload>, items: seq<Item>, api: Api, net: Net, batch: seq<string>)
    requires Collected(inputs, api, net, batch, true) && Yields(inputs, MAX_BUFFER, items, true)
    ensures |items| == SentCount(api, net, batch)
  {
    BothBuckets(items);
    YieldsMerge(inputs, MAX_BUFFER, items, NonTimeline);
    YieldsMerge(inputs, MAX_BUFFER, items, Timeline);
  }

  lemma MergedParsed(inputs: Inputs<Payload>, items: seq<Item>, api: Api, net: Net, batch: seq<string>)
    requires Collected(inputs, api, net, batch, true) && Yields(inputs, MAX_BUFFER, items, true)
    ensures AllParsed(items) <==>
      forall id, stream | id in batch && net(stream, id).DocumentSent? :: api(stream, id).tables.Some?
  {
    if AllParsed(items) {
      forall id, stream | id in batch && net(stream, id).DocumentSent? ensures api(stream, id).tables.Some? {
        SentMembers(api, net, stream, batch, api(stream, id));
        MergedMembers(inputs, items, stream);
        assert StreamItem(stream, api(stream, id)) in items;
      }
    } else {
      var item :| item in items && item.raw.tables.None?;
      MergedMembers(inputs, items, item.stream);
      assert item == StreamItem(item.stream, item.raw);
      SentMembers(api, net, item.stream, batch, item.raw);
    }
  }

  /** What breaks a save is known from the batch, the network and the stop flag. */
  lemma BrokenExactly(on: Setting, batch: seq<string>, run: nat, inputs: Inputs<Payload>, items: seq<Item>,
                      raised: bool)
    requires Collected(inputs, on.api, on.net(run), batch, !raised) && Yields(inputs, MAX_BUFFER, items, !raised)
    requires raised <==> FetchFails(on.api, on.net(run), on.stop(run), batch)
    ensures Broken(items, raised, SavingStops(on.stop(run))) <==> !Deliverable(on, batch, run)
  {
    if !raised {
      MergedCount(inputs, items, on.api, on.net(run), batch);
      MergedParsed(inputs, items, on.api, on.net(run), batch);
      SavingStopped(on.stop(run), |items|);
    }
  }

  /** Both documents of this id arrive in run `run`, and their parser accepts them. */
  ghost predicate Smooth(on: Setting, id: string, run: nat) {
    OnPlatform(id)
    && Arrives(on, id, run, NonTimeline) && Arrives(on, id, run, Timeline)
  }

  predicate Arrives(on: Setting, id: string, run: nat, stream: Stream) {
    on.net(run)(stream, id).DocumentSent? && on.api(stream, id).tables.Some?
  }

  lemma SmoothStream(on: Setting, batch: seq<string>, run: nat, stream: Stream)
    requires (forall id <- batch :: Smooth(on, id, run)) && forall check :: !on.stop(run)(check)
    ensures forall id <- batch :: Arrives(on, id, run, stream)
    ensures !CollectFails(on.api, on.net(run), on.stop(run), stream, batch)
  {
    forall id <- batch ensures Arrives(on, id, run, stream) {
      assert Smooth(on, id, run);
      match stream
      case NonTimeline =>
      case Timeline =>
    }
  }

  lemma SmoothIsDeliverable(on: Setting, batch: seq<string>, run: nat)
    requires (forall id <- batch :: Smooth(on, id, run)) && forall check :: !on.stop(run)(check)
    ensures Deliverable(on, batch, run)
  {
    SmoothStream(on, batch, run, NonTimeline);
    SmoothStream(on, batch, run, Timeline);
    forall id, stream | id in batch && on.net(run)(stream, id).DocumentSent? ensures on.api(stream, id).tables.Some? {
      SmoothStream(on, batch, run, stream);
      assert Arrives(on, id, run, stream);
    }
  }

  lemma UnknownIsNoPlatform()
    ensures !OnPlatform("unknown")
  {
    NotAPlatform("unknown");
  }

  /** A platform name has two to four characters, and ends the id or is followed by an underscore. */
  lemma NotAPlatform(id: string)
    requires |id| > 4 && id[2] != '_' && id[3] != '_' && id[4] != '_'
    ensures !OnPlatform(id)
  {
    forall c, p | p in PlatformsOf(c) ensures !NamesPlatform(id, p) {
      PlatformSize(c, p);
    }
  }

  lemma PlatformSize(c: Continent, p: string)
    requires p in PlatformsOf(c)
    ensures 2 <= |p| <= 4
  {
  }

  lemma SmoothSucceeds(on: Setting, a: Attempt)
    requires (forall id <- a.batch :: Smooth(on, id, a.run)) && DeliversAll(a.items, on.net(a.run), a.batch)
    ensures Failed(a.batch, a.items) == []
  {
    forall id <- a.batch ensures !IncompleteIn(a.items)(id) {
      UnknownIsNoPlatform();
      assert Delivered(a.items, id, NonTimeline) && Delivered(a.items, id, Timeline);
    }
    FilterNone(a.batch, IncompleteIn(a.items));
  }

  /**
   * What the network has to do with an attempt: it finishes only if the batch can be delivered, and then the
   * documents are those that the network sends.
   */
  ghost predicate Answered(a: Attempt, on: Setting) {
    a.outcome.Finished? ==> Deliverable(on, a.batch, a.run) && DeliversAll(a.items, on.net(a.run), a.batch)
  }

  /**
   * Fetch and save one claimed batch as run `run`. A batch that can be delivered is finished, unless some command
   * fails eight times; and if both documents of every id arrive, all of it succeeds.
   */
  method ProcessBatch(store: Store, on: Setting, batch: seq<string>, run: nat, saverBatch: nat,
                      ghost runs: nat -> seq<string>, ghost latest: Option<LatestRun>)
    returns (outcome: Outcome, ghost a: Attempt)
    requires WellFormed(on.api) && saverBatch > 0 && batch != []
    requires store.Valid() && RunsBelow(store.tables, run) && Distinct(store.queue)
    modifies store
    ensures store.Valid() && RunsBelow(store.tables, run + 1) && Distinct(store.queue)
    ensures old(store.trace) <= store.trace
    ensures a == Attempt(old(store.Now()), batch, a.items, run, outcome, store.Now())
    ensures Performed(a, on.api) && Answered(a, on)
    ensures Keeps(old(store.Now()), store.Now(), store.trace, |old(store.trace)|, on.api, runs, latest, [a])
    ensures Succeeded(a) ==> store.queue == WithoutQueued(old(store.queue), Deduped(batch))
    ensures ("" in store.queue) == ("" in old(store.queue)) && forall id <- store.queue :: id in old(store.queue)
    ensures old(store.faults) <= store.faults
    ensures !outcome.Finished? ==>
      !Deliverable(on, batch, run) || old(store.faults) + 8 <= store.faults
    ensures outcome.Finished? && (forall id <- batch :: Smooth(on, id, run)) ==> Succeeded(a)
  {
    BelowIsFresh(store.tables, run);
    var items, raised;
    ghost var inputs;
    items, raised, inputs := Fetch(on.api, on.net(run), on.stop(run), batch);
    BrokenExactly(on, batch, run, inputs, items, raised);
    ghost var start, from, faults := store.Now(), |store.trace|, store.faults;
    outcome := Save(store, items, raised, SavingStops(on.stop(run)), batch, run, saverBatch);
    a := Attempt(start, batch, items, run, outcome, store.Now());
    SaveEndedAnyway(start, store.Now(), outcome, items, batch, run, store.faults == faults);
    BatchAfter(a);
    BatchTraced(a, on.api, store.trace, from);
    BatchKeeps(a, store.trace, from, on.api, runs, latest);
    if outcome.Finished? && forall id <- batch :: Smooth(on, id, run) {
      SmoothSucceeds(on, a);
    }
  }

  lemma SaveEndedAnyway(start: Snapshot, now: Snapshot, outcome: Outcome, items: seq<Item>, batch: seq<string>,
                        run: nat, clean: bool)
    requires SaveEnded(start, now, outcome, items, batch, run, clean)
    ensures SaveEnded(start, now, outcome, items, batch, run, false)
  {
    if outcome.Finished? {
      var failed := Failed(batch, items);
      forall t: Table ensures TableSaved(start.tables[t], now.tables[t], Produced(items, t), failed, run, false) {
        assert TableSaved(start.tables[t], now.tables[t], Produced(items, t), failed, run, clean);
      }
    }
  }

  /** What is left of the queue after a batch. */
  lemma BatchQueue(a: Attempt)
    requires SaveEnded(a.before, a.after, a.outcome, a.items, a.batch, a.run, false)
    ensures Distinct(a.before.queue) ==> Distinct(a.after.queue)
    ensures Succeeded(a) ==> a.after.queue == WithoutQueued(a.before.queue, Deduped(a.batch))
    ensures ("" in a.after.queue) == ("" in a.before.queue)
    ensures SameSeeds(a.after, a.before)
  {
    WithoutQueuedMembers(a.before.queue, Deduped(Successful(a.batch, a.items)));
    DedupedMeaning(Successful(a.batch, a.items));
    if Failed(a.batch, a.items) == [] {
      AllSuccessful(a.batch, a.items);
    }
  }

  lemma BatchAfter(a: Attempt)
    requires SaveEnded(a.before, a.after, a.outcome, a.items, a.batch, a.run, false)
    requires RunsBelow(a.before.tables, a.run) && Distinct(a.before.queue)
    ensures RunsBelow(a.after.tables, a.run + 1) && Distinct(a.after.queue)
    ensures Succeeded(a) ==> a.after.queue == WithoutQueued(a.before.queue, Deduped(a.batch))
    ensures ("" in a.after.queue) == ("" in a.before.queue)
  {
    BatchQueue(a);
    if a.outcome.Finished? {
      forall t: Table ensures WithoutRun(a.after.tables[t], a.run) == a.before.tables[t] {
        assert TableSaved(a.before.tables[t], a.after.tables[t], Produced(a.items, t), Failed(a.batch, a.items), a.run,
                          false);
      }
    }
    BelowNext(a.before.tables, a.after.tables, a.run);
  }

  /** An id that the batch may not lose is kept in the end ... */
  lemma BatchKept(a: Attempt, api: Api, id: string)
    requires WellFormed(api) && Performed(a, api)
    requires Kept(a.before, api, id) && !MayLose(a, id)
    ensures Kept(a.after, api, id)
  {
    if a.outcome.Finished? {
      FinishedKeeps(a.before, a.after, a.items, api, a.batch, a.run, false, id);
    } else {
      UnfinishedKeeps(a, a.after, api, id);
    }
  }

  /** ... and in every state of a save that does not finish. */
  lemma UnfinishedKeeps(a: Attempt, snap: Snapshot, api: Api, id: string)
    requires SaveEnded(a.before, a.after, a.outcome, a.items, a.batch, a.run, false) && !a.outcome.Finished?
    requires Harmless(snap, WithQueueOf(a.before, a.after).(torn := snap.torn), a.run)
    requires Kept(a.before, api, id) && !MayLose(a, id)
    ensures Kept(snap, api, id)
  {
    WithoutQueuedMembers(a.before.queue, Deduped(Successful(a.batch, a.items)));
    DedupedMeaning(Successful(a.batch, a.items));
    HarmlessKeeps(snap.(queue := a.before.queue), a.before.(torn := snap.torn), a.run, api, id);
  }

  /** The states recorded while a batch is saved. */
  lemma BatchTraced(a: Attempt, api: Api, trace: seq<Snapshot>, from: nat)
    requires WellFormed(api) && Performed(a, api)
    requires SaveTraced(trace, from, a.before, a.after, a.outcome, a.run)
    ensures StaysDistinct(a.before, a.after, trace, from)
    ensures SameSeeds(a.after, a.before) && forall k | from <= k < |trace| :: SameSeeds(trace[k], a.before)
    ensures forall id | Kept(a.before, api, id) && !MayLose(a, id) ::
              Kept(a.after, api, id) && KeptThroughout(trace, from, api, id)
  {
    BatchQueue(a);
    forall id | Kept(a.before, api, id) && !MayLose(a, id)
      ensures Kept(a.after, api, id) && KeptThroughout(trace, from, api, id)
    {
      BatchKept(a, api, id);
      forall k | from <= k < |trace| ensures Kept(trace[k], api, id) {
        if Harmless(trace[k], a.before, a.run) {
          HarmlessKeeps(trace[k], a.before, a.run, api, id);
        } else if !a.outcome.Finished? {
          UnfinishedKeeps(a, trace[k], api, id);
        }
      }
    }
  }

  /** After an unfinished save a match is stored as before, or by what the save's own run has left behind. */
  lemma PersistedByOthers(before: Snapshot, after: Snapshot, run: nat, api: Api, id: string)
    requires Harmless(after, WithQueueOf(before, after), run)
    ensures Persisted(after.tables, api, id) <==>
      Persisted(before.tables, api, id) || PersistedBy(after.tables, api, id, run)
  {
    forall t: Table ensures forall r :: r in before.tables[t] <==> r in after.tables[t] && r.run != run {
      WithoutRunMembers(after.tables[t], run);
    }
    if other: nat :| PersistedBy(after.tables, api, id, other) && other != run {
      forall stream: Stream, t: Table ensures PersistedIn(before.tables, api, stream, id, other, t) {
        assert PersistedIn(after.tables, api, stream, id, other, t);
      }
      assert PersistedBy(before.tables, api, id, other);
    }
    if Persisted(before.tables, api, id) {
      PersistedGrows(before.tables, after.tables, api, id);
    }
  }

  /**
   * The other way to lose something, exactly: after a save that did not finish everything seeded is still queued
   * or stored if and only if no removal took effect in spite of its error, or each id it removed had been stored
   * by an earlier run or is, because the rollback failed as well, still stored by this one.
   */
  lemma UnfinishedIsSafeExactly(a: Attempt, api: Api)
    requires Performed(a, api) && !a.outcome.Finished? && Safe(a.before, api)
    requires forall id <- a.before.queue :: id in a.before.seeded
    ensures Safe(a.after, api) <==>
      || a.before.torn == a.after.torn
      || forall id <- Successful(a.batch, a.items) | id in a.before.queue && id != "" ::
           Persisted(a.before.tables, api, id) || PersistedBy(a.after.tables, api, id, a.run)
  {
    BatchQueue(a);
    WithoutQueuedMembers(a.before.queue, Deduped(Successful(a.batch, a.items)));
    DedupedMeaning(Successful(a.batch, a.items));
    forall id: string {
      PersistedByOthers(a.before, a.after, a.run, api, id);
    }
    if Safe(a.after, api) && a.before.torn < a.after.torn {
      forall id <- Successful(a.batch, a.items) | id in a.before.queue && id != ""
        ensures Persisted(a.after.tables, api, id)
      {
        assert Kept(a.after, api, id) && id in a.after.seeded && id !in a.after.queue;
      }
    }
    if a.before.torn == a.after.torn || forall id <- Successful(a.batch, a.items) | id in a.before.queue && id != "" ::
         Persisted(a.before.tables, api, id) || PersistedBy(a.after.tables, api, id, a.run)
    {
      forall id ensures Kept(a.after, api, id) {
        assert Kept(a.before, api, id);
      }
    }
  }

  /** After a rollback nothing of this run is left, so only earlier runs can have stored what was removed. */
  lemma RolledBackIsSafeExactly(a: Attempt, api: Api)
    requires Performed(a, api) && a.outcome.RolledBack? && Safe(a.before, api)
    requires forall id <- a.before.queue :: id in a.before.seeded
    ensures Safe(a.after, api) <==>
      || a.before.torn == a.after.torn
      || forall id <- Successful(a.batch, a.items) | id in a.before.queue && id != "" ::
           Persisted(a.before.tables, api, id)
  {
    UnfinishedIsSafeExactly(a, api);
    assert forall t: Table :: a.after.tables[t] == a.before.tables[t];
    forall id | PersistedBy(a.after.tables, api, id, a.run) ensures Persisted(a.before.tables, api, id) {
      forall stream: Stream, t: Table ensures PersistedIn(a.before.tables, api, stream, id, a.run, t) {
        assert PersistedIn(a.after.tables, api, stream, id, a.run, t);
      }
      assert PersistedBy(a.before.tables, api, id, a.run);
    }
  }

  lemma NothingStored(f: string)
    ensures !Persisted(EMPTY_TABLES, InfoOnly, f)
  {
    forall run: nat ensures !PersistedBy(EMPTY_TABLES, InfoOnly, f, run) {
      var rows := RowsFor(Document(InfoOnly, NonTimeline, f), Info);
      assert rows[0] in rows && Row(run, rows[0]) !in EMPTY_TABLES[Info];
      assert !PersistedIn(EMPTY_TABLES, InfoOnly, NonTimeline, f, run, Info);
    }
  }

  lemma OnlyOneSucceeds(f: string)
    requires f != UNKNOWN_ID && f != ""
    ensures FromApi(BothDocuments(InfoOnly, f), InfoOnly, [f])
    ensures WithoutQueued([f], Deduped(Successful([f], BothDocuments(InfoOnly, f)))) == []
  {
    var items := BothDocuments(InfoOnly, f);
    assert items[0] in items && items[1] in items && f in [f];
    assert Delivered(items, f, NonTimeline) && Delivered(items, f, Timeline);
    BatchSplit([f], items, f);
    DedupedMeaning(Successful([f], items));
    FilterNone([f], NoneOf(Deduped(Successful([f], items))));
  }

  /**
   * A concrete case: both documents of the only queued match have been delivered, the removal takes it off the
   * queue but reports an error, and the run is rolled back. The match is neither queued nor stored.
   */
  lemma TornRemovalLosesAMatch()
    ensures
      var f := "EUW1_7";
      var before, after := Snapshot(EMPTY_TABLES, [f], {f}, None, 0), Snapshot(EMPTY_TABLES, [], {f}, None, 1);
      && Performed(Attempt(before, [f], BothDocuments(InfoOnly, f), 0, RolledBack, after), InfoOnly)
      && Safe(before, InfoOnly) && !Kept(after, InfoOnly, f)
  {
    var f := "EUW1_7";
    assert f[0] != UNKNOWN_ID[0];
    OnlyOneSucceeds(f);
    NothingStored(f);
    assert f in [f];
  }

  lemma AllSuccessful(batch: seq<string>, items: seq<Item>)
    requires Failed(batch, items) == []
    ensures Successful(batch, items) == batch
  {
    forall id <- batch ensures CompleteIn(items)(id) {
      BatchSplit(batch, items, id);
    }
    FilterAll(batch, CompleteIn(items));
  }

  // ----- How many batches a queue takes -----

  /** Batches of `b` needed to empty a queue of `n`, one after the other. */
  function BatchesNeeded(n: nat, b: nat): nat
    requires b > 0
  {
    if n == 0 then 0 else 1 + BatchesNeeded(if n <= b then 0 else n - b, b)
  }

  lemma {:induction false} BatchesNeededBounds(n: nat, b: nat)
    requires b > 0
    ensures n <= BatchesNeeded(n, b) * b <= n + b - 1
  {
    if n > b {
      BatchesNeededBounds(n - b, b);
      assert BatchesNeeded(n, b) * b == BatchesNeeded(n - b, b) * b + b;
    } else if n > 0 {
      assert BatchesNeeded(n, b) == 1 + BatchesNeeded(0, b) == 1;
    }
  }

  lemma QuotientUnique(x: nat, b: nat, q: nat)
    requires b > 0 && q * b <= x < q * b + b
    ensures x / b == q
  {
    assert (x / b) * b <= x < (x / b) * b + b;
    ProductStep(x / b, q, b);
    ProductStep(q, x / b, b);
  }

  lemma {:induction false} ProductStep(p: nat, q: nat, b: nat)
    ensures p < q ==> p * b + b <= q * b
  {
    if p < q {
      assert q * b == (q - 1) * b + b;
      ProductStep(p, q - 1, b);
    }
  }

  lemma BatchesNeededIsCeiling(n: nat, b: nat)
    requires b > 0
    ensures BatchesNeeded(n, b) == (n + b - 1) / b
  {
    BatchesNeededBounds(n, b);
    QuotientUnique(n + b - 1, b, BatchesNeeded(n, b));
  }

  lemma DistinctSize(s: seq<string>)
    requires Distinct(s)
    ensures |set x | x in s| == |s|
  {
    if s != [] {
      var init, last := s[..|s| - 1], s[|s| - 1];
      DistinctSize(init);
      assert s == init + [last];
      assert (set x | x in s) == (set x | x in init) + {last};
      assert last !in init;
    }
  }

  lemma RemovalSize(queue: seq<string>, ids: seq<string>)
    requires Distinct(queue) && Distinct(ids) && forall id <- ids :: id in queue
    ensures |WithoutQueued(queue, ids)| == |queue| - |ids|
  {
    WithoutQueuedMembers(queue, ids);
    DistinctSize(queue);
    DistinctSize(ids);
    DistinctSize(WithoutQueued(queue, ids));
    var q, i := set x | x in queue, set x | x in ids;
    assert (set x | x in WithoutQueued(queue, ids)) == q - i;
    assert i <= q;
  }

  /** A batch whose ids all succeed takes one batch off the queue. */
  lemma BatchShrinks(queue: seq<string>, n: nat, hash: string -> nat)
    requires n > 0 && Distinct(queue) && "" !in queue
    ensures
      var claim := Deduped(ClaimQuery(queue, n, hash));
      && (claim == [] <==> queue == [])
      && (queue != [] ==> 1 + BatchesNeeded(|WithoutQueued(queue, Deduped(claim))|, n) == BatchesNeeded(|queue|, n))
  {
    var claim := ClaimQuery(queue, n, hash);
    ClaimedBatch(queue, n, hash);
    RemovalSize(queue, claim);
  }

  // ----- Histories of batches -----

  /**
   * What the batches of a history have in common: the API, the queue's shuffle and the size of a claim; and, for
   * each run, how the network answers and where the stop flag is seen up.
   */
  datatype Setting = Setting(api: Api, hash: string -> nat, batchSize: int, net: nat -> Net, stop: nat -> Stops)

  /** A batch as the loop processes it: the claim of the queue at that time. */
  ghost predicate Legal(a: Attempt, on: Setting) {
    && on.batchSize > 0 && Performed(a, on.api) && Answered(a, on) && !on.stop(a.run)(BatchStart)
    && a.batch == Deduped(ClaimQuery(a.before.queue, on.batchSize, on.hash))
  }

  /**
   * `log` leads from `start` to `end`: the batches are processed one after the other as runs `run`,
   * `run + 1`, ..., and in between nothing but seeding happens, of ids among `sources`.
   */
  ghost predicate History(start: Snapshot, log: seq<Attempt>, end: Snapshot, on: Setting, sources: seq<string>,
                          run: nat)
  {
    if log == [] then OnlySeeded(start, end, sources)
    else
      var n := |log| - 1;
      && History(start, log[..n], log[n].before, on, sources, run)
      && Legal(log[n], on) && log[n].run == run + n
      && OnlySeeded(log[n].after, end, sources)
  }

  ghost predicate AllSucceeded(log: seq<Attempt>) {
    forall a <- log :: Succeeded(a)
  }

  lemma SeededAgain(before: Snapshot, between: Snapshot, after: Snapshot, sources: seq<string>, more: seq<string>)
    requires OnlySeeded(before, between, sources) && OnlySeeded(between, after, more)
    requires forall id <- more :: id in sources
    ensures OnlySeeded(before, after, sources)
  {
  }

  lemma HistorySeeded(start: Snapshot, log: seq<Attempt>, end: Snapshot, later: Snapshot, on: Setting,
                      sources: seq<string>, more: seq<string>, run: nat)
    requires History(start, log, end, on, sources, run) && OnlySeeded(end, later, more)
    requires forall id <- more :: id in sources
    ensures History(start, log, later, on, sources, run)
  {
    SeededAgain(if log == [] then start else log[|log| - 1].after, end, later, sources, more);
  }

  lemma HistoryAppend(start: Snapshot, log: seq<Attempt>, a: Attempt, end: Snapshot, on: Setting,
                      sources: seq<string>, run: nat)
    ensures
      && History(start, log, a.before, on, sources, run) && Legal(a, on) && a.run == run + |log|
      && OnlySeeded(a.after, end, sources)
      ==> History(start, log + [a], end, on, sources, run)
  {
    AppendPrefix(log, a);
  }

  /** A history followed by another, whose seeds are among those of the first. */
  lemma {:induction false} HistoryConcat(start: Snapshot, log: seq<Attempt>, middle: Snapshot, more: seq<Attempt>,
                                         end: Snapshot, on: Setting, sources: seq<string>, added: seq<string>,
                                         run: nat, run': nat)
    requires History(start, log, middle, on, sources, run)
    requires History(middle, more, end, on, added, run') && run' == run + |log|
    requires forall id <- added :: id in sources
    ensures History(start, log + more, end, on, sources, run)
    decreases |more|
  {
    if more == [] {
      NothingAdded(log);
      HistorySeeded(start, log, middle, end, on, sources, added, run);
    } else {
      var n := |more| - 1;
      HistoryConcat(start, log, middle, more[..n], more[n].before, on, sources, added, run, run');
      ConcatLast(log, more);
      HistoryAppend(start, log + more[..n], more[n], end, on, sources, run);
    }
  }

  /** Along a history the queue holds only ids of its start or seeded since, and `torn` never falls. */
  lemma {:induction false} HistoryQueue(start: Snapshot, log: seq<Attempt>, end: Snapshot, on: Setting,
                                        sources: seq<string>, run: nat)
    requires History(start, log, end, on, sources, run)
    ensures start.torn <= end.torn
    ensures forall id <- end.queue :: id in start.queue + sources
    decreases |log|
  {
    if log != [] {
      var n := |log| - 1;
      HistoryQueue(start, log[..n], log[n].before, on, sources, run);
      BatchQueue(log[n]);
    }
  }

  lemma ClaimMembers(queue: seq<string>, n: nat, hash: string -> nat, id: string)
    requires id in Deduped(ClaimQuery(queue, n, hash))
    ensures id in queue
  {
    DedupedMeaning(ClaimQuery(queue, n, hash));
    ClaimSelects(queue, n, hash);
    assert id in multiset(ClaimQuery(queue, n, hash));
  }

  /**
   * A condition known beforehand: as long as the ids that are queued or will be seeded have different
   * suffixes, and no removal takes effect in spite of its error, no batch of any history may lose an id.
   */
  lemma {:induction false} NoneLossy(start: Snapshot, log: seq<Attempt>, end: Snapshot, on: Setting,
                                     sources: seq<string>, run: nat)
    requires History(start, log, end, on, sources, run)
    requires SuffixesDistinct(start.queue + sources) && start.torn == end.torn
    ensures !AnyLossy(log)
    decreases |log|
  {
    if log != [] {
      var n := |log| - 1;
      var a := log[n];
      HistoryQueue(start, log[..n], a.before, on, sources, run);
      forall f, g | f in a.batch && g in a.batch && Suffix(f) == Suffix(g) ensures f == g {
        ClaimMembers(a.before.queue, on.batchSize, on.hash, f);
        ClaimMembers(a.before.queue, on.batchSize, on.hash, g);
      }
      DistinctSuffixesNeverClash(a.batch, a.items);
      NoneLossy(start, log[..n], a.before, on, sources, run);
      forall id, b | b in log ensures !MayLose(b, id) {
        assert b in log[..n] || b == a;
        assert !LostIn(log[..n], id) && !Clashes(a.batch, a.items, id);
      }
    }
  }

  lemma NoneLossyIf(start: Snapshot, log: seq<Attempt>, end: Snapshot, on: Setting, sources: seq<string>, run: nat)
    requires History(start, log, end, on, sources, run)
    ensures SuffixesDistinct(start.queue + sources) && start.torn == end.torn ==> !AnyLossy(log)
  {
    if SuffixesDistinct(start.queue + sources) && start.torn == end.torn {
      NoneLossy(start, log, end, on, sources, run);
    }
  }

  lemma LossyConcat(log: seq<Attempt>, more: seq<Attempt>)
    ensures forall id :: LostIn(log + more, id) <==> LostIn(log, id) || LostIn(more, id)
    ensures AllSucceeded(log + more) <==> AllSucceeded(log) && AllSucceeded(more)
  {
    assert forall a :: a in log + more <==> a in log || a in more;
  }

  // ----- What a history keeps -----

  /**
   * From `start` to `now` the history `log` has happened, as runs `run` up to but not including `next`, with
   * the states between commands in the trace from position `from`, and keeps what it must.
   */
  ghost predicate Lived(start: Snapshot, log: seq<Attempt>, now: Snapshot, trace: seq<Snapshot>, from: nat,
                        on: Setting, sources: seq<string>, run: nat, next: nat, runs: nat -> seq<string>,
                        latest: Option<LatestRun>)
  {
    && from <= |trace| && Distinct(now.queue) && RunsBelow(now.tables, next) && next == run + |log|
    && History(start, log, now, on, sources, run)
    && Keeps(start, now, trace, from, on.api, runs, latest, log)
  }

  /** Before the first batch there has been nothing but seeding. */
  lemma SeedingLived(start: Snapshot, now: Snapshot, trace: seq<Snapshot>, from: nat, on: Setting, sources: seq<string>,
                     run: nat, runs: nat -> seq<string>, latest: Option<LatestRun>)
    requires from <= |trace| && Distinct(now.queue) && RunsBelow(now.tables, run)
    requires OnlySeeded(start, now, sources) && Keeps(start, now, trace, from, on.api, runs, latest, [])
    ensures Lived(start, [], now, trace, from, on, sources, run, run, runs, latest)
  {
  }

  /** Two stretches of commands, the second from position `|between|` of the trace. */
  lemma KeepsTwice(start: Snapshot, middle: Snapshot, end: Snapshot, between: seq<Snapshot>, trace: seq<Snapshot>,
                   from: nat, api: Api, runs: nat -> seq<string>, latest: Option<LatestRun>,
                   next: Option<LatestRun>, log: seq<Attempt>, more: seq<Attempt>)
    requires Keeps(start, middle, between, from, api, runs, latest, log)
    requires Keeps(middle, end, trace, |between|, api, runs, next, more)
    requires between <= trace && (IsLatest(latest, runs) ==> IsLatest(next, runs))
    ensures Keeps(start, end, trace, from, api, runs, latest, log + more)
  {
    forall k | from <= k < |between| ensures trace[k] == between[k] {
    }
    LossyConcat(log, more);
    KeptTwice(start, middle, end, between, trace, from, api, log, more);
  }

  lemma KeptTwice(start: Snapshot, middle: Snapshot, end: Snapshot, between: seq<Snapshot>, trace: seq<Snapshot>,
                  from: nat, api: Api, log: seq<Attempt>, more: seq<Attempt>)
    requires StaysKept(start, middle, between, from, api, log) && StaysKept(middle, end, trace, |between|, api, more)
    requires between <= trace
    ensures StaysKept(start, end, trace, from, api, log + more)
  {
    LossyConcat(log, more);
    forall id | Kept(start, api, id) && !LostIn(log + more, id)
      ensures Kept(end, api, id) && KeptThroughout(trace, from, api, id)
    {
      assert Kept(middle, api, id) && KeptThroughout(between, from, api, id);
      forall k | from <= k < |trace| ensures Kept(trace[k], api, id) {
        assert k < |between| ==> trace[k] == between[k];
      }
    }
  }

  /** One history after another. */
  lemma LivedTwice(start: Snapshot, log: seq<Attempt>, middle: Snapshot, between: seq<Snapshot>, more: seq<Attempt>,
                   now: Snapshot, trace: seq<Snapshot>, from: nat, on: Setting, sources: seq<string>,
                   added: seq<string>, run: nat, run': nat, next: nat, runs: nat -> seq<string>,
                   latest: Option<LatestRun>, latest': Option<LatestRun>)
    requires Lived(start, log, middle, between, from, on, sources, run, run', runs, latest) && between <= trace
    requires Lived(middle, more, now, trace, |between|, on, added, run', next, runs, latest')
    requires (forall id <- added :: id in sources) && (IsLatest(latest, runs) ==> IsLatest(latest', runs))
    ensures Lived(start, log + more, now, trace, from, on, sources, run, next, runs, latest)
  {
    HistoryConcat(start, log, middle, more, now, on, sources, added, run, run');
    KeepsTwice(start, middle, now, between, trace, from, on.api, runs, latest, latest', log, more);
  }

  // ----- The run loop -----

  /** How one round of the loop ends: an empty claim, a finished batch, or an exception from load or save. */
  datatype Round = NothingClaimed | Processed | LoadRaised | SaveRaised

  /** The part of a round that counts batches: `loaded` is the queue claimed from. */
  ghost predicate Counted(round: Round, log: seq<Attempt>, loaded: seq<string>, left: seq<string>, batchSize: int) {
    && |log| == (if round.Processed? || round.SaveRaised? then 1 else 0)
    && (!round.LoadRaised? ==> batchSize > 0)
    && (round.NothingClaimed? ==> left == loaded && ("" !in left ==> left == []))
    && (round.Processed? || round.SaveRaised? ==>
          (round.Processed? <==> log[0].outcome.Finished?) && ("" in left <==> "" in loaded))
    && (round.Processed? && AllSucceeded(log) && "" !in left ==>
          batchSize > 0 && 1 + BatchesNeeded(|left|, batchSize) == BatchesNeeded(|loaded|, batchSize))
  }

  lemma OneAttempt(a: Attempt, on: Setting, sources: seq<string>, run: nat)
    requires Legal(a, on) && a.run == run
    ensures History(a.before, [a], a.after, on, sources, run)
  {
    var none: seq<Attempt> := [];
    assert History(a.before, none, a.before, on, sources, run);
    HistoryAppend(a.before, none, a, a.after, on, sources, run);
    assert none + [a] == [a];
  }

  lemma OneCounted(a: Attempt, loaded: seq<string>, left: seq<string>, batchSize: int)
    requires batchSize > 0 && ("" in left <==> "" in loaded)
    requires Succeeded(a) && "" !in left ==>
      1 + BatchesNeeded(|left|, batchSize) == BatchesNeeded(|loaded|, batchSize)
    ensures Counted(if a.outcome.Finished? then Processed else SaveRaised, [a], loaded, left, batchSize)
  {
    assert a in [a];
  }

  /** No stop is requested, and both documents of each of the ids arrive and parse in whatever run. */
  ghost predicate Undisturbed(on: Setting, ids: seq<string>) {
    && on.batchSize > 0 && (forall run: nat, check :: !on.stop(run)(check))
    && forall id, run: nat | id in ids :: Smooth(on, id, run)
  }

  lemma UndisturbedClaim(on: Setting, queue: seq<string>, run: nat)
    requires Undisturbed(on, queue)
    ensures
      var claimed := Deduped(ClaimQuery(queue, on.batchSize, on.hash));
      Deliverable(on, claimed, run) && forall id <- claimed :: Smooth(on, id, run)
  {
    var claimed := Deduped(ClaimQuery(queue, on.batchSize, on.hash));
    forall id <- claimed ensures Smooth(on, id, run) {
      ClaimMembers(queue, on.batchSize, on.hash, id);
    }
    SmoothIsDeliverable(on, claimed, run);
  }

  ghost predicate Undeliverable(on: Setting, a: Attempt) {
    !Deliverable(on, a.batch, a.run)
  }

  /** A round without a failed command: why it raises, and when its batch succeeds. */
  ghost predicate Quiet(on: Setting, round: Round, log: seq<Attempt>, loaded: seq<string>) {
    && (round.LoadRaised? ==> on.batchSize <= 0)
    && (round.SaveRaised? ==> log != [] && Undeliverable(on, log[0]))
    && (Undisturbed(on, loaded) ==> (round.NothingClaimed? || round.Processed?) && AllSucceeded(log))
  }

  ghost predicate AllIn(ids: seq<string>, all: seq<string>) {
    forall id <- ids :: id in all
  }

  ghost predicate AllNoted(ids: seq<string>, seeded: set<string>) {
    forall id <- ids :: id in seeded
  }

  /**
   * What a round does: `loaded` is the queue claimed from, `left` what is left of it; the queue is `noted` if every
   * queued id was noted as seeded before; no command has failed if it was `quiet`.
   */
  ghost predicate RoundDone(on: Setting, round: Round, log: seq<Attempt>, loaded: seq<string>, left: seq<string>,
                            seeded: set<string>, noted: bool, quiet: bool)
  {
    && Counted(round, log, loaded, left, on.batchSize)
    && (!round.LoadRaised? ==> AllIn(left, loaded) && (noted ==> AllNoted(loaded, seeded)))
    && (quiet ==> Quiet(on, round, log, loaded))
  }

  /** A claim that succeeds takes one batch off those needed. */
  lemma ClaimCounted(on: Setting, a: Attempt, loaded: seq<string>, left: seq<string>)
    requires on.batchSize > 0 && Distinct(loaded) && a.batch == Deduped(ClaimQuery(loaded, on.batchSize, on.hash))
    requires a.batch != [] && ("" in left <==> "" in loaded)
    requires Succeeded(a) ==> left == WithoutQueued(loaded, Deduped(a.batch))
    ensures Counted(if a.outcome.Finished? then Processed else SaveRaised, [a], loaded, left, on.batchSize)
  {
    ClaimMembers(loaded, on.batchSize, on.hash, a.batch[0]);
    if "" !in loaded {
      BatchShrinks(loaded, on.batchSize, on.hash);
    }
    OneCounted(a, loaded, left, on.batchSize);
  }

  /** A claim of undisturbed ids succeeds. */
  lemma ClaimQuiet(on: Setting, a: Attempt, loaded: seq<string>)
    requires on.batchSize > 0 && a.batch == Deduped(ClaimQuery(loaded, on.batchSize, on.hash))
    requires !a.outcome.Finished? ==> Undeliverable(on, a)
    requires a.outcome.Finished? && (forall id <- a.batch :: Smooth(on, id, a.run)) ==> Succeeded(a)
    ensures Quiet(on, if a.outcome.Finished? then Processed else SaveRaised, [a], loaded)
  {
    if Undisturbed(on, loaded) {
      UndisturbedClaim(on, loaded, a.run);
    }
    assert AllSucceeded([a]) <==> Succeeded(a) by { assert a in [a]; }
  }

  /** A round with a batch: what it does follows from what the batch does. */
  lemma ClaimDone(on: Setting, a: Attempt, round: Round, loaded: seq<string>, left: seq<string>, seeded: set<string>,
                  noted: bool, quiet: bool)
    requires on.batchSize > 0 && Distinct(loaded) && a.batch == Deduped(ClaimQuery(loaded, on.batchSize, on.hash))
    requires round == (if a.outcome.Finished? then Processed else SaveRaised) && a.batch != []
    requires Succeeded(a) ==> left == WithoutQueued(loaded, Deduped(a.batch))
    requires ("" in left <==> "" in loaded) && AllIn(left, loaded) && (noted ==> AllNoted(loaded, seeded))
    requires quiet && !a.outcome.Finished? ==> Undeliverable(on, a)
    requires a.outcome.Finished? && (forall id <- a.batch :: Smooth(on, id, a.run)) ==> Succeeded(a)
    ensures RoundDone(on, round, [a], loaded, left, seeded, noted, quiet)
  {
    ClaimCounted(on, a, loaded, left);
    if quiet {
      ClaimQuiet(on, a, loaded);
    }
  }

  /** Process what has just been claimed. */
  method ProcessClaim(store: Store, on: Setting, claimed: seq<string>, saverBatch: nat, run: nat,
                      ghost runs: nat -> seq<string>, ghost latest: Option<LatestRun>)
    returns (round: Round, next: nat, ghost a: Attempt)
    requires WellFormed(on.api) && saverBatch > 0 && on.batchSize > 0
    requires claimed != [] && claimed == Deduped(ClaimQuery(store.queue, on.batchSize, on.hash))
    requires !on.stop(run)(BatchStart)
    requires store.Valid() && RunsBelow(store.tables, run) && Distinct(store.queue)
    modifies store
    ensures store.Valid() && old(store.trace) <= store.trace
    ensures Lived(old(store.Now()), [a], store.Now(), store.trace, |old(store.trace)|, on, Sources(latest), run,
                  next, runs, latest)
    ensures round == if a.outcome.Finished? then Processed else SaveRaised
    ensures RoundDone(on, round, [a], old(store.queue), store.queue, store.seeded, QueueSeeded(old(store.Now())),
                      store.faults < old(store.faults) + 8)
    ensures old(store.faults) <= store.faults
  {
    ghost var loaded, noted, faults := store.queue, QueueSeeded(store.Now()), store.faults;
    var outcome;
    outcome, a := ProcessBatch(store, on, claimed, run, saverBatch, runs, latest);
    next, round := run + 1, if outcome.Finished? then Processed else SaveRaised;
    OneAttempt(a, on, Sources(latest), run);
    ClaimDone(on, a, round, loaded, store.queue, store.seeded, noted, store.faults < faults + 8);
  }

  /** The queue a claim is made from: seeding comes first, once. */
  ghost function LoadedQueue(before: Snapshot, initialized: bool, latest: Option<LatestRun>): seq<string> {
    if initialized then before.queue else SeededQueue(before, latest)
  }

  /** The loading part of a round. */
  method LoadClaim(store: Store, loader: Loader, latest: Option<LatestRun>, on: Setting, run: nat,
                   ghost runs: nat -> seq<string>)
    returns (claimed: Option<seq<string>>)
    requires loader.batchSize == on.batchSize
    requires store.Valid() && RunsBelow(store.tables, run) && Distinct(store.queue)
    modifies store, loader
    ensures store.Valid() && old(store.trace) <= store.trace
    ensures Lived(old(store.Now()), [], store.Now(), store.trace, |old(store.trace)|, on, Sources(latest), run, run,
                  runs, latest)
    ensures claimed.Some? ==>
      && loader.initialized && on.batchSize > 0
      && store.queue == LoadedQueue(old(store.Now()), old(loader.initialized), latest)
      && claimed.value == Deduped(ClaimQuery(store.queue, on.batchSize, on.hash))
    ensures claimed == Some([]) && "" !in store.queue ==> store.queue == []
    ensures old(loader.initialized) ==> loader.initialized
    ensures old(store.faults) <= store.faults
    ensures claimed.Some? <==> on.batchSize > 0 && store.faults == old(store.faults)
  {
    ghost var start, traced := store.Now(), store.trace;
    claimed := loader.Load(store, latest, on.hash, on.api, runs);
    SeedingLived(start, store.Now(), store.trace, |traced|, on, Sources(latest), run, runs, latest);
    if claimed.Some? && "" !in store.queue {
      BatchShrinks(store.queue, on.batchSize, on.hash);
    }
  }

  /** Loading, and then one batch. */
  lemma OneRound(start: Snapshot, before: Snapshot, loaded: seq<Snapshot>, a: Attempt, now: Snapshot,
                 trace: seq<Snapshot>, from: nat, on: Setting, sources: seq<string>, run: nat, next: nat,
                 runs: nat -> seq<string>, latest: Option<LatestRun>)
    requires Lived(start, [], before, loaded, from, on, sources, run, run, runs, latest) && loaded <= trace
    requires Lived(before, [a], now, trace, |loaded|, on, sources, run, next, runs, latest)
    ensures Lived(start, [a], now, trace, from, on, sources, run, next, runs, latest)
  {
    var none: seq<Attempt> := [];
    LivedTwice(start, none, before, loaded, [a], now, trace, from, on, sources, sources, run, run, next, runs, latest,
               latest);
    NothingAdded([a]);
  }

  lemma RoundAgain(on: Setting, round: Round, log: seq<Attempt>, loaded: seq<string>, left: seq<string>,
                   seeded: set<string>, noted: bool, noted': bool, quiet: bool, quiet': bool)
    requires RoundDone(on, round, log, loaded, left, seeded, noted', quiet') && (noted ==> noted') && (quiet ==> quiet')
    ensures RoundDone(on, round, log, loaded, left, seeded, noted, quiet)
  {
  }

  /** One round: load and, unless nothing is claimed, process the batch as run `run`. */
  method RunRound(store: Store, loader: Loader, latest: Option<LatestRun>, on: Setting, saverBatch: nat, run: nat,
                  ghost runs: nat -> seq<string>)
    returns (round: Round, next: nat, ghost log: seq<Attempt>)
    requires WellFormed(on.api) && saverBatch > 0 && loader.batchSize == on.batchSize && !on.stop(run)(BatchStart)
    requires store.Valid() && RunsBelow(store.tables, run) && Distinct(store.queue)
    modifies store, loader
    ensures store.Valid() && old(store.trace) <= store.trace
    ensures Lived(old(store.Now()), log, store.Now(), store.trace, |old(store.trace)|, on, Sources(latest), run,
                  next, runs, latest)
    ensures RoundDone(on, round, log, LoadedQueue(old(store.Now()), old(loader.initialized), latest), store.queue,
                      store.seeded, QueueSeeded(old(store.Now())), store.faults == old(store.faults))
    ensures round.LoadRaised? || loader.initialized
    ensures old(loader.initialized) ==> loader.initialized
    ensures old(store.faults) <= store.faults
  {
    ghost var start, from, faults := store.Now(), |store.trace|, store.faults;
    next, log := run, [];
    var claimed := LoadClaim(store, loader, latest, on, run, runs);
    if claimed.None? {
      return LoadRaised, next, log;
    }
    if claimed.value == [] {
      return NothingClaimed, next, log;
    }
    ghost var before, loaded, quietFaults := store.Now(), store.trace, store.faults;
    ghost var a;
    round, next, a := ProcessClaim(store, on, claimed.value, saverBatch, run, runs, latest);
    OneRound(start, before, loaded, a, store.Now(), store.trace, from, on, Sources(latest), run, next, runs, latest);
    log := [a];
    RoundAgain(on, round, log, before.queue, store.queue, store.seeded, QueueSeeded(start), QueueSeeded(before),
               store.faults == faults, store.faults < quietFaults + 8);
  }

  datatype Exit = Drained | Raised | LimitReached

  /** After batches that all succeeded, the rest of the queue needs the rest of the batches. */
  ghost predicate OnTrack(log: seq<Attempt>, left: seq<string>, size: nat, batchSize: int) {
    AllSucceeded(log) && "" !in left ==>
      batchSize > 0 && |log| + BatchesNeeded(|left|, batchSize) == BatchesNeeded(size, batchSize)
  }

  function EndOf(round: Round): Option<Exit> {
    match round
    case NothingClaimed => Some(Drained)
    case Processed => None
    case _ => Some(Raised)
  }

  /** The state of the loop between rounds: `left` is queued now, `queue` was once seeding had succeeded. */
  ghost predicate Paced(log: seq<Attempt>, ended: Option<Exit>, initialized: bool, left: seq<string>,
                        queue: seq<string>, batchSize: int)
  {
    && ended != Some(LimitReached) && (initialized || ended.Some? || log == [])
    && (log == [] && ended.None? ==> !initialized)
    && (initialized && ended != Some(Raised) ==> batchSize > 0)
    && (ended == Some(Drained) ==> initialized && ("" !in left ==> left == []))
    && (ended != Some(Raised) && batchSize > 0 ==>
          OnTrack(log, if initialized then left else queue, |queue|, batchSize))
  }

  lemma PacedNext(log: seq<Attempt>, initialized: bool, loaded: seq<string>, round: Round, more: seq<Attempt>,
                  initialized': bool, left: seq<string>, queue: seq<string>, batchSize: int)
    requires Paced(log, None, initialized, loaded, queue, batchSize) && (!initialized ==> log == [])
    requires Counted(round, more, if initialized then loaded else queue, left, batchSize)
    requires round.LoadRaised? || initialized'
    ensures Paced(log + more, EndOf(round), initialized', left, queue, batchSize)
  {
    LossyConcat(log, more);
    if round.NothingClaimed? {
      NothingAdded(log);
    }
  }

  /** How the loop ends, and after how many batches, when `left` is queued at the end and `queue` was at the start. */
  ghost predicate Ended(exit: Exit, log: seq<Attempt>, left: seq<string>, queue: seq<string>, batchSize: int,
                        limit: nat)
  {
    && |log| <= limit && (exit.LimitReached? ==> |log| == limit)
    && (batchSize <= 0 && limit > 0 ==> exit.Raised?)
    && (exit.Drained? ==> batchSize > 0 && ("" !in left ==> left == []))
    && (exit.Drained? && left == [] && AllSucceeded(log) ==> |log| == (|queue| + batchSize - 1) / batchSize)
    && (exit.LimitReached? && limit > 0 && AllSucceeded(log) && "" !in left ==>
          |log| <= (|queue| + batchSize - 1) / batchSize)
  }

  lemma PacedEnds(log: seq<Attempt>, ended: Option<Exit>, initialized: bool, left: seq<string>, queue: seq<string>,
                  batchSize: int, limit: nat, exit: Exit)
    requires Paced(log, ended, initialized, left, queue, batchSize)
    requires |log| <= limit && (ended.None? ==> |log| == limit)
    requires exit == if ended.Some? then ended.value else LimitReached
    ensures Ended(exit, log, left, queue, batchSize, limit)
  {
    if batchSize > 0 {
      BatchesNeededIsCeiling(|queue|, batchSize);
    }
  }

  /** Without a failed command the loop raises for a stop request or for a batch that cannot be delivered. */
  ghost predicate Blocked(on: Setting, log: seq<Attempt>, next: nat) {
    on.stop(next)(BatchStart) || (log != [] && Undeliverable(on, log[|log| - 1]))
  }

  /** Enough batches empty the queue, and one more round notices it. */
  ghost predicate Emptied(exit: Exit, log: seq<Attempt>, left: seq<string>, queue: seq<string>, batchSize: int,
                          limit: nat)
    requires batchSize > 0
  {
    var needed := (|queue| + batchSize - 1) / batchSize;
    "" !in queue ==>
      && (limit >= needed ==> left == [] && |log| == needed)
      && (limit > needed ==> exit.Drained?)
  }

  lemma PacedEmpties(log: seq<Attempt>, ended: Option<Exit>, initialized: bool, left: seq<string>, queue: seq<string>,
                     batchSize: int, limit: nat, exit: Exit)
    requires Paced(log, ended, initialized, left, queue, batchSize) && batchSize > 0
    requires |log| <= limit && (ended.None? ==> |log| == limit)
    requires exit == if ended.Some? then ended.value else LimitReached
    requires AllSucceeded(log) && ended != Some(Raised) && forall id <- left :: id in queue
    ensures Emptied(exit, log, left, queue, batchSize, limit)
  {
    BatchesNeededIsCeiling(|queue|, batchSize);
    assert left != [] ==> left[0] in queue;
  }

  /**
   * The loop between rounds, seen from the ids `all` that were queued when seeding had succeeded: only they are still
   * queued; and if no command has failed (`clean`), it raises for a reason, and every batch succeeds unless something
   * disturbs the ids. If every id queued at the start was noted as seeded (`noted`), so are all of these.
   */
  ghost predicate LoopState(on: Setting, log: seq<Attempt>, ended: Option<Exit>, initialized: bool, left: seq<string>,
                            all: seq<string>, seeded: set<string>, next: nat, noted: bool, clean: bool)
  {
    && Paced(log, ended, initialized, left, all, on.batchSize)
    && (ended != Some(Raised) ==> AllIn(left, all))
    && (noted && initialized && ended != Some(Raised) ==> AllNoted(all, seeded))
    && (clean && ended == Some(Raised) && on.batchSize > 0 ==> Blocked(on, log, next))
    && (clean && Undisturbed(on, all) ==> ended != Some(Raised) && AllSucceeded(log))
  }

  lemma LoopNext(on: Setting, log: seq<Attempt>, more: seq<Attempt>, round: Round, initialized: bool,
                 initialized': bool, queued: seq<string>, loaded: seq<string>, left: seq<string>, all: seq<string>,
                 seeded: set<string>, seeded': set<string>, run: nat, next: nat, noted: bool, noted': bool,
                 clean: bool, quiet: bool)
    requires LoopState(on, log, None, initialized, queued, all, seeded, run, noted, clean)
    requires loaded == (if initialized then queued else all) && seeded <= seeded' && (noted ==> noted')
    requires RoundDone(on, round, more, loaded, left, seeded', noted', quiet) && (round.LoadRaised? || initialized')
    ensures LoopState(on, log + more, EndOf(round), initialized', left, all, seeded', next, noted, clean && quiet)
  {
    PacedNext(log, initialized, queued, round, more, initialized', left, all, on.batchSize);
    if quiet {
      QuietBlocked(on, log, more, round, loaded, next);
      if clean && Undisturbed(on, all) {
        QuietSucceeds(on, log, more, round, loaded, all);
      }
    }
  }

  lemma QuietBlocked(on: Setting, log: seq<Attempt>, more: seq<Attempt>, round: Round, loaded: seq<string>, next: nat)
    requires Quiet(on, round, more, loaded) && |more| <= 1
    ensures EndOf(round) == Some(Raised) && on.batchSize > 0 ==> Blocked(on, log + more, next)
  {
    if round.SaveRaised? {
      BlockedAppend(on, log, more[0], next);
      assert more == [more[0]];
    }
  }

  lemma BlockedAppend(on: Setting, log: seq<Attempt>, a: Attempt, next: nat)
    requires Undeliverable(on, a)
    ensures Blocked(on, log + [a], next)
  {
    AppendPrefix(log, a);
  }

  lemma QuietSucceeds(on: Setting, log: seq<Attempt>, more: seq<Attempt>, round: Round, loaded: seq<string>,
                      all: seq<string>)
    requires Quiet(on, round, more, loaded) && AllSucceeded(log) && Undisturbed(on, all) && AllIn(loaded, all)
    ensures EndOf(round) != Some(Raised) && AllSucceeded(log + more)
  {
    assert Undisturbed(on, loaded);
    LossyConcat(log, more);
  }

  /** One round after the history `log`, unless a stop has been requested. */
  method NextRound(store: Store, loader: Loader, latest: Option<LatestRun>, on: Setting, saverBatch: nat, firstRun: nat,
                   run: nat, ghost runs: nat -> seq<string>, ghost start: Snapshot, ghost log: seq<Attempt>,
                   ghost from: nat, ghost clean: bool)
    returns (ended: Option<Exit>, next: nat, ghost log': seq<Attempt>)
    requires WellFormed(on.api) && saverBatch > 0 && loader.batchSize == on.batchSize && store.Valid()
    requires Lived(start, log, store.Now(), store.trace, from, on, Sources(latest), firstRun, run, runs, latest)
    requires LoopState(on, log, None, loader.initialized, store.queue, SeededQueue(start, latest), store.seeded, run,
                       QueueSeeded(start), clean)
    requires log == [] ==> store.Now() == start
    modifies store, loader
    ensures store.Valid() && old(store.trace) <= store.trace
    ensures Lived(start, log', store.Now(), store.trace, from, on, Sources(latest), firstRun, next, runs, latest)
    ensures LoopState(on, log', ended, loader.initialized, store.queue, SeededQueue(start, latest), store.seeded, next,
                      QueueSeeded(start), clean && store.faults == old(store.faults))
    ensures run <= next <= run + 1 && (ended.None? ==> log' != [] && next == run + 1)
    ensures old(store.faults) <= store.faults
  {
    if on.stop(run)(BatchStart) {
      StoppedLoop(on, log, loader.initialized, store.queue, SeededQueue(start, latest), store.seeded, run,
                  QueueSeeded(start), clean);
      return Some(Raised), run, log;
    }
    ended, next, log' := TakeRound(store, loader, latest, on, saverBatch, firstRun, run, runs, start, log, from, clean);
  }

  lemma StoppedLoop(on: Setting, log: seq<Attempt>, initialized: bool, left: seq<string>, all: seq<string>,
                    seeded: set<string>, run: nat, noted: bool, clean: bool)
    requires LoopState(on, log, None, initialized, left, all, seeded, run, noted, clean) && on.stop(run)(BatchStart)
    ensures LoopState(on, log, Some(Raised), initialized, left, all, seeded, run, noted, clean)
  {
  }

  /** One round after the history `log`. */
  method TakeRound(store: Store, loader: Loader, latest: Option<LatestRun>, on: Setting, saverBatch: nat, firstRun: nat,
                   run: nat, ghost runs: nat -> seq<string>, ghost start: Snapshot, ghost log: seq<Attempt>,
                   ghost from: nat, ghost clean: bool)
    returns (ended: Option<Exit>, next: nat, ghost log': seq<Attempt>)
    requires WellFormed(on.api) && saverBatch > 0 && loader.batchSize == on.batchSize && store.Valid()
    requires !on.stop(run)(BatchStart)
    requires Lived(start, log, store.Now(), store.trace, from, on, Sources(latest), firstRun, run, runs, latest)
    requires LoopState(on, log, None, loader.initialized, store.queue, SeededQueue(start, latest), store.seeded, run,
                       QueueSeeded(start), clean)
    requires log == [] ==> store.Now() == start
    modifies store, loader
    ensures store.Valid() && old(store.trace) <= store.trace
    ensures Lived(start, log', store.Now(), store.trace, from, on, Sources(latest), firstRun, next, runs, latest)
    ensures LoopState(on, log', ended, loader.initialized, store.queue, SeededQueue(start, latest), store.seeded, next,
                      QueueSeeded(start), clean && store.faults == old(store.faults))
    ensures run <= next <= run + 1 && (ended.None? ==> log' != [] && next == run + 1)
    ensures old(store.faults) <= store.faults
  {
    ghost var middle, between, initialized := store.Now(), store.trace, loader.initialized;
    ghost var more, faults := [], store.faults;
    var round;
    round, next, more := RunRound(store, loader, latest, on, saverBatch, run, runs);
    LivedTwice(start, log, middle, between, more, store.Now(), store.trace, from, on, Sources(latest),
               Sources(latest), firstRun, run, next, runs, latest, latest);
    ended, log' := EndOf(round), log + more;
    LoopNext(on, log, more, round, initialized, loader.initialized, middle.queue,
             LoadedQueue(middle, initialized, latest), store.queue, SeededQueue(start, latest), middle.seeded,
             store.seeded, run, next, QueueSeeded(start), QueueSeeded(middle), clean, store.faults == faults);
  }

  /** The loop: rounds until one ends it or the limit is reached. */
  method RunRounds(store: Store, loader: Loader, latest: Option<LatestRun>, on: Setting, saverBatch: nat, firstRun: nat,
                   limit: nat, ghost runs: nat -> seq<string>)
    returns (ended: Option<Exit>, next: nat, ghost log: seq<Attempt>)
    requires WellFormed(on.api) && saverBatch > 0 && !loader.initialized && loader.batchSize == on.batchSize
    requires store.Valid() && RunsBelow(store.tables, firstRun) && Distinct(store.queue)
    modifies store, loader
    ensures store.Valid() && old(store.trace) <= store.trace
    ensures Lived(old(store.Now()), log, store.Now(), store.trace, |old(store.trace)|, on, Sources(latest), firstRun,
                  next, runs, latest)
    ensures LoopState(on, log, ended, loader.initialized, store.queue, SeededQueue(old(store.Now()), latest),
                      store.seeded, next, QueueSeeded(old(store.Now())), store.faults == old(store.faults))
    ensures next <= firstRun + limit && (ended.None? ==> next == firstRun + limit)
  {
    ghost var faults := store.faults;
    next, log := firstRun, [];
    ghost var from, start := |store.trace|, store.Now();
    SeedingLived(start, start, store.trace, from, on, Sources(latest), firstRun, runs, latest);
    ended := None;
    while ended.None? && next < firstRun + limit
      invariant next <= firstRun + limit
      invariant store.Valid() && old(store.trace) <= store.trace
      invariant Lived(start, log, store.Now(), store.trace, from, on, Sources(latest), firstRun, next, runs, latest)
      invariant LoopState(on, log, ended, loader.initialized, store.queue, SeededQueue(start, latest), store.seeded,
                          next, QueueSeeded(start), store.faults == faults)
      invariant ended.None? && log == [] ==> store.Now() == start
      invariant faults <= store.faults
      decreases firstRun + limit - next, ended.None?
    {
      ended, next, log :=
        NextRound(store, loader, latest, on, saverBatch, firstRun, next, runs, start, log, from,
                  store.faults == faults);
    }
  }

  /** A batch that succeeds loses nothing. */
  lemma SucceededKeepsAll(log: seq<Attempt>, id: string)
    requires AllSucceeded(log)
    ensures !LostIn(log, id)
  {
  }

  /** When every batch has succeeded and the queue is empty, all that was ever noted as seeded is stored. */
  lemma AllStored(start: Snapshot, now: Snapshot, trace: seq<Snapshot>, from: nat, api: Api, log: seq<Attempt>,
                  all: seq<string>)
    requires StaysKept(start, now, trace, from, api, log) && Safe(start, api) && AllSucceeded(log)
    requires now.queue == [] && AllNoted(all, now.seeded)
    ensures forall id <- all :: Persisted(now.tables, api, id)
  {
    forall id <- all ensures Persisted(now.tables, api, id) {
      SucceededKeepsAll(log, id);
      assert Kept(start, api, id) && Kept(now, api, id) && id in now.seeded;
    }
  }

  /**
   * What an undisturbed loop comes to: every batch succeeds, enough batches empty the queue (`Emptied`), and then, if
   * nothing had been lost before, every id that was queued when seeding had succeeded is stored.
   */
  ghost predicate Completes(on: Setting, exit: Exit, log: seq<Attempt>, start: Snapshot, now: Snapshot,
                            all: seq<string>, limit: nat)
    requires on.batchSize > 0
  {
    && !exit.Raised? && AllSucceeded(log) && Emptied(exit, log, now.queue, all, on.batchSize, limit)
    && (Safe(start, on.api) && QueueSeeded(start) && "" !in all
        && limit >= (|all| + on.batchSize - 1) / on.batchSize ==>
          forall id <- all :: Persisted(now.tables, on.api, id))
  }

  lemma ExitCases(exit: Exit)
    ensures exit == Drained || exit == Raised || exit == LimitReached
  {
  }

  lemma LoopInitialized(on: Setting, log: seq<Attempt>, ended: Option<Exit>, initialized: bool, left: seq<string>,
                        all: seq<string>, seeded: set<string>, next: nat, noted: bool)
    requires LoopState(on, log, ended, initialized, left, all, seeded, next, noted, true) && Undisturbed(on, all)
    requires noted && log != []
    ensures AllNoted(all, seeded)
  {
    if ended.Some? {
      ExitCases(ended.value);
    }
  }

  lemma LoopCompletes(on: Setting, log: seq<Attempt>, ended: Option<Exit>, initialized: bool, start: Snapshot,
                      now: Snapshot, trace: seq<Snapshot>, from: nat, all: seq<string>, next: nat, limit: nat,
                      exit: Exit)
    requires LoopState(on, log, ended, initialized, now.queue, all, now.seeded, next, QueueSeeded(start), true)
    requires StaysKept(start, now, trace, from, on.api, log) && Undisturbed(on, all)
    requires |log| <= limit && (ended.None? ==> |log| == limit)
    requires exit == if ended.Some? then ended.value else LimitReached
    ensures Completes(on, exit, log, start, now, all, limit)
  {
    PacedEmpties(log, ended, initialized, now.queue, all, on.batchSize, limit, exit);
    BatchesNeededIsCeiling(|all|, on.batchSize);
    if Safe(start, on.api) && QueueSeeded(start) && now.queue == [] && |log| == BatchesNeeded(|all|, on.batchSize) {
      if all != [] {
        LoopInitialized(on, log, ended, initialized, now.queue, all, now.seeded, next, true);
        AllStored(start, now, trace, from, on.api, log, all);
      }
    }
  }

  /**
   * `MatchDataOrchestrator.run`, for any number `limit` of batches; `log` is the history of what it did. At
   * every point between database commands, crash points included, no id is queued twice and every id ever queued
   * is still queued or persisted, unless a batch may lose it (`MayLose`); none may when the ids have different
   * suffixes and no removal takes effect in spite of its error. The loop ends normally only on an empty queue;
   * when every claimed id succeeds it does so after exactly ceil(n / b) batches, if it is not cut off before. And
   * every claimed id does succeed if no stop is requested, both documents of each id arrive and parse, and no command
   * reports an error: then ceil(n / b) batches empty the queue, one more round ends the loop, and every id that was
   * queued is stored completely.
   */
  method Run(store: Store, loader: Loader, latest: Option<LatestRun>, on: Setting, saverBatch: nat, firstRun: nat,
             limit: nat, ghost runs: nat -> seq<string>)
    returns (exit: Exit, next: nat, ghost log: seq<Attempt>)
    requires WellFormed(on.api) && saverBatch > 0 && !loader.initialized && loader.batchSize == on.batchSize
    requires store.Valid() && RunsBelow(store.tables, firstRun) && Distinct(store.queue)
    modifies store, loader
    ensures store.Valid() && old(store.trace) <= store.trace
    ensures Lived(old(store.Now()), log, store.Now(), store.trace, |old(store.trace)|, on, Sources(latest), firstRun,
                  next, runs, latest)
    ensures SuffixesDistinct(old(store.queue) + Sources(latest)) && store.torn == old(store.torn) ==> !AnyLossy(log)
    ensures Ended(exit, log, store.queue, SeededQueue(old(store.Now()), latest), on.batchSize, limit)
    ensures exit.Raised? && store.faults == old(store.faults) && on.batchSize > 0 ==> Blocked(on, log, next)
    ensures Undisturbed(on, SeededQueue(old(store.Now()), latest)) && store.faults == old(store.faults) ==>
      Completes(on, exit, log, old(store.Now()), store.Now(), SeededQueue(old(store.Now()), latest), limit)
  {
    ghost var start, from, faults := store.Now(), |store.trace|, store.faults;
    var ended;
    ended, next, log := RunRounds(store, loader, latest, on, saverBatch, firstRun, limit, runs);
    exit := if ended.Some? then ended.value else LimitReached;
    NoneLossyIf(start, log, store.Now(), on, Sources(latest), firstRun);
    PacedEnds(log, ended, loader.initialized, store.queue, SeededQueue(start, latest), on.batchSize, limit, exit);
    if Undisturbed(on, SeededQueue(start, latest)) && store.faults == faults {
      LoopCompletes(on, log, ended, loader.initialized, start, store.Now(), store.trace, from,
                    SeededQueue(start, latest), next, limit, exit);
    }
  }

  /** All match ids that any of the lives may seed. */
  function AllSources(latest: seq<Option<LatestRun>>): seq<string> {
    if latest == [] then [] else AllSources(latest[..|latest| - 1]) + Sources(latest[|latest| - 1])
  }

  lemma {:induction false} SourcesAmong(latest: seq<Option<LatestRun>>, life: nat)
    requires life < |latest|
    ensures forall id <- Sources(latest[life]) :: id in AllSources(latest)
  {
    if life < |latest| - 1 {
      SourcesAmong(latest[..|latest| - 1], life);
    }
  }

  /**
   * The process started again and again, once for every element of `latest`, each time for at most `limit`
   * batches. A crash is a life in which every command after some point fails: the state is then the one
   * the crash left behind. Whatever happens in how many lives, their history is one of claimed batches with
   * only seeding in between, and in every state between two commands no id is queued twice and each id ever
   * queued is queued or persisted, unless it is one that a batch of the history may lose; none may when the ids
   * have different suffixes and no removal takes effect in spite of its error. Once the seed anchor names a run,
   * all its match ids have been seeded (`AnchoredIsKept`).
   */
  method RunLives(store: Store, latest: seq<Option<LatestRun>>, on: Setting, saverBatch: nat, firstRun: nat, limit: nat,
                  ghost runs: nat -> seq<string>)
    returns (next: nat, ghost log: seq<Attempt>)
    requires WellFormed(on.api) && saverBatch > 0 && forall l <- latest :: IsLatest(l, runs)
    requires store.Valid() && RunsBelow(store.tables, firstRun) && Distinct(store.queue)
    modifies store
    ensures store.Valid() && old(store.trace) <= store.trace
    ensures RunsBelow(store.tables, next) && next == firstRun + |log|
    ensures History(old(store.Now()), log, store.Now(), on, AllSources(latest), firstRun)
    ensures SeededGrows(old(store.Now()), store.Now(), store.trace, |old(store.trace)|)
    ensures Distinct(store.queue) && AllDistinct(store.trace, |old(store.trace)|)
    ensures forall id | Kept(old(store.Now()), on.api, id) && !LostIn(log, id) ::
              Kept(store.Now(), on.api, id) && KeptThroughout(store.trace, |old(store.trace)|, on.api, id)
    ensures SuffixesDistinct(old(store.queue) + AllSources(latest)) && store.torn == old(store.torn) ==> !AnyLossy(log)
    ensures Safe(old(store.Now()), on.api) && !AnyLossy(log) ==>
      Safe(store.Now(), on.api) && AllSafe(store.trace, |old(store.trace)|, on.api)
    ensures StaysSeeded(old(store.Now()), store.Now(), store.trace, |old(store.trace)|, runs, None)
  {
    next, log := firstRun, [];
    ghost var start, from, sources := store.Now(), |store.trace|, AllSources(latest);
    SeedingLived(start, start, store.trace, from, on, sources, firstRun, runs, None);
    for life := 0 to |latest|
      invariant store.Valid() && old(store.trace) <= store.trace
      invariant Lived(start, log, store.Now(), store.trace, from, on, sources, firstRun, next, runs, None)
    {
      ghost var middle, between := store.Now(), store.trace;
      var loader := new Loader(on.batchSize);
      var run := next;
      var exit;
      ghost var more;
      exit, next, more := Run(store, loader, latest[life], on, saverBatch, run, limit, runs);
      SourcesAmong(latest, life);
      LivedTwice(start, log, middle, between, more, store.Now(), store.trace, from, on, sources,
                 Sources(latest[life]), firstRun, run, next, runs, None, latest[life]);
      log := log + more;
    }
    NoneLossyIf(start, log, store.Now(), on, sources, firstRun);
    LivedSafe(start, log, store.Now(), store.trace, from, on.api);
  }

  /** Where no batch may lose anything, nothing is lost at all. */
  lemma LivedSafe(start: Snapshot, log: seq<Attempt>, now: Snapshot, trace: seq<Snapshot>, from: nat, api: Api)
    requires StaysDistinct(start, now, trace, from) && StaysKept(start, now, trace, from, api, log)
    ensures Safe(start, api) && !AnyLossy(log) ==> Safe(now, api) && AllSafe(trace, from, api)
  {
    if Safe(start, api) && !AnyLossy(log) {
      forall id ensures Kept(now, api, id) && KeptThroughout(trace, from, api, id) {
        assert Kept(start, api, id) && !LostIn(log, id);
      }
      forall k | from <= k < |trace| ensures Safe(trace[k], api) {
        forall id ensures Kept(trace[k], api, id) {
          assert KeptThroughout(trace, from, api, id);
        }
      }
    }
  }
}
