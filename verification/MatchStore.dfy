/**
 * The nineteen match-data tables, the durable queue of pending match ids, and the commands that the
 * pipeline sends to the database. A command takes effect as a whole or not at all, and one that reports an
 * error may nevertheless have taken effect.
 */
module MatchStore {
  import opened CombineStreams
  import opened Deduping
  import opened Results
  import opened Sequences
  import opened Spreading

  datatype Table =
    | Metadata | Info | Bans | Feats | Objectives | ParticipantStats
    | ParticipantChallenges | ParticipantPerkValues | ParticipantPerkIds
    | TlParticipantStats | TlBuildingKill | TlChampionKill | TlChampionSpecialKill | TlDragonSoulGiven
    | TlEliteMonsterKill | TlPayloadEvent | TlTurretPlateDestroyed | TlVictimDamageDealt | TlVictimDamageReceived

  const NON_TIMELINE_INSERTS: seq<Table> :=
    [Metadata, Info, Bans, Feats, Objectives, ParticipantStats,
     ParticipantChallenges, ParticipantPerkValues, ParticipantPerkIds]

  const TIMELINE_INSERTS: seq<Table> :=
    [TlParticipantStats, TlBuildingKill, TlChampionKill, TlChampionSpecialKill, TlDragonSoulGiven,
     TlEliteMonsterKill, TlPayloadEvent, TlTurretPlateDestroyed, TlVictimDamageDealt, TlVictimDamageReceived]

  const NON_TIMELINE_DELETES: seq<Table> :=
    [Metadata, Info, Bans, Feats, Objectives, ParticipantStats,
     ParticipantChallenges, ParticipantPerkValues, ParticipantPerkIds]

  const TIMELINE_DELETES: seq<Table> :=
    [TlParticipantStats, TlBuildingKill, TlChampionKill, TlChampionSpecialKill, TlDragonSoulGiven,
     TlEliteMonsterKill, TlPayloadEvent, TlTurretPlateDestroyed, TlVictimDamageDealt, TlVictimDamageReceived]

  function InsertsOf(stream: Stream): seq<Table> {
    match stream
    case NonTimeline => NON_TIMELINE_INSERTS
    case Timeline => TIMELINE_INSERTS
  }

  /** The position of a table in the insert list of its stream. */
  function InsertOrder(t: Table): nat {
    match t
    case Metadata => 0 case Info => 1 case Bans => 2 case Feats => 3 case Objectives => 4 case ParticipantStats => 5
    case ParticipantChallenges => 6 case ParticipantPerkValues => 7 case ParticipantPerkIds => 8
    case TlParticipantStats => 0 case TlBuildingKill => 1 case TlChampionKill => 2 case TlChampionSpecialKill => 3
    case TlDragonSoulGiven => 4 case TlEliteMonsterKill => 5 case TlPayloadEvent => 6 case TlTurretPlateDestroyed => 7
    case TlVictimDamageDealt => 8 case TlVictimDamageReceived => 9
  }

  lemma InsertsDistinct(stream: Stream)
    ensures Distinct(InsertsOf(stream))
  {
    assert forall i | 0 <= i < |InsertsOf(stream)| :: InsertOrder(InsertsOf(stream)[i]) == i;
  }

  /** The tables that a timeline document fills; the others are filled by the other document. */
  predicate IsTimelineTable(t: Table) {
    match t
    case Metadata => false case Info => false case Bans => false case Feats => false case Objectives => false
    case ParticipantStats => false case ParticipantChallenges => false case ParticipantPerkValues => false
    case ParticipantPerkIds => false
    case TlParticipantStats => true case TlBuildingKill => true case TlChampionKill => true
    case TlChampionSpecialKill => true case TlDragonSoulGiven => true case TlEliteMonsterKill => true
    case TlPayloadEvent => true case TlTurretPlateDestroyed => true case TlVictimDamageDealt => true
    case TlVictimDamageReceived => true
  }

  lemma InsertsExactly(stream: Stream, t: Table)
    ensures t in InsertsOf(stream) <==> (IsTimelineTable(t) <==> stream.Timeline?)
  {
    assert forall u <- InsertsOf(stream) :: IsTimelineTable(u) <==> stream.Timeline?;
    if IsTimelineTable(t) <==> stream.Timeline? {
      assert InsertsOf(stream)[InsertOrder(t)] == t;
    }
  }

  /** Every table that is ever written is in one of the two delete lists. */
  lemma DeletesCoverAll(t: Table)
    ensures t in NON_TIMELINE_DELETES || t in TIMELINE_DELETES
  {
  }

  /** A parsed row: the text of its match id column and the rest of it. */
  datatype Parsed = Parsed(mid: string, body: string)

  /** A stored row is a parsed row stamped with the run that wrote it. */
  datatype Row = Row(run: nat, parsed: Parsed)

  function Stamped(run: nat, rows: seq<Parsed>): seq<Row> {
    seq(|rows|, i requires 0 <= i < |rows| => Row(run, rows[i]))
  }

  // ----- Which rows a delete by match ids names -----

  /** `rsplit("_", 1)[-1]`: what follows the last underscore, or everything. */
  function Suffix(id: string): string {
    if id == "" || id[|id| - 1] == '_' then "" else Suffix(id[..|id| - 1]) + [id[|id| - 1]]
  }

  predicate IsDigits(s: string) {
    s != "" && forall i | 0 <= i < |s| :: '0' <= s[i] <= '9'
  }

  /** The numeric suffixes of the ids that have one, in order. */
  function NumericSuffixes(ids: seq<string>): seq<string> {
    if ids == [] then []
    else
      var rest, candidate := NumericSuffixes(ids[..|ids| - 1]), Suffix(ids[|ids| - 1]);
      if IsDigits(candidate) then rest + [candidate] else rest
  }

  /** `_extract_numeric_match_ids`. */
  method ExtractNumeric(ids: seq<string>) returns (out: seq<string>)
    ensures out == Deduped(NumericSuffixes(ids))
  {
    out := [];
    var seen: set<string> := {};
    for i := 0 to |ids|
      invariant out == Deduped(NumericSuffixes(ids[..i]))
      invariant forall v :: v in seen <==> v in out
    {
      var candidate := Suffix(ids[i]);
      assert ids[..i + 1][..i] == ids[..i];
      if !IsDigits(candidate) || candidate in seen {
        continue;
      }
      seen := seen + {candidate};
      out := out + [candidate];
    }
    assert ids[..|ids|] == ids;
  }

  predicate HasNumericSuffix(id: string, s: string) {
    IsDigits(Suffix(id)) && s == Suffix(id)
  }

  /** A delete for `id` names a row by the full id or by the id's numeric suffix. */
  predicate NamedBy(mid: string, id: string) {
    id != "" && (mid == id || HasNumericSuffix(id, mid))
  }

  ghost predicate Named(mid: string, ids: seq<string>) {
    exists id :: id in ids && NamedBy(mid, id)
  }

  lemma {:induction false} SuffixAfter(prefix: string, rest: string)
    requires '_' !in rest
    ensures Suffix(prefix + "_" + rest) == rest
  {
    var id := prefix + "_" + rest;
    if rest == "" {
      assert id[|id| - 1] == '_';
    } else {
      var init := rest[..|rest| - 1];
      SuffixAfter(prefix, init);
      assert id[..|id| - 1] == prefix + "_" + init;
      assert rest == init + [rest[|rest| - 1]];
    }
  }

  /**
   * The ids of the API are a platform, an underscore and a number: a delete for such an id names the rows under the
   * whole id and, if what follows the last underscore consists of digits, those under it.
   */
  lemma NamedExactly(mid: string, prefix: string, rest: string)
    requires '_' !in rest
    ensures NamedBy(mid, prefix + "_" + rest)
      <==> mid == prefix + "_" + rest || (mid == rest && rest != "" && forall c <- rest :: c in "0123456789")
  {
    SuffixAfter(prefix, rest);
    forall c: char ensures '0' <= c <= '9' <==> c in "0123456789" {
    }
    assert forall i | 0 <= i < |rest| :: rest[i] in rest;
  }

  lemma {:induction false} NumericSuffixesMembers(ids: seq<string>, s: string)
    ensures s in NumericSuffixes(ids) <==> exists id :: id in ids && HasNumericSuffix(id, s)
  {
    if ids != [] {
      var init, last := ids[..|ids| - 1], ids[|ids| - 1];
      NumericSuffixesMembers(init, s);
      assert s in NumericSuffixes(ids) <==> s in NumericSuffixes(init) || HasNumericSuffix(last, s);
      assert ids == init + [last];
      assert forall id :: id in ids <==> id in init || id == last;
    }
  }

  /** The two lists sent with the delete command name exactly the rows of the given ids. */
  lemma DeleteListsName(ids: seq<string>, mid: string)
    ensures mid in Deduped(ids) || mid in Deduped(NumericSuffixes(Deduped(ids))) <==> Named(mid, ids)
  {
    DedupedMeaning(ids);
    DedupedMeaning(NumericSuffixes(Deduped(ids)));
    NumericSuffixesMembers(Deduped(ids), mid);
    if mid in ids && mid != "" {
      assert NamedBy(mid, mid);
    }
  }

  // ----- Deletes -----

  function OtherRuns(run: nat): Row -> bool { (r: Row) => r.run != run }

  function OtherIds(run: nat, ids: seq<string>, numericIds: seq<string>): Row -> bool {
    (r: Row) => !(r.run == run && (r.parsed.mid in ids || r.parsed.mid in numericIds))
  }

  function NoneOf(ids: seq<string>): string -> bool { (id: string) => id !in ids }

  /** `rows` without the rows of `run`. */
  function WithoutRun(rows: seq<Row>, run: nat): seq<Row> {
    Filter(rows, OtherRuns(run))
  }

  /** `rows` without the rows of `run` whose match id is in one of the two lists. */
  function WithoutIds(rows: seq<Row>, run: nat, ids: seq<string>, numericIds: seq<string>): seq<Row> {
    Filter(rows, OtherIds(run, ids, numericIds))
  }

  function WithoutQueued(queue: seq<string>, ids: seq<string>): seq<string> {
    Filter(queue, NoneOf(ids))
  }

  lemma WithoutRunMembers(rows: seq<Row>, run: nat)
    ensures forall r :: r in WithoutRun(rows, run) <==> r in rows && r.run != run
  {
    forall r: Row { FilterMembers(rows, OtherRuns(run), r); }
  }

  /** A delete by match ids removes the named rows of its run and touches no other row. */
  lemma WithoutIdsMembers(rows: seq<Row>, run: nat, ids: seq<string>, numericIds: seq<string>)
    ensures forall r :: r in WithoutIds(rows, run, ids, numericIds)
                   <==> r in rows && !(r.run == run && (r.parsed.mid in ids || r.parsed.mid in numericIds))
    ensures WithoutRun(WithoutIds(rows, run, ids, numericIds), run) == WithoutRun(rows, run)
  {
    forall r: Row { FilterMembers(rows, OtherIds(run, ids, numericIds), r); }
    FilterTwice(rows, OtherIds(run, ids, numericIds), OtherRuns(run));
  }

  lemma WithoutQueuedMembers(queue: seq<string>, ids: seq<string>)
    ensures forall id :: id in WithoutQueued(queue, ids) <==> id in queue && id !in ids
    ensures Distinct(queue) ==> Distinct(WithoutQueued(queue, ids))
  {
    forall id: string { FilterMembers(queue, NoneOf(ids), id); }
    if Distinct(queue) {
      FilterDistinct(queue, NoneOf(ids));
    }
  }

  // ----- The database -----

  /**
   * `seeded` collects every id that was ever put into the queue; the seed anchor names the run seeded last;
   * `torn` counts the removals from the queue that took effect although they reported an error.
   */
  datatype Snapshot = Snapshot(tables: map<Table, seq<Row>>, queue: seq<string>, seeded: set<string>,
                               seedAnchor: Option<nat>, torn: nat)

  ghost predicate Total(tables: map<Table, seq<Row>>) {
    forall t: Table :: t in tables
  }

  /**
   * The database. `trace` records its state after every command sent, so that a property of all
   * recorded states also holds at whatever point the process may be killed; `faults` counts the commands that
   * have reported an error.
   */
  class Store {
    var tables: map<Table, seq<Row>>
    var queue: seq<string>
    var seedAnchor: Option<nat>
    ghost var seeded: set<string>
    ghost var torn: nat
    ghost var faults: nat
    ghost var trace: seq<Snapshot>

    ghost predicate Valid()
      reads this
    {
      Total(tables)
    }

    ghost function Now(): Snapshot
      reads this
    {
      Snapshot(tables, queue, seeded, seedAnchor, torn)
    }

    /** One insert command. */
    method Insert(t: Table, rows: seq<Row>) returns (ok: bool)
      requires Valid()
      modifies this
      ensures Valid() && Now() == old(Now()).(tables := tables)
      ensures tables == old(tables)[t := old(tables[t]) + rows] || (!ok && tables == old(tables))
      ensures trace == old(trace) + [Now()] && faults == old(faults) + if ok then 0 else 1
    {
      var applied: bool := *;
      var reported: bool := *;
      if applied {
        tables := tables[t := tables[t] + rows];
      }
      ok := applied && reported;
      if !ok {
        faults := faults + 1;
      }
      trace := trace + [Now()];
    }

    /** `delete_by_run_id`. */
    method DeleteRun(t: Table, run: nat) returns (ok: bool)
      requires Valid()
      modifies this
      ensures Valid() && Now() == old(Now()).(tables := tables)
      ensures tables == old(tables)[t := WithoutRun(old(tables[t]), run)] || (!ok && tables == old(tables))
      ensures trace == old(trace) + [Now()] && faults == old(faults) + if ok then 0 else 1
    {
      var applied: bool := *;
      var reported: bool := *;
      if applied {
        tables := tables[t := WithoutRun(tables[t], run)];
      }
      ok := applied && reported;
      if !ok {
        faults := faults + 1;
      }
      trace := trace + [Now()];
    }

    /** The command of `delete_by_run_id_and_matchids`. */
    method DeleteIds(t: Table, run: nat, ids: seq<string>, numericIds: seq<string>) returns (ok: bool)
      requires Valid()
      modifies this
      ensures Valid() && Now() == old(Now()).(tables := tables)
      ensures tables == old(tables)[t := WithoutIds(old(tables[t]), run, ids, numericIds)]
              || (!ok && tables == old(tables))
      ensures trace == old(trace) + [Now()] && faults == old(faults) + if ok then 0 else 1
    {
      var applied: bool := *;
      var reported: bool := *;
      if applied {
        tables := tables[t := WithoutIds(tables[t], run, ids, numericIds)];
      }
      ok := applied && reported;
      if !ok {
        faults := faults + 1;
      }
      trace := trace + [Now()];
    }

    /** The command of `mark_matchids_finished`. */
    method RemoveQueued(ids: seq<string>) returns (ok: bool)
      requires Valid()
      modifies this
      ensures Valid() && Now() == old(Now()).(queue := queue, torn := torn)
      ensures torn == old(torn) || (!ok && torn == old(torn) + 1)
      ensures queue == if ok || torn > old(torn) then WithoutQueued(old(queue), ids) else old(queue)
      ensures trace == old(trace) + [Now()] && faults == old(faults) + if ok then 0 else 1
    {
      var applied: bool := *;
      var reported: bool := *;
      if applied {
        queue := WithoutQueued(queue, ids);
      }
      ok := applied && reported;
      if !ok {
        faults := faults + 1;
        torn := torn + if applied then 1 else 0;
      }
      trace := trace + [Now()];
    }

    /** The insert of freshly seeded ids into the queue. */
    method InsertQueued(ids: seq<string>) returns (ok: bool)
      requires Valid()
      modifies this
      ensures Valid() && Now() == old(Now()).(queue := queue, seeded := seeded)
      ensures
        || (queue == old(queue) + ids && seeded == old(seeded) + set id | id in ids)
        || (!ok && queue == old(queue) && seeded == old(seeded))
      ensures trace == old(trace) + [Now()] && faults == old(faults) + if ok then 0 else 1
    {
      var applied: bool := *;
      var reported: bool := *;
      if applied {
        queue, seeded := queue + ids, seeded + set id | id in ids;
      }
      ok := applied && reported;
      if !ok {
        faults := faults + 1;
      }
      trace := trace + [Now()];
    }

    /** The insert of the seed anchor: from now on it is the newest one. */
    method InsertSeedAnchor(run: nat) returns (ok: bool)
      requires Valid()
      modifies this
      ensures Valid() && Now() == old(Now()).(seedAnchor := seedAnchor)
      ensures seedAnchor == Some(run) || (!ok && seedAnchor == old(seedAnchor))
      ensures trace == old(trace) + [Now()] && faults == old(faults) + if ok then 0 else 1
    {
      var applied: bool := *;
      var reported: bool := *;
      if applied {
        seedAnchor := Some(run);
      }
      ok := applied && reported;
      if !ok {
        faults := faults + 1;
      }
      trace := trace + [Now()];
    }
  }
}
