/**
 * Splitting a match timeline into tables (parsers/timeline.py): frame buckets, the seven event tables and
 * the damage instances of champion kills.
 */
module Timeline {
  import opened KillId
  import opened Results
  import opened Sequences

  const FRAME_TIMESTAMP_BUCKET_MS: int := 60_000

  /** `nearest_frame_timestamp`. */
  function NearestFrameTimestamp(ts: int): int {
    if ts <= 0 then 0
    else (ts + FRAME_TIMESTAMP_BUCKET_MS / 2) / FRAME_TIMESTAMP_BUCKET_MS * FRAME_TIMESTAMP_BUCKET_MS
  }

  /**
   * It is the one whole minute closest to the time, the later one of two; a time before the start counts as the
   * start.
   */
  lemma NearestMinute(ts: int, minute: int)
    ensures
      var t := if ts < 0 then 0 else ts;
      NearestFrameTimestamp(ts) == 60_000 * minute <==> -30_000 <= t - 60_000 * minute < 30_000
  {
  }

  lemma NearestMonotone(a: int, b: int)
    requires a <= b
    ensures NearestFrameTimestamp(a) <= NearestFrameTimestamp(b)
    ensures NearestFrameTimestamp(NearestFrameTimestamp(a)) == NearestFrameTimestamp(a)
  {
    if a > 0 {
      var k := (a + 30_000) / 60_000;
      assert NearestFrameTimestamp(a) == 60_000 * k;
      assert (60_000 * k + 30_000) / 60_000 == k;
    }
  }

  // ----- Events -----

  datatype EventType =
    | BuildingKill | ChampionKill | ChampionSpecialKill | DragonSoulGiven | EliteMonsterKill | TurretPlateDestroyed
    | WardKill | WardPlaced | GameEnd | ObjectiveBountyPrestart | ObjectiveBountyFinish | FeatUpdate
    | ChampionTransform | ItemDestroyed | ItemPurchased | ItemSold | ItemUndo | LevelUp | PauseEnd | SkillLevelUp
    | Unknown

  datatype Damage = Damage(participantId: int, physical: nat, magic: nat, trueDamage: nat, rest: string)

  /**
   * A validated event. The damage lists are the optional keys of a champion kill, the last two under their
   * alias; `rest` stands for the keys that are copied as they are.
   */
  datatype Event = Event(kind: EventType, timestamp: int, killerId: int, victimId: int,
                         damageDealt: Option<seq<Damage>>, damageReceived: Option<seq<Damage>>,
                         teamfightDealt: Option<seq<Damage>>, teamfightReceived: Option<seq<Damage>>, rest: string)

  /** A participant's statistics at the time of a frame. */
  datatype ParticipantFrame = ParticipantFrame(participantId: nat, stats: string)

  datatype Frame = Frame(timestamp: int, events: seq<Event>, participants: seq<ParticipantFrame>)

  /** The event types `RareEventParser` collects. */
  const RARE_TYPES: set<EventType> := {
    WardKill, WardPlaced, GameEnd, ObjectiveBountyPrestart, ObjectiveBountyFinish, FeatUpdate, ChampionTransform,
    ItemDestroyed, ItemPurchased, ItemSold, ItemUndo, LevelUp, PauseEnd, SkillLevelUp, Unknown
  }

  /** An event together with the frame timestamp its rows carry. */
  datatype Framed = Framed(frame: int, event: Event)

  function InFrame(frame: Frame): seq<Framed> {
    seq(|frame.events|,
        i requires 0 <= i < |frame.events| => Framed(NearestFrameTimestamp(frame.timestamp), frame.events[i]))
  }

  /** All events of a timeline in order. */
  function AllEvents(frames: seq<Frame>): seq<Framed> {
    if frames == [] then [] else AllEvents(frames[..|frames| - 1]) + InFrame(frames[|frames| - 1])
  }

  function OfType(kind: EventType): Framed -> bool {
    (f: Framed) => f.event.kind == kind
  }

  function OfTypes(kinds: set<EventType>): Framed -> bool {
    (f: Framed) => f.event.kind in kinds
  }

  function Map<A, B>(s: seq<A>, f: A -> B): seq<B> {
    seq(|s|, i requires 0 <= i < |s| => f(s[i]))
  }

  // ----- The row parsers -----

  /** The row of a typed event: the event's own keys, the frame and the match. */
  datatype EventRow = EventRow(matchId: int, frame: int, event: Event)

  datatype KillRow = KillRow(matchId: int, frame: int, timestamp: int, killerId: int, victimId: int, eventId: string,
                             rest: string)

  datatype PayloadRow = PayloadRow(matchId: int, frame: int, kind: EventType, timestamp: int, payload: string)

  function EventRowOf(matchId: int): Framed -> EventRow {
    (f: Framed) => EventRow(matchId, f.frame, f.event)
  }

  function KillIdOf(matchId: int, e: Event): string {
    ChampionKillEventId(matchId, e.timestamp, e.killerId, e.victimId)
  }

  function KillRowOf(matchId: int): Framed -> KillRow {
    (f: Framed) => KillRow(matchId, f.frame, f.event.timestamp, f.event.killerId, f.event.victimId,
                           KillIdOf(matchId, f.event), f.event.rest)
  }

  function PayloadRowOf(matchId: int): Framed -> PayloadRow {
    (f: Framed) => PayloadRow(matchId, f.frame, f.event.kind, f.event.timestamp, f.event.rest)
  }

  datatype StatsRow = StatsRow(matchId: int, frame: int, participantId: nat, stats: string)

  function StatsRowOf(matchId: int, frame: Frame): ParticipantFrame -> StatsRow {
    (p: ParticipantFrame) => StatsRow(matchId, NearestFrameTimestamp(frame.timestamp), p.participantId, p.stats)
  }

  /** One row for every participant of every frame, in order. */
  function StatsRows(frames: seq<Frame>, matchId: int): seq<StatsRow> {
    if frames == [] then []
    else
      var last := frames[|frames| - 1];
      StatsRows(frames[..|frames| - 1], matchId) + Map(last.participants, StatsRowOf(matchId, last))
  }

  /** `ParticipantStatsParser.parse`. */
  method ParseParticipantStats(frames: seq<Frame>, matchId: int) returns (rows: seq<StatsRow>)
    ensures rows == StatsRows(frames, matchId)
  {
    rows := [];
    for i := 0 to |frames|
      invariant rows == StatsRows(frames[..i], matchId)
    {
      ghost var before := rows;
      var participants, row := frames[i].participants, StatsRowOf(matchId, frames[i]);
      for j := 0 to |participants|
        invariant rows == before + Map(participants[..j], row)
      {
        assert Map(participants[..j + 1], row) == Map(participants[..j], row) + [row(participants[j])];
        rows := rows + [row(participants[j])];
      }
      assert participants[..|participants|] == participants && frames[..i + 1][..i] == frames[..i];
    }
    assert frames[..|frames|] == frames;
  }

  /** A participant of a frame has its row, and there is no other row. */
  lemma {:induction false} StatsRowsExactly(frames: seq<Frame>, matchId: int, row: StatsRow)
    ensures row in StatsRows(frames, matchId) <==> exists f, p ::
      f in frames && p in f.participants
      && row == StatsRow(matchId, NearestFrameTimestamp(f.timestamp), p.participantId, p.stats)
    ensures |StatsRows(frames, matchId)| == ParticipantCount(frames)
  {
    if frames != [] {
      var init, last := frames[..|frames| - 1], frames[|frames| - 1];
      StatsRowsExactly(init, matchId, row);
      SplitLast(frames);
      StatsOfFrame(last, matchId, row);
      assert forall f :: f in frames <==> f in init || f == last;
    }
  }

  lemma StatsOfFrame(frame: Frame, matchId: int, row: StatsRow)
    ensures row in Map(frame.participants, StatsRowOf(matchId, frame)) <==> exists p ::
      p in frame.participants
      && row == StatsRow(matchId, NearestFrameTimestamp(frame.timestamp), p.participantId, p.stats)
  {
    MapImages(frame.participants, StatsRowOf(matchId, frame), row);
  }

  function ParticipantCount(frames: seq<Frame>): nat {
    if frames == [] then 0 else ParticipantCount(frames[..|frames| - 1]) + |frames[|frames| - 1].participants|
  }

  lemma MapImages<A, B>(s: seq<A>, f: A -> B, y: B)
    ensures y in Map(s, f) <==> exists x :: x in s && f(x) == y
  {
    if y in Map(s, f) {
      var i :| 0 <= i < |s| && Map(s, f)[i] == y;
      assert s[i] in s;
    }
    if x :| x in s && f(x) == y {
      var i :| 0 <= i < |s| && s[i] == x;
      assert Map(s, f)[i] == y;
    }
  }

  lemma NextEvent<R>(done: seq<Framed>, events: seq<Framed>, j: nat, wanted: Framed -> bool, row: Framed -> R)
    requires j < |events|
    ensures Map(Filter(done + events[..j + 1], wanted), row) ==
            Map(Filter(done + events[..j], wanted), row) + if wanted(events[j]) then [row(events[j])] else []
  {
    var before := done + events[..j];
    assert done + events[..j + 1] == before + [events[j]];
    assert (before + [events[j]])[..|before|] == before;
  }

  /** The loop of `EventTypeParser.parse`, `EventPayloadParser.parse` and their overrides. */
  method ParseEvents<R>(frames: seq<Frame>, wanted: Framed -> bool, row: Framed -> R) returns (rows: seq<R>)
    ensures rows == Map(Filter(AllEvents(frames), wanted), row)
  {
    rows := [];
    for i := 0 to |frames|
      invariant rows == Map(Filter(AllEvents(frames[..i]), wanted), row)
    {
      assert frames[..i + 1][..i] == frames[..i];
      var frameTimestamp := NearestFrameTimestamp(frames[i].timestamp);
      ghost var done, events := AllEvents(frames[..i]), InFrame(frames[i]);
      assert done + events[..0] == done;
      for j := 0 to |frames[i].events|
        invariant rows == Map(Filter(done + events[..j], wanted), row)
      {
        NextEvent(done, events, j, wanted, row);
        var framed := Framed(frameTimestamp, frames[i].events[j]);
        if !wanted(framed) {
          continue;
        }
        rows := rows + [row(framed)];
      }
      assert events[..|events|] == events;
    }
    assert frames[..|frames|] == frames;
  }

  // ----- Damage instances -----

  datatype Direction = Dealt | Received

  datatype DamageRow = DamageRow(matchId: int, frame: int, timestamp: int, eventId: string, direction: Direction,
                                 idx: nat, damage: Damage)

  /** The list under the key of the direction, else under its alias, else none. */
  function Instances(e: Event, direction: Direction): seq<Damage> {
    var main := if direction.Dealt? then e.damageDealt else e.damageReceived;
    var teamfight := if direction.Dealt? then e.teamfightDealt else e.teamfightReceived;
    if main.Some? then main.value else if teamfight.Some? then teamfight.value else []
  }

  function DamageRowAt(matchId: int, f: Framed, direction: Direction, idx: nat): DamageRow
    requires idx < |Instances(f.event, direction)|
  {
    DamageRow(matchId, f.frame, f.event.timestamp, KillIdOf(matchId, f.event), direction, idx,
              Instances(f.event, direction)[idx])
  }

  /** The first `n` damage rows of one kill. */
  function KillDamage(matchId: int, f: Framed, direction: Direction, n: nat): seq<DamageRow>
    requires n <= |Instances(f.event, direction)|
  {
    seq(n, idx requires 0 <= idx < n => DamageRowAt(matchId, f, direction, idx))
  }

  function DamageRows(matchId: int, kills: seq<Framed>, direction: Direction): seq<DamageRow> {
    if kills == [] then []
    else
      var last := kills[|kills| - 1];
      DamageRows(matchId, kills[..|kills| - 1], direction)
      + KillDamage(matchId, last, direction, |Instances(last.event, direction)|)
  }

  lemma NextKill(matchId: int, done: seq<Framed>, events: seq<Framed>, j: nat, direction: Direction)
    requires j < |events|
    ensures var f := events[j];
      DamageRows(matchId, Filter(done + events[..j + 1], OfType(ChampionKill)), direction) ==
      DamageRows(matchId, Filter(done + events[..j], OfType(ChampionKill)), direction)
      + if f.event.kind == ChampionKill then KillDamage(matchId, f, direction, |Instances(f.event, direction)|) else []
  {
    var before := done + events[..j];
    var kills := Filter(before, OfType(ChampionKill));
    assert done + events[..j + 1] == before + [events[j]];
    assert (before + [events[j]])[..|before|] == before;
    assert (kills + [events[j]])[..|kills|] == kills;
  }

  /** `ChampionKillDamageInstanceParser.parse`. */
  method ParseDamage(frames: seq<Frame>, matchId: int, direction: Direction) returns (rows: seq<DamageRow>)
    ensures rows == DamageRows(matchId, Filter(AllEvents(frames), OfType(ChampionKill)), direction)
  {
    rows := [];
    for i := 0 to |frames|
      invariant rows == DamageRows(matchId, Filter(AllEvents(frames[..i]), OfType(ChampionKill)), direction)
    {
      assert frames[..i + 1][..i] == frames[..i];
      var frameTimestamp := NearestFrameTimestamp(frames[i].timestamp);
      ghost var done, events := AllEvents(frames[..i]), InFrame(frames[i]);
      assert done + events[..0] == done;
      for j := 0 to |frames[i].events|
        invariant rows == DamageRows(matchId, Filter(done + events[..j], OfType(ChampionKill)), direction)
      {
        NextKill(matchId, done, events, j, direction);
        var framed := Framed(frameTimestamp, frames[i].events[j]);
        if framed.event.kind != ChampionKill {
          continue;
        }
        var added := KillDamageRows(framed, matchId, direction);
        rows := rows + added;
      }
      assert events[..|events|] == events;
    }
    assert frames[..|frames|] == frames;
  }

  /** The rows of one kill. */
  method KillDamageRows(f: Framed, matchId: int, direction: Direction) returns (rows: seq<DamageRow>)
    ensures rows == KillDamage(matchId, f, direction, |Instances(f.event, direction)|)
  {
    var e := f.event;
    var cid := ChampionKillEventId(matchId, e.timestamp, e.killerId, e.victimId);
    var instances := Instances(e, direction);
    rows := [];
    for idx := 0 to |instances|
      invariant rows == KillDamage(matchId, f, direction, idx)
    {
      rows := rows + [DamageRow(matchId, f.frame, e.timestamp, cid, direction, idx, instances[idx])];
    }
  }

  // ----- The tables -----

  datatype Tables = Tables(participantStats: seq<StatsRow>, buildingKill: seq<EventRow>, championKill: seq<KillRow>,
                           championSpecialKill: seq<EventRow>, dragonSoulGiven: seq<EventRow>,
                           eliteMonsterKill: seq<EventRow>,
                           payloadEvents: seq<PayloadRow>, turretPlateDestroyed: seq<EventRow>,
                           damageDealt: seq<DamageRow>, damageReceived: seq<DamageRow>)

  function Typed(frames: seq<Frame>, matchId: int, kind: EventType): seq<EventRow> {
    Map(Filter(AllEvents(frames), OfType(kind)), EventRowOf(matchId))
  }

  function Kills(frames: seq<Frame>): seq<Framed> {
    Filter(AllEvents(frames), OfType(ChampionKill))
  }

  function TablesOf(frames: seq<Frame>, matchId: int): Tables {
    Tables(StatsRows(frames, matchId), Typed(frames, matchId, BuildingKill), Map(Kills(frames), KillRowOf(matchId)),
           Typed(frames, matchId, ChampionSpecialKill), Typed(frames, matchId, DragonSoulGiven),
           Typed(frames, matchId, EliteMonsterKill),
           Map(Filter(AllEvents(frames), OfTypes(RARE_TYPES)), PayloadRowOf(matchId)),
           Typed(frames, matchId, TurretPlateDestroyed),
           DamageRows(matchId, Kills(frames), Dealt), DamageRows(matchId, Kills(frames), Received))
  }

  const NO_TABLES := Tables([], [], [], [], [], [], [], [], [], [])

  /** A timeline that passed validation. */
  datatype Info = Info(frames: seq<Frame>, gameId: int)

  datatype TimelineError = SchemaInvalid

  /** `MatchDataTimelineParsingOrchestrator.run`: an aborted game has no rows, an invalid payload is an error. */
  method ParseTimeline(aborted: bool, validated: Option<Info>) returns (r: Result<Tables, TimelineError>)
    ensures aborted ==> r == Ok(NO_TABLES)
    ensures !aborted && validated.None? ==> r == Err(SchemaInvalid)
    ensures !aborted && validated.Some? ==> r == Ok(TablesOf(validated.value.frames, validated.value.gameId))
  {
    if aborted {
      return Ok(NO_TABLES);
    }
    if validated.None? {
      return Err(SchemaInvalid);
    }
    var frames, matchId := validated.value.frames, validated.value.gameId;
    var stats := ParseParticipantStats(frames, matchId);
    var building := ParseEvents(frames, OfType(BuildingKill), EventRowOf(matchId));
    var kill := ParseEvents(frames, OfType(ChampionKill), KillRowOf(matchId));
    var special := ParseEvents(frames, OfType(ChampionSpecialKill), EventRowOf(matchId));
    var dragon := ParseEvents(frames, OfType(DragonSoulGiven), EventRowOf(matchId));
    var elite := ParseEvents(frames, OfType(EliteMonsterKill), EventRowOf(matchId));
    var payload := ParseEvents(frames, OfTypes(RARE_TYPES), PayloadRowOf(matchId));
    var turret := ParseEvents(frames, OfType(TurretPlateDestroyed), EventRowOf(matchId));
    var dealt := ParseDamage(frames, matchId, Dealt);
    var received := ParseDamage(frames, matchId, Received);
    r := Ok(Tables(stats, building, kill, special, dragon, elite, payload, turret, dealt, received));
  }

  // ----- The seven event tables partition the events -----

  /** How many of the seven event tables take an event. */
  function TablesTaking(f: Framed): nat {
    One(OfType(BuildingKill)(f)) + One(OfType(ChampionKill)(f)) + One(OfType(ChampionSpecialKill)(f))
    + One(OfType(DragonSoulGiven)(f)) + One(OfType(EliteMonsterKill)(f)) + One(OfTypes(RARE_TYPES)(f))
    + One(OfType(TurretPlateDestroyed)(f))
  }

  function One(b: bool): nat {
    if b then 1 else 0
  }

  lemma ExactlyOneTable(f: Framed)
    ensures TablesTaking(f) == 1
  {
  }

  /** The events of the seven tables, counted with multiplicity. */
  ghost function Together(all: seq<Framed>): multiset<Framed> {
    multiset(Filter(all, OfType(BuildingKill))) + multiset(Filter(all, OfType(ChampionKill)))
    + multiset(Filter(all, OfType(ChampionSpecialKill))) + multiset(Filter(all, OfType(DragonSoulGiven)))
    + multiset(Filter(all, OfType(EliteMonsterKill))) + multiset(Filter(all, OfTypes(RARE_TYPES)))
    + multiset(Filter(all, OfType(TurretPlateDestroyed)))
  }

  /** The seven tables together hold every event as often as the timeline does. */
  lemma EventsPartitioned(all: seq<Framed>)
    ensures Together(all) == multiset(all)
  {
    forall f: Framed ensures Together(all)[f] == multiset(all)[f] {
      FilterCount(all, OfType(BuildingKill), f);
      FilterCount(all, OfType(ChampionKill), f);
      FilterCount(all, OfType(ChampionSpecialKill), f);
      FilterCount(all, OfType(DragonSoulGiven), f);
      FilterCount(all, OfType(EliteMonsterKill), f);
      FilterCount(all, OfTypes(RARE_TYPES), f);
      FilterCount(all, OfType(TurretPlateDestroyed), f);
      ExactlyOneTable(f);
    }
  }

  function EventCount(frames: seq<Frame>): nat {
    if frames == [] then 0 else EventCount(frames[..|frames| - 1]) + |frames[|frames| - 1].events|
  }

  lemma {:induction false} AllEventsCount(frames: seq<Frame>)
    ensures |AllEvents(frames)| == EventCount(frames)
  {
    if frames != [] {
      AllEventsCount(frames[..|frames| - 1]);
    }
  }

  /** Every event lands in exactly one table, so the table sizes sum to the event count. */
  lemma TablesSumToEvents(frames: seq<Frame>, matchId: int)
    ensures var t := TablesOf(frames, matchId);
      |t.buildingKill| + |t.championKill| + |t.championSpecialKill| + |t.dragonSoulGiven| + |t.eliteMonsterKill|
      + |t.payloadEvents| + |t.turretPlateDestroyed| == EventCount(frames)
  {
    var all := AllEvents(frames);
    AllEventsCount(frames);
    EventsPartitioned(all);
    assert |multiset(all)| == |all|;
  }

  // ----- The tables, told by the events of the timeline -----

  /** `e` is an event of the timeline, in a frame with this rounded timestamp. */
  ghost predicate Occurs(frames: seq<Frame>, frame: int, e: Event) {
    exists f :: f in frames && e in f.events && frame == NearestFrameTimestamp(f.timestamp)
  }

  lemma {:induction false} AllEventsExactly(frames: seq<Frame>, f: Framed)
    ensures f in AllEvents(frames) <==> Occurs(frames, f.frame, f.event)
  {
    if frames != [] {
      var init, last := frames[..|frames| - 1], frames[|frames| - 1];
      AllEventsExactly(init, f);
      SplitLast(frames);
      assert forall x :: x in frames <==> x in init || x == last;
      if f.event in last.events && f.frame == NearestFrameTimestamp(last.timestamp) {
        var i :| 0 <= i < |last.events| && last.events[i] == f.event;
        assert InFrame(last)[i] == f;
      }
    }
  }

  lemma ParsedExactly<R>(frames: seq<Frame>, wanted: Framed -> bool, row: Framed -> R, r: R)
    ensures r in Map(Filter(AllEvents(frames), wanted), row) <==>
      exists frame, e :: Occurs(frames, frame, e) && wanted(Framed(frame, e)) && r == row(Framed(frame, e))
  {
    MapImages(Filter(AllEvents(frames), wanted), row, r);
    forall f: Framed ensures f in Filter(AllEvents(frames), wanted) <==> Occurs(frames, f.frame, f.event) && wanted(f) {
      FilterMembers(AllEvents(frames), wanted, f);
      AllEventsExactly(frames, f);
    }
    if f: Framed :| f in Filter(AllEvents(frames), wanted) && row(f) == r {
      assert f == Framed(f.frame, f.event);
    }
    if frame, e :| Occurs(frames, frame, e) && wanted(Framed(frame, e)) && r == row(Framed(frame, e)) {
      assert Framed(frame, e) in Filter(AllEvents(frames), wanted);
    }
  }

  /** The table holds exactly the events of this type, each with its frame and the match. */
  ghost predicate HoldsEvents(table: seq<EventRow>, frames: seq<Frame>, matchId: int, kind: EventType) {
    forall r :: r in table <==>
      r.matchId == matchId && r.event.kind == kind && Occurs(frames, r.frame, r.event)
  }

  lemma TypedExactly(frames: seq<Frame>, matchId: int, kind: EventType)
    ensures HoldsEvents(Typed(frames, matchId, kind), frames, matchId, kind)
  {
    forall r
      ensures r in Typed(frames, matchId, kind) <==>
        r.matchId == matchId && r.event.kind == kind && Occurs(frames, r.frame, r.event)
    {
      ParsedExactly(frames, OfType(kind), EventRowOf(matchId), r);
      assert OfType(kind)(Framed(r.frame, r.event)) <==> r.event.kind == kind;
      assert EventRowOf(matchId)(Framed(r.frame, r.event)) == EventRow(matchId, r.frame, r.event);
    }
  }

  /** Five tables hold the events of their own type. */
  lemma TypedTablesExactly(frames: seq<Frame>, matchId: int)
    ensures
      var t := TablesOf(frames, matchId);
      && HoldsEvents(t.buildingKill, frames, matchId, BuildingKill)
      && HoldsEvents(t.championSpecialKill, frames, matchId, ChampionSpecialKill)
      && HoldsEvents(t.dragonSoulGiven, frames, matchId, DragonSoulGiven)
      && HoldsEvents(t.eliteMonsterKill, frames, matchId, EliteMonsterKill)
      && HoldsEvents(t.turretPlateDestroyed, frames, matchId, TurretPlateDestroyed)
  {
    TypedExactly(frames, matchId, BuildingKill);
    TypedExactly(frames, matchId, ChampionSpecialKill);
    TypedExactly(frames, matchId, DragonSoulGiven);
    TypedExactly(frames, matchId, EliteMonsterKill);
    TypedExactly(frames, matchId, TurretPlateDestroyed);
  }

  /** The champion-kill table holds exactly the champion kills, each under the id of its match, time and players. */
  lemma KillTableExactly(frames: seq<Frame>, matchId: int, r: KillRow)
    ensures r in TablesOf(frames, matchId).championKill <==> exists frame, e ::
      && Occurs(frames, frame, e) && e.kind == ChampionKill
      && r == KillRow(matchId, frame, e.timestamp, e.killerId, e.victimId,
                      ChampionKillEventId(matchId, e.timestamp, e.killerId, e.victimId), e.rest)
  {
    ParsedExactly(frames, OfType(ChampionKill), KillRowOf(matchId), r);
  }

  predicate HasOwnTable(kind: EventType) {
    || kind == BuildingKill || kind == ChampionKill || kind == ChampionSpecialKill
    || kind == DragonSoulGiven || kind == EliteMonsterKill || kind == TurretPlateDestroyed
  }

  /** The payload table holds exactly the events that have no table of their own. */
  lemma PayloadTableExactly(frames: seq<Frame>, matchId: int, r: PayloadRow)
    ensures r in TablesOf(frames, matchId).payloadEvents <==> exists frame, e ::
      && Occurs(frames, frame, e)
      && !HasOwnTable(e.kind)
      && r == PayloadRow(matchId, frame, e.kind, e.timestamp, e.rest)
  {
    ParsedExactly(frames, OfTypes(RARE_TYPES), PayloadRowOf(matchId), r);
    forall frame, e
      ensures OfTypes(RARE_TYPES)(Framed(frame, e)) <==> !HasOwnTable(e.kind)
      ensures PayloadRowOf(matchId)(Framed(frame, e)) == PayloadRow(matchId, frame, e.kind, e.timestamp, e.rest)
    {
      RareExactly(e.kind);
    }
  }

  lemma RareExactly(kind: EventType)
    ensures kind in RARE_TYPES <==> !HasOwnTable(kind)
  {
  }

  // ----- Damage rows belong to kill rows -----

  /** A row that reports one damage instance of the kill `f`. */
  ghost predicate ReportsDamage(matchId: int, f: Framed, direction: Direction, row: DamageRow) {
    row.idx < |Instances(f.event, direction)| && row == DamageRowAt(matchId, f, direction, row.idx)
  }

  lemma KillDamageMembers(matchId: int, f: Framed, direction: Direction, row: DamageRow)
    ensures row in KillDamage(matchId, f, direction, |Instances(f.event, direction)|)
            <==> ReportsDamage(matchId, f, direction, row)
  {
    if ReportsDamage(matchId, f, direction, row) {
      assert KillDamage(matchId, f, direction, |Instances(f.event, direction)|)[row.idx] == row;
    }
  }

  lemma {:induction false} DamageRowsMembers(matchId: int, kills: seq<Framed>, direction: Direction, row: DamageRow)
    ensures row in DamageRows(matchId, kills, direction)
            <==> exists f :: f in kills && ReportsDamage(matchId, f, direction, row)
  {
    if kills != [] {
      var init, last := kills[..|kills| - 1], kills[|kills| - 1];
      assert kills == init + [last];
      DamageRowsMembers(matchId, init, direction, row);
      KillDamageMembers(matchId, last, direction, row);
    }
  }

  lemma MapMembers<A, B>(s: seq<A>, f: A -> B, x: A)
    requires x in s
    ensures f(x) in Map(s, f)
  {
    var i :| 0 <= i < |s| && s[i] == x;
    assert Map(s, f)[i] == f(x);
  }

  function DamageTable(t: Tables, direction: Direction): seq<DamageRow> {
    if direction.Dealt? then t.damageDealt else t.damageReceived
  }

  /** Every damage row names a champion-kill row with the same id, timestamp and frame. */
  lemma DamageHasKill(frames: seq<Frame>, matchId: int, direction: Direction, row: DamageRow)
    requires row in DamageTable(TablesOf(frames, matchId), direction)
    ensures exists k :: k in TablesOf(frames, matchId).championKill
                        && k.eventId == row.eventId && k.timestamp == row.timestamp && k.frame == row.frame
                        && k.matchId == row.matchId == matchId
  {
    var kills := Kills(frames);
    DamageRowsMembers(matchId, kills, direction, row);
    var f :| f in kills && ReportsDamage(matchId, f, direction, row);
    MapMembers(kills, KillRowOf(matchId), f);
  }

  /** Entry `idx` of the list, or of the alias if the list is absent. */
  predicate Lists(list: Option<seq<Damage>>, alias: Option<seq<Damage>>, idx: nat, damage: Damage) {
    if list.Some? then idx < |list.value| && list.value[idx] == damage
    else alias.Some? && idx < |alias.value| && alias.value[idx] == damage
  }

  lemma DamageExactly(frames: seq<Frame>, matchId: int, direction: Direction, row: DamageRow)
    ensures row in DamageRows(matchId, Kills(frames), direction) <==> exists frame, e ::
      Occurs(frames, frame, e) && e.kind == ChampionKill && ReportsDamage(matchId, Framed(frame, e), direction, row)
  {
    DamageRowsMembers(matchId, Kills(frames), direction, row);
    forall f: Framed ensures f in Kills(frames) <==> Occurs(frames, f.frame, f.event) && f.event.kind == ChampionKill {
      FilterMembers(AllEvents(frames), OfType(ChampionKill), f);
      AllEventsExactly(frames, f);
    }
    if f: Framed :| f in Kills(frames) && ReportsDamage(matchId, f, direction, row) {
      assert f == Framed(f.frame, f.event);
    }
    if frame, e :|
      Occurs(frames, frame, e) && e.kind == ChampionKill && ReportsDamage(matchId, Framed(frame, e), direction, row)
    {
      assert Framed(frame, e) in Kills(frames);
    }
  }

  /**
   * The table of damage dealt holds exactly the entries of `victimDamageDealt` of the champion kills, or of
   * `victimTeamfightDamageDealt` where it is absent, each with its index and under the id of its kill.
   */
  lemma DamageDealtExactly(frames: seq<Frame>, matchId: int, row: DamageRow)
    ensures row in TablesOf(frames, matchId).damageDealt <==> exists frame, e ::
      && Occurs(frames, frame, e) && e.kind == ChampionKill
      && Lists(e.damageDealt, e.teamfightDealt, row.idx, row.damage)
      && row == DamageRow(matchId, frame, e.timestamp,
                          ChampionKillEventId(matchId, e.timestamp, e.killerId, e.victimId), Dealt, row.idx, row.damage)
  {
    DamageExactly(frames, matchId, Dealt, row);
    forall frame, e
      ensures ReportsDamage(matchId, Framed(frame, e), Dealt, row) <==>
        && Lists(e.damageDealt, e.teamfightDealt, row.idx, row.damage)
        && row == DamageRow(matchId, frame, e.timestamp,
                            ChampionKillEventId(matchId, e.timestamp, e.killerId, e.victimId), Dealt, row.idx,
                            row.damage)
    {
    }
  }

  /** Likewise the table of damage received, for `victimDamageReceived` and `victimTeamfightDamageReceived`. */
  lemma DamageReceivedExactly(frames: seq<Frame>, matchId: int, row: DamageRow)
    ensures row in TablesOf(frames, matchId).damageReceived <==> exists frame, e ::
      && Occurs(frames, frame, e) && e.kind == ChampionKill
      && Lists(e.damageReceived, e.teamfightReceived, row.idx, row.damage)
      && row == DamageRow(matchId, frame, e.timestamp,
                          ChampionKillEventId(matchId, e.timestamp, e.killerId, e.victimId), Received, row.idx,
                          row.damage)
  {
    DamageExactly(frames, matchId, Received, row);
    forall frame, e
      ensures ReportsDamage(matchId, Framed(frame, e), Received, row) <==>
        && Lists(e.damageReceived, e.teamfightReceived, row.idx, row.damage)
        && row == DamageRow(matchId, frame, e.timestamp,
                            ChampionKillEventId(matchId, e.timestamp, e.killerId, e.victimId), Received, row.idx,
                            row.damage)
    {
    }
  }

  /** No two kills share timestamp, killer and victim. */
  ghost predicate KillsDiffer(kills: seq<Framed>) {
    forall i, j | 0 <= i < j < |kills| ::
      kills[i].event.timestamp != kills[j].event.timestamp
      || kills[i].event.killerId != kills[j].event.killerId || kills[i].event.victimId != kills[j].event.victimId
  }

  ghost predicate KeysDiffer(rows: seq<DamageRow>) {
    forall i, j | 0 <= i < j < |rows| :: rows[i].eventId != rows[j].eventId || rows[i].idx != rows[j].idx
  }

  /** Then the event id and index identify a damage row within its table. */
  lemma {:induction false} DamageKeysUnique(matchId: int, kills: seq<Framed>, direction: Direction)
    requires KillsDiffer(kills)
    ensures KeysDiffer(DamageRows(matchId, kills, direction))
  {
    if kills != [] {
      var init, last := kills[..|kills| - 1], kills[|kills| - 1];
      DamageKeysUnique(matchId, init, direction);
      var before := DamageRows(matchId, init, direction);
      var added := KillDamage(matchId, last, direction, |Instances(last.event, direction)|);
      forall row <- before ensures row.eventId != KillIdOf(matchId, last.event) {
        EarlierKillDiffers(matchId, kills, direction, row);
      }
    }
  }

  lemma EarlierKillDiffers(matchId: int, kills: seq<Framed>, direction: Direction, row: DamageRow)
    requires kills != [] && KillsDiffer(kills) && row in DamageRows(matchId, kills[..|kills| - 1], direction)
    ensures row.eventId != KillIdOf(matchId, kills[|kills| - 1].event)
  {
    var init := kills[..|kills| - 1];
    DamageRowsMembers(matchId, init, direction, row);
    var f :| f in init && ReportsDamage(matchId, f, direction, row);
    var k :| 0 <= k < |kills| - 1 && kills[k] == f;
    KillIdsDiffer(matchId, f.event, kills[|kills| - 1].event);
  }

  lemma KillIdsDiffer(matchId: int, a: Event, b: Event)
    ensures KillIdOf(matchId, a) == KillIdOf(matchId, b) ==>
              a.timestamp == b.timestamp && a.killerId == b.killerId && a.victimId == b.victimId
  {
    if KillIdOf(matchId, a) == KillIdOf(matchId, b) {
      KillIdInjective(matchId, a.timestamp, a.killerId, a.victimId, matchId, b.timestamp, b.killerId, b.victimId);
    }
  }
}
