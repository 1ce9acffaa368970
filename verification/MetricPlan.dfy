/**
 * The execution plan of a dynamic metric group: the members and metrics each branch inherits along its
 * path, and the plan as a whole (`build_execution_plan`, `_resolve_members`, `_resolve_metrics`).
 */
module MetricPlan {
  import opened GroupWalk
  import opened MetadataIndex
  import opened Ordering
  import opened Results
  import opened Sequences

  datatype MemberRule = MemberRule(memberId: string, teamPosition: Option<string>, championId: Option<int>,
                                   buildScope: Option<string>, isActive: bool)

  datatype MetricDefinition = MetricDefinition(metricId: string, metricName: string, metricKind: string,
                                               defaultAggregation: string, isActive: bool)

  datatype MetricDependency = MetricDependency(metricId: string, dependsOn: string, role: string)

  datatype MetadataSnapshot = MetadataSnapshot(groups: seq<Group>, members: seq<MemberRule>,
                                               groupMembers: seq<Assignment>, metrics: seq<MetricDefinition>,
                                               groupMetrics: seq<Assignment>, dependencies: seq<MetricDependency>)

  datatype ResolvedMember = ResolvedMember(selected: string, source: string, memberId: string,
                                           teamPosition: Option<string>, championId: Option<int>,
                                           buildScope: Option<string>, specificity: nat)

  datatype ResolvedMetric = ResolvedMetric(selected: string, source: string, metricId: string, metricName: string,
                                           metricKind: string, defaultAggregation: string, declaredBy: string)

  function MemberActive(m: MemberRule): bool { m.isActive }
  function MemberId(m: MemberRule): string { m.memberId }
  function MetricActive(m: MetricDefinition): bool { m.isActive }
  function MetricId(m: MetricDefinition): string { m.metricId }

  // ----- What a path declares -----

  /** Declare, for the group `group`, the items of its list that are known. */
  function DeclareAll<T>(d: Dict<string>, known: Dict<T>, items: seq<string>, group: string): Dict<string> {
    if items == [] then d
    else
      var rest, last := DeclareAll(d, known, items[..|items| - 1], group), items[|items| - 1];
      if last in known.values then Put(rest, last, group) else rest
  }

  /** The known items assigned along a path, each with the group that assigned it last. */
  function Declared<T>(known: Dict<T>, assignments: seq<Assignment>, path: Path): Dict<string> {
    if path == [] then Dict([], map[])
    else
      var rest, last := Declared(known, assignments, path[..|path| - 1]), path[|path| - 1];
      DeclareAll(rest, known, Assigned(assignments, last), last)
  }

  lemma {:induction false} DeclareAllMeaning<T>(d: Dict<string>, known: Dict<T>, items: seq<string>, group: string)
    requires ValidDict(d)
    ensures ValidDict(DeclareAll(d, known, items, group))
    ensures forall k :: k in DeclareAll(d, known, items, group).values <==>
                        k in d.values || (k in items && k in known.values)
    ensures forall k <- DeclareAll(d, known, items, group).values ::
              DeclareAll(d, known, items, group).values[k] ==
              if k in items && k in known.values then group else d.values[k]
  {
    if items != [] {
      var init, last := items[..|items| - 1], items[|items| - 1];
      assert items == init + [last];
      DeclareAllMeaning(d, known, init, group);
    }
  }

  ghost predicate Assigns(assignments: seq<Assignment>, group: string, item: string) {
    Assignment(group, item, true) in assignments
  }

  ghost predicate AssignedAlong(assignments: seq<Assignment>, path: Path, item: string) {
    exists i | 0 <= i < |path| :: Assigns(assignments, path[i], item)
  }

  /** `group` is the group of the path closest to its leaf that assigns the item. */
  ghost predicate ClosestAssigner(assignments: seq<Assignment>, path: Path, item: string, group: string) {
    exists i | 0 <= i < |path| ::
      && path[i] == group && Assigns(assignments, path[i], item)
      && forall j | i < j < |path| :: !Assigns(assignments, path[j], item)
  }

  lemma AssignedAlongAppend(assignments: seq<Assignment>, path: Path, group: string, item: string)
    ensures AssignedAlong(assignments, path + [group], item)
            <==> AssignedAlong(assignments, path, item) || Assigns(assignments, group, item)
  {
    var all := path + [group];
    assert all[|path|] == group;
    if AssignedAlong(assignments, path, item) {
      var i :| 0 <= i < |path| && Assigns(assignments, path[i], item);
      assert all[i] == path[i];
    }
  }

  lemma ClosestAppend(assignments: seq<Assignment>, path: Path, group: string, item: string)
    ensures Assigns(assignments, group, item) ==> ClosestAssigner(assignments, path + [group], item, group)
    ensures forall g :: !Assigns(assignments, group, item) && ClosestAssigner(assignments, path, item, g)
              ==> ClosestAssigner(assignments, path + [group], item, g)
  {
    var all := path + [group];
    assert all[|path|] == group;
    forall g | !Assigns(assignments, group, item) && ClosestAssigner(assignments, path, item, g)
      ensures ClosestAssigner(assignments, all, item, g)
    {
      var i :| 0 <= i < |path| && path[i] == g && Assigns(assignments, path[i], item)
        && forall j | i < j < |path| :: !Assigns(assignments, path[j], item);
      assert all[i] == g;
    }
  }

  /** A path declares exactly the known items assigned along it, each by its assigner closest to the leaf. */
  lemma {:induction false} DeclaredMeaning<T>(known: Dict<T>, assignments: seq<Assignment>, path: Path)
    ensures ValidDict(Declared(known, assignments, path))
    ensures forall k :: k in Declared(known, assignments, path).values <==>
                        k in known.values && AssignedAlong(assignments, path, k)
    ensures forall k <- Declared(known, assignments, path).values ::
              ClosestAssigner(assignments, path, k, Declared(known, assignments, path).values[k])
  {
    if path != [] {
      var init, last := path[..|path| - 1], path[|path| - 1];
      assert path == init + [last];
      DeclaredMeaning(known, assignments, init);
      var d := Declared(known, assignments, init);
      DeclareAllMeaning(d, known, Assigned(assignments, last), last);
      forall k
        ensures k in Declared(known, assignments, path).values <==>
                k in known.values && AssignedAlong(assignments, path, k)
      {
        AssignedMembers(assignments, last, k);
        AssignedAlongAppend(assignments, init, last, k);
      }
      forall k <- Declared(known, assignments, path).values
        ensures ClosestAssigner(assignments, path, k, Declared(known, assignments, path).values[k])
      {
        AssignedMembers(assignments, last, k);
        ClosestAppend(assignments, init, last, k);
      }
    }
  }

  /** A longer path declares whatever its prefix declares. */
  lemma Inheritance<T>(known: Dict<T>, assignments: seq<Assignment>, path: Path, longer: Path, item: string)
    requires path <= longer && item in Declared(known, assignments, path).values
    ensures item in Declared(known, assignments, longer).values
  {
    DeclaredMeaning(known, assignments, path);
    DeclaredMeaning(known, assignments, longer);
    var i :| 0 <= i < |path| && Assigns(assignments, path[i], item);
    assert longer[i] == path[i];
  }

  // ----- Sorting ids -----

  lemma SortMembers<T(!new)>(s: seq<T>, le: (T, T) -> bool, x: T)
    requires TotalOrder(le)
    ensures x in Sort(s, le) <==> x in s
  {
    SortCorrect(s, le);
    assert x in multiset(Sort(s, le)) <==> x in multiset(s);
  }

  ghost predicate StrictlySorted<T>(s: seq<T>, le: (T, T) -> bool) {
    forall i, j | 0 <= i < j < |s| :: le(s[i], s[j]) && s[i] != s[j]
  }

  lemma SortStrict<T(!new)>(s: seq<T>, le: (T, T) -> bool)
    requires TotalOrder(le) && Distinct(s)
    ensures StrictlySorted(Sort(s, le), le)
  {
    SortCorrect(s, le);
    SelectionDistinct(s, Sort(s, le));
  }

  // ----- Metrics -----

  function MetricRow(b: ResolvedBranch, m: MetricDefinition, declaredBy: string): ResolvedMetric {
    ResolvedMetric(b.selected, b.source, m.metricId, m.metricName, m.metricKind, m.defaultAggregation, declaredBy)
  }

  ghost predicate AllKnown<T>(known: Dict<T>, ids: seq<string>) {
    forall id <- ids :: id in known.values
  }

  function MetricRows(metrics: Dict<MetricDefinition>, d: Dict<string>, ids: seq<string>,
                      b: ResolvedBranch): seq<ResolvedMetric>
    requires AllKnown(metrics, ids) && AllKnown(d, ids)
  {
    seq(|ids|, i requires 0 <= i < |ids| => MetricRow(b, metrics.values[ids[i]], d.values[ids[i]]))
  }

  lemma SortedKeysKnown<T>(known: Dict<T>, assignments: seq<Assignment>, path: Path)
    ensures AllKnown(known, Sort(Declared(known, assignments, path).keys, StrLe))
    ensures AllKnown(Declared(known, assignments, path), Sort(Declared(known, assignments, path).keys, StrLe))
    ensures AllKnown(known, Declared(known, assignments, path).keys)
    ensures AllKnown(Declared(known, assignments, path), Declared(known, assignments, path).keys)
  {
    var d := Declared(known, assignments, path);
    DeclaredMeaning(known, assignments, path);
    StrLeOrder();
    forall id <- Sort(d.keys, StrLe) ensures id in d.keys {
      SortMembers(d.keys, StrLe, id);
    }
  }

  /** The effective metrics of one branch, sorted by metric id. */
  function MetricBlock(metrics: Dict<MetricDefinition>, groupMetrics: seq<Assignment>,
                       b: ResolvedBranch): seq<ResolvedMetric>
  {
    var d := Declared(metrics, groupMetrics, b.path);
    SortedKeysKnown(metrics, groupMetrics, b.path);
    MetricRows(metrics, d, Sort(d.keys, StrLe), b)
  }

  function MetricBlocks(metrics: Dict<MetricDefinition>, groupMetrics: seq<Assignment>,
                        branches: seq<ResolvedBranch>): seq<ResolvedMetric>
  {
    if branches == [] then []
    else
      MetricBlocks(metrics, groupMetrics, branches[..|branches| - 1])
      + MetricBlock(metrics, groupMetrics, branches[|branches| - 1])
  }

  /** The dictionary of one branch while its path is read. */
  ghost predicate Effective(effective: Dict<ResolvedMetric>, d: Dict<string>, metrics: Dict<MetricDefinition>,
                            b: ResolvedBranch)
  {
    && effective.keys == d.keys && effective.values.Keys == d.values.Keys
    && forall k <- d.values ::
      k in metrics.values && effective.values[k] == MetricRow(b, metrics.values[k], d.values[k])
  }

  ghost predicate MetricsKeyed(metrics: Dict<MetricDefinition>) {
    forall k <- metrics.values :: metrics.values[k].metricId == k
  }

  lemma DeclareNext<T>(d: Dict<string>, known: Dict<T>, items: seq<string>, i: nat, group: string)
    requires i < |items|
    ensures DeclareAll(d, known, items[..i + 1], group) ==
            if items[i] in known.values then Put(DeclareAll(d, known, items[..i], group), items[i], group)
            else DeclareAll(d, known, items[..i], group)
  {
    assert items[..i + 1][..i] == items[..i];
  }

  lemma DeclaredNext<T>(known: Dict<T>, assignments: seq<Assignment>, path: Path, i: nat)
    requires i < |path|
    ensures Declared(known, assignments, path[..i + 1]) ==
            DeclareAll(Declared(known, assignments, path[..i]), known, Assigned(assignments, path[i]), path[i])
  {
    assert path[..i + 1][..i] == path[..i];
  }

  /** The metrics one group of the path assigns. */
  method AssignMetrics(effective: Dict<ResolvedMetric>, items: seq<string>, group: string,
                       metrics: Dict<MetricDefinition>,
                       b: ResolvedBranch, ghost d: Dict<string>)
    returns (effective': Dict<ResolvedMetric>)
    requires MetricsKeyed(metrics) && Effective(effective, d, metrics, b)
    ensures Effective(effective', DeclareAll(d, metrics, items, group), metrics, b)
  {
    effective' := effective;
    for i := 0 to |items|
      invariant Effective(effective', DeclareAll(d, metrics, items[..i], group), metrics, b)
    {
      DeclareNext(d, metrics, items, i, group);
      if items[i] !in metrics.values {
        continue;
      }
      var metric := metrics.values[items[i]];
      effective' := Put(effective', metric.metricId, MetricRow(b, metric, group));
    }
    assert items[..|items|] == items;
  }

  /** `_resolve_metrics` for one branch. */
  method BranchMetrics(b: ResolvedBranch, lists: map<string, seq<string>>, metrics: Dict<MetricDefinition>,
                       ghost groupMetrics: seq<Assignment>)
    returns (rows: seq<ResolvedMetric>)
    requires MetricsKeyed(metrics) && forall g :: Listed(lists, g) == Assigned(groupMetrics, g)
    ensures rows == MetricBlock(metrics, groupMetrics, b)
  {
    var effective: Dict<ResolvedMetric> := Dict([], map[]);
    for i := 0 to |b.path|
      invariant Effective(effective, Declared(metrics, groupMetrics, b.path[..i]), metrics, b)
    {
      DeclaredNext(metrics, groupMetrics, b.path, i);
      effective := AssignMetrics(effective, Listed(lists, b.path[i]), b.path[i], metrics, b,
                                 Declared(metrics, groupMetrics, b.path[..i]));
    }
    assert b.path[..|b.path|] == b.path;
    SortedKeysKnown(metrics, groupMetrics, b.path);
    var ids := Sort(effective.keys, StrLe);
    assert AllKnown(effective, ids);
    rows := seq(|ids|, i requires 0 <= i < |ids| => effective.values[ids[i]]);
  }

  /** `_resolve_metrics`. */
  method ResolveMetrics(branches: seq<ResolvedBranch>, lists: map<string, seq<string>>, metrics: Dict<MetricDefinition>,
                        ghost groupMetrics: seq<Assignment>)
    returns (resolved: seq<ResolvedMetric>)
    requires MetricsKeyed(metrics) && forall g :: Listed(lists, g) == Assigned(groupMetrics, g)
    ensures resolved == MetricBlocks(metrics, groupMetrics, branches)
  {
    resolved := [];
    for i := 0 to |branches|
      invariant resolved == MetricBlocks(metrics, groupMetrics, branches[..i])
    {
      assert branches[..i + 1][..i] == branches[..i];
      var rows := BranchMetrics(branches[i], lists, metrics, groupMetrics);
      resolved := resolved + rows;
    }
    assert branches[..|branches|] == branches;
  }

  // ----- Members -----

  /** What a member rule may fix. */
  datatype Attribute = TeamPosition | ChampionId | BuildScope

  function Fixes(teamPosition: Option<string>, championId: Option<int>, buildScope: Option<string>): set<Attribute> {
    (if teamPosition.Some? then {TeamPosition} else {}) + (if championId.Some? then {ChampionId} else {})
      + (if buildScope.Some? then {BuildScope} else {})
  }

  /** How many attributes a rule fixes. */
  function Specificity(m: MemberRule): nat {
    |Fixes(m.teamPosition, m.championId, m.buildScope)|
  }

  lemma DisjointAdd(a: set<Attribute>, b: set<Attribute>)
    requires a !! b
    ensures |a + b| == |a| + |b|
  {
  }

  /** `_member_specificity` counts the attributes that are fixed. */
  method MemberSpecificity(m: MemberRule) returns (score: nat)
    ensures score == Specificity(m)
  {
    score := 0;
    if m.teamPosition.Some? {
      score := score + 1;
    }
    ghost var positions: set<Attribute> := if m.teamPosition.Some? then {TeamPosition} else {};
    assert score == |positions|;
    if m.championId.Some? {
      score := score + 1;
    }
    ghost var champions: set<Attribute> := if m.championId.Some? then {ChampionId} else {};
    assert score == |positions| + |champions|;
    if m.buildScope.Some? {
      score := score + 1;
    }
    ghost var builds: set<Attribute> := if m.buildScope.Some? then {BuildScope} else {};
    DisjointAdd(positions, champions);
    DisjointAdd(positions + champions, builds);
  }

  /** A rule that fixes all that another one fixes, and more, is the more specific one. */
  lemma NarrowerIsMoreSpecific(some: set<Attribute>, more: set<Attribute>)
    requires some < more
    ensures |some| < |more|
  {
    assert more == some + (more - some);
    assert |more| == |some| + |more - some|;
    assert more - some != {};
  }

  function MemberRow(b: ResolvedBranch, m: MemberRule): ResolvedMember {
    ResolvedMember(b.selected, b.source, m.memberId, m.teamPosition, m.championId, m.buildScope, Specificity(m))
  }

  /** The sort key of a member: more specific first, then by id. */
  datatype MemberKey = MemberKey(specificity: nat, id: string)

  predicate MemberLe(a: MemberKey, b: MemberKey) {
    a.specificity > b.specificity || (a.specificity == b.specificity && StrLe(a.id, b.id))
  }

  lemma MemberLeOrder()
    ensures TotalOrder(MemberLe)
  {
    StrLeOrder();
  }

  function MemberKeys(members: Dict<MemberRule>, ids: seq<string>): seq<MemberKey>
    requires AllKnown(members, ids)
  {
    seq(|ids|, i requires 0 <= i < |ids| => MemberKey(Specificity(members.values[ids[i]]), ids[i]))
  }

  ghost predicate KeysKnown(members: Dict<MemberRule>, keys: seq<MemberKey>) {
    forall k <- keys :: k.id in members.values
  }

  function MemberRows(members: Dict<MemberRule>, keys: seq<MemberKey>, b: ResolvedBranch): seq<ResolvedMember>
    requires KeysKnown(members, keys)
  {
    seq(|keys|, i requires 0 <= i < |keys| => MemberRow(b, members.values[keys[i].id]))
  }

  lemma SortedMembersKnown(members: Dict<MemberRule>, ids: seq<string>)
    requires AllKnown(members, ids)
    ensures KeysKnown(members, Sort(MemberKeys(members, ids), MemberLe))
    ensures forall k :: k in Sort(MemberKeys(members, ids), MemberLe) <==> k in MemberKeys(members, ids)
  {
    MemberLeOrder();
    forall k ensures k in Sort(MemberKeys(members, ids), MemberLe) <==> k in MemberKeys(members, ids) {
      SortMembers(MemberKeys(members, ids), MemberLe, k);
    }
  }

  /** The members of one branch, the most specific first. */
  function MemberBlock(members: Dict<MemberRule>, groupMembers: seq<Assignment>,
                       b: ResolvedBranch): seq<ResolvedMember>
  {
    var ids := Declared(members, groupMembers, b.path).keys;
    SortedKeysKnown(members, groupMembers, b.path);
    SortedMembersKnown(members, ids);
    MemberRows(members, Sort(MemberKeys(members, ids), MemberLe), b)
  }

  function MemberBlocks(members: Dict<MemberRule>, groupMembers: seq<Assignment>,
                        branches: seq<ResolvedBranch>): seq<ResolvedMember>
  {
    if branches == [] then []
    else
      MemberBlocks(members, groupMembers, branches[..|branches| - 1])
      + MemberBlock(members, groupMembers, branches[|branches| - 1])
  }

  ghost predicate Deduped(deduped: Dict<ResolvedMember>, d: Dict<string>, members: Dict<MemberRule>,
                          b: ResolvedBranch)
  {
    && deduped.keys == d.keys && deduped.values.Keys == d.values.Keys
    && forall k <- d.values :: k in members.values && deduped.values[k] == MemberRow(b, members.values[k])
  }

  ghost predicate MembersKeyed(members: Dict<MemberRule>) {
    forall k <- members.values :: members.values[k].memberId == k
  }

  /** The members one group of the path assigns; a member already seen stays unless a more specific row replaces it. */
  method AssignMembers(deduped: Dict<ResolvedMember>, items: seq<string>, group: string, members: Dict<MemberRule>,
                       b: ResolvedBranch, ghost d: Dict<string>)
    returns (deduped': Dict<ResolvedMember>)
    requires MembersKeyed(members) && Deduped(deduped, d, members, b)
    ensures Deduped(deduped', DeclareAll(d, members, items, group), members, b)
  {
    deduped' := deduped;
    for i := 0 to |items|
      invariant Deduped(deduped', DeclareAll(d, members, items[..i], group), members, b)
    {
      DeclareNext(d, members, items, i, group);
      if items[i] !in members.values {
        continue;
      }
      var member := members.values[items[i]];
      var specificity := MemberSpecificity(member);
      var row := ResolvedMember(b.selected, b.source, member.memberId, member.teamPosition, member.championId,
                                member.buildScope, specificity);
      if member.memberId !in deduped'.values || row.specificity > deduped'.values[member.memberId].specificity {
        deduped' := Put(deduped', member.memberId, row);
      }
    }
    assert items[..|items|] == items;
  }

  /** `_resolve_members` for one branch. */
  method BranchMembers(b: ResolvedBranch, lists: map<string, seq<string>>, members: Dict<MemberRule>,
                       ghost groupMembers: seq<Assignment>)
    returns (rows: seq<ResolvedMember>)
    requires MembersKeyed(members) && forall g :: Listed(lists, g) == Assigned(groupMembers, g)
    ensures rows == MemberBlock(members, groupMembers, b)
  {
    var deduped: Dict<ResolvedMember> := Dict([], map[]);
    for i := 0 to |b.path|
      invariant Deduped(deduped, Declared(members, groupMembers, b.path[..i]), members, b)
    {
      DeclaredNext(members, groupMembers, b.path, i);
      deduped := AssignMembers(deduped, Listed(lists, b.path[i]), b.path[i], members, b,
                               Declared(members, groupMembers, b.path[..i]));
    }
    assert b.path[..|b.path|] == b.path;
    rows := SortMembersOf(deduped, members, b, groupMembers);
  }

  /** The rows that remain, the most specific first. */
  method SortMembersOf(deduped: Dict<ResolvedMember>, members: Dict<MemberRule>, b: ResolvedBranch,
                       ghost groupMembers: seq<Assignment>)
    returns (rows: seq<ResolvedMember>)
    requires Deduped(deduped, Declared(members, groupMembers, b.path), members, b)
    ensures rows == MemberBlock(members, groupMembers, b)
  {
    SortedKeysKnown(members, groupMembers, b.path);
    var ids := deduped.keys;
    assert AllKnown(deduped, ids);
    var keys := seq(|ids|, i requires 0 <= i < |ids| => MemberKey(deduped.values[ids[i]].specificity, ids[i]));
    assert keys == MemberKeys(members, ids);
    SortedMembersKnown(members, ids);
    var sorted := Sort(keys, MemberLe);
    assert forall k <- sorted :: k.id in deduped.values by {
      forall k <- sorted ensures k.id in deduped.values {
        var i :| 0 <= i < |keys| && keys[i] == k;
        assert ids[i] in ids;
      }
    }
    rows := seq(|sorted|, i requires 0 <= i < |sorted| => deduped.values[sorted[i].id]);
  }

  /** `_resolve_members`. */
  method ResolveMembers(branches: seq<ResolvedBranch>, lists: map<string, seq<string>>, members: Dict<MemberRule>,
                        ghost groupMembers: seq<Assignment>)
    returns (resolved: seq<ResolvedMember>)
    requires MembersKeyed(members) && forall g :: Listed(lists, g) == Assigned(groupMembers, g)
    ensures resolved == MemberBlocks(members, groupMembers, branches)
  {
    resolved := [];
    for i := 0 to |branches|
      invariant resolved == MemberBlocks(members, groupMembers, branches[..i])
    {
      assert branches[..i + 1][..i] == branches[..i];
      var rows := BranchMembers(branches[i], lists, members, groupMembers);
      resolved := resolved + rows;
    }
    assert branches[..|branches|] == branches;
  }
}
