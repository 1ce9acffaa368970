/** The execution plan as a whole (`build_execution_plan`) and what it promises about a snapshot. */
module ExecutionPlan {
  import opened GroupSnapshot
  import opened GroupWalk
  import opened MetadataIndex
  import opened MetricPlan
  import opened Ordering
  import opened Results
  import opened Sequences

  datatype Plan = Plan(selected: string, branches: seq<ResolvedBranch>, members: seq<ResolvedMember>,
                       metrics: seq<ResolvedMetric>, dependencies: seq<MetricDependency>)

  datatype PlanError = UnknownGroup(id: string) | GroupCycle(path: Path)

  function MembersById(s: MetadataSnapshot): Dict<MemberRule> { Indexed(s.members, MemberActive, MemberId) }

  function MetricsById(s: MetadataSnapshot): Dict<MetricDefinition> { Indexed(s.metrics, MetricActive, MetricId) }

  function Effectiveness(rows: seq<ResolvedMetric>): MetricDependency -> bool {
    (d: MetricDependency) => exists i | 0 <= i < |rows| :: rows[i].metricId == d.metricId
  }

  /** The plan, or the first thing that is wrong. */
  function PlanOf(s: MetadataSnapshot, selected: string): Result<Plan, PlanError> {
    var index := GroupsById(s.groups);
    if selected !in index.values then Err(UnknownGroup(selected))
    else
      match Walk(index, selected, [])
      case Err(path) => Err(GroupCycle(path))
      case Ok(paths) =>
        var branches := Branches(selected, paths);
        var metrics := MetricBlocks(MetricsById(s), s.groupMetrics, branches);
        Ok(Plan(selected, branches, MemberBlocks(MembersById(s), s.groupMembers, branches), metrics,
                Filter(s.dependencies, Effectiveness(metrics))))
  }

  lemma Keyed(s: MetadataSnapshot)
    ensures MetricsKeyed(MetricsById(s)) && MembersKeyed(MembersById(s))
    ensures ValidDict(GroupsById(s.groups))
  {
    IndexMeaning(s.metrics, MetricActive, MetricId);
    IndexMeaning(s.members, MemberActive, MemberId);
    IndexMeaning(s.groups, GroupActive, GroupId);
  }

  /** `build_execution_plan`. */
  method BuildExecutionPlan(s: MetadataSnapshot, selected: string) returns (r: Result<Plan, PlanError>)
    ensures r == PlanOf(s, selected)
  {
    Keyed(s);
    var index := IndexActive(s.groups, GroupActive, GroupId);
    if selected !in index.values {
      return Err(UnknownGroup(selected));
    }
    var children := GroupChildren(index);
    var membersById := IndexActive(s.members, MemberActive, MemberId);
    var memberLists := GroupAssignments(s.groupMembers);
    var metricsById := IndexActive(s.metrics, MetricActive, MetricId);
    var metricLists := GroupAssignments(s.groupMetrics);

    var walk := new BranchList();
    var cycle := walk.Collect(selected, selected, [], children, index);
    if cycle.Some? {
      return Err(GroupCycle(cycle.value));
    }
    assert [] + Branches(selected, Walk(index, selected, []).value) ==
      Branches(selected, Walk(index, selected, []).value);
    var members := ResolveMembers(walk.branches, memberLists, membersById, s.groupMembers);
    var metrics := ResolveMetrics(walk.branches, metricLists, metricsById, s.groupMetrics);
    r := Ok(Plan(selected, walk.branches, members, metrics, Filter(s.dependencies, Effectiveness(metrics))));
  }

  // ----- When there is a plan -----

  /** Exactly two things can go wrong: the selected group is not active, or it lies on a parent cycle. */
  lemma PlanErrors(s: MetadataSnapshot, selected: string)
    ensures PlanOf(s, selected).Err? && PlanOf(s, selected).error.UnknownGroup? <==> !IsActiveGroup(s.groups, selected)
    ensures PlanOf(s, selected).Err? && PlanOf(s, selected).error.GroupCycle? <==>
            IsActiveGroup(s.groups, selected) && OnParentCycle(s.groups, selected)
  {
    Keyed(s);
    ActiveExactly(s.groups, selected);
    if IsActiveGroup(s.groups, selected) {
      CycleExactly(GroupsById(s.groups), selected);
      CycleMeaning(s.groups, selected);
    }
  }

  lemma BranchesMembers(selected: string, paths: seq<Path>, b: ResolvedBranch)
    ensures b in Branches(selected, paths) <==> b.path in paths && b == ResolvedBranch(selected, Last(b.path), b.path)
  {
    if b.path in paths && b == ResolvedBranch(selected, Last(b.path), b.path) {
      var i :| 0 <= i < |paths| && paths[i] == b.path;
      assert Branches(selected, paths)[i] == b;
    }
  }

  /** A branch of the plan: a parent chain from the selected group down to its source. */
  ghost predicate IsBranchOf(groups: seq<Group>, selected: string, b: ResolvedBranch) {
    && b.selected == selected && IsLineage(groups, b.path)
    && b.path[0] == selected && b.path[|b.path| - 1] == b.source
  }

  /**
   * The branches of a plan are exactly the parent chains that start at the selected group, so one for each of its
   * active descendants; they stand in preorder, siblings in the order of the snapshot.
   */
  lemma PlanBranches(s: MetadataSnapshot, selected: string)
    requires PlanOf(s, selected).Ok?
    ensures var branches := PlanOf(s, selected).value.branches;
      && (forall b :: b in branches <==> IsBranchOf(s.groups, selected, b))
      && (forall i, j | 0 <= i < j < |branches| ::
            branches[i].source != branches[j].source && InTreeOrder(s.groups, branches[i].path, branches[j].path))
  {
    PlanErrors(s, selected);
    WalkExactly(s.groups, selected);
    var branches, paths := PlanOf(s, selected).value.branches, Walk(GroupsById(s.groups), selected, []).value;
    forall b ensures b in branches <==> IsBranchOf(s.groups, selected, b) {
      BranchesMembers(selected, paths, b);
    }
  }

  // ----- Metrics of a plan -----

  /** `m` is the last active definition of the metric with this id. */
  ghost predicate Defines(definitions: seq<MetricDefinition>, id: string, m: MetricDefinition) {
    exists k | 0 <= k < |definitions| ::
      && definitions[k] == m && m.isActive && m.metricId == id
      && forall j | k < j < |definitions| && definitions[j].isActive :: definitions[j].metricId != id
  }

  /**
   * A row about a path: an active metric, with the name, kind and aggregation of its last active definition, is
   * assigned along the path, and by `declaredBy` closest to the leaf.
   */
  ghost predicate MetricAlong(s: MetadataSnapshot, path: Path, row: ResolvedMetric) {
    && ClosestAssigner(s.groupMetrics, path, row.metricId, row.declaredBy)
    && exists m :: Defines(s.metrics, row.metricId, m) && row.metricName == m.metricName
        && row.metricKind == m.metricKind && row.defaultAggregation == m.defaultAggregation
  }

  lemma DefinesIsLast(s: MetadataSnapshot, id: string, m: MetricDefinition)
    ensures Defines(s.metrics, id, m) <==> IsLast(s.metrics, MetricActive, MetricId, id, m)
  {
    if Defines(s.metrics, id, m) {
      var k :| 0 <= k < |s.metrics| && s.metrics[k] == m && m.isActive && m.metricId == id
        && forall j | k < j < |s.metrics| && s.metrics[j].isActive :: s.metrics[j].metricId != id;
      assert MetricActive(s.metrics[k]) && MetricId(s.metrics[k]) == id;
    }
  }

  lemma MetricBlockSound(s: MetadataSnapshot, b: ResolvedBranch, row: ResolvedMetric)
    requires row in MetricBlock(MetricsById(s), s.groupMetrics, b)
    ensures row.selected == b.selected && row.source == b.source && MetricAlong(s, b.path, row)
  {
    var metrics := MetricsById(s);
    var d := Declared(metrics, s.groupMetrics, b.path);
    IndexMeaning(s.metrics, MetricActive, MetricId);
    DeclaredMeaning(metrics, s.groupMetrics, b.path);
    SortedKeysKnown(metrics, s.groupMetrics, b.path);
    var ids := Sort(d.keys, StrLe);
    var i :| 0 <= i < |ids| && MetricBlock(metrics, s.groupMetrics, b)[i] == row;
    assert ids[i] in ids;
    DefinesIsLast(s, ids[i], metrics.values[ids[i]]);
  }

  /** A declared metric has its row in the block. */
  lemma MetricRowIn(metrics: Dict<MetricDefinition>, groupMetrics: seq<Assignment>, b: ResolvedBranch, id: string)
    requires id in Declared(metrics, groupMetrics, b.path).keys && id in metrics.values
    requires id in Declared(metrics, groupMetrics, b.path).values
    ensures MetricRow(b, metrics.values[id], Declared(metrics, groupMetrics, b.path).values[id])
            in MetricBlock(metrics, groupMetrics, b)
  {
    var keys := Declared(metrics, groupMetrics, b.path).keys;
    SortedKeysKnown(metrics, groupMetrics, b.path);
    StrLeOrder();
    SortMembers(keys, StrLe, id);
    var i :| 0 <= i < |Sort(keys, StrLe)| && Sort(keys, StrLe)[i] == id;
    assert MetricBlock(metrics, groupMetrics, b)[i]
        == MetricRow(b, metrics.values[id], Declared(metrics, groupMetrics, b.path).values[id]);
  }

  lemma MetricDeclared(s: MetadataSnapshot, b: ResolvedBranch, id: string, group: string, m: MetricDefinition)
    requires IsLast(s.metrics, MetricActive, MetricId, id, m) && ClosestAssigner(s.groupMetrics, b.path, id, group)
    ensures
      var metrics, d := MetricsById(s), Declared(MetricsById(s), s.groupMetrics, b.path);
      id in metrics.values && metrics.values[id] == m && id in d.keys && id in d.values && d.values[id] == group
  {
    IndexMeaning(s.metrics, MetricActive, MetricId);
    DeclaredMeaning(MetricsById(s), s.groupMetrics, b.path);
  }

  lemma MetricBlockComplete(s: MetadataSnapshot, b: ResolvedBranch, row: ResolvedMetric)
    requires row.selected == b.selected && row.source == b.source && MetricAlong(s, b.path, row)
    ensures row in MetricBlock(MetricsById(s), s.groupMetrics, b)
  {
    var m :| Defines(s.metrics, row.metricId, m) && row.metricName == m.metricName
      && row.metricKind == m.metricKind && row.defaultAggregation == m.defaultAggregation;
    DefinesIsLast(s, row.metricId, m);
    MetricDeclared(s, b, row.metricId, row.declaredBy, m);
    MetricRowIn(MetricsById(s), s.groupMetrics, b, row.metricId);
  }

  /** The block of a branch holds exactly the metrics assigned along its path, under its two groups. */
  lemma MetricBlockRows(s: MetadataSnapshot, b: ResolvedBranch, row: ResolvedMetric)
    ensures row in MetricBlock(MetricsById(s), s.groupMetrics, b)
      <==> row.selected == b.selected && row.source == b.source && MetricAlong(s, b.path, row)
  {
    if row in MetricBlock(MetricsById(s), s.groupMetrics, b) {
      MetricBlockSound(s, b, row);
    } else if row.selected == b.selected && row.source == b.source && MetricAlong(s, b.path, row) {
      MetricBlockComplete(s, b, row);
    }
  }

  /** Within a block the metric ids rise strictly, so no metric appears twice. */
  lemma MetricBlockSorted(s: MetadataSnapshot, b: ResolvedBranch)
    ensures var block := MetricBlock(MetricsById(s), s.groupMetrics, b);
      forall i, j | 0 <= i < j < |block| :: StrictlyBelow(block[i].metricId, block[j].metricId)
  {
    var metrics := MetricsById(s);
    var d := Declared(metrics, s.groupMetrics, b.path);
    Keyed(s);
    DeclaredMeaning(metrics, s.groupMetrics, b.path);
    SortedKeysKnown(metrics, s.groupMetrics, b.path);
    StrLeOrder();
    SortStrict(d.keys, StrLe);
    forall id <- Sort(d.keys, StrLe) ensures metrics.values[id].metricId == id {
    }
    var block := MetricBlock(metrics, s.groupMetrics, b);
    forall i, j | 0 <= i < j < |block| ensures StrictlyBelow(block[i].metricId, block[j].metricId) {
      StrLeMeaning(block[i].metricId, block[j].metricId);
    }
  }

  lemma {:induction false} MetricBlocksRows(s: MetadataSnapshot, branches: seq<ResolvedBranch>, row: ResolvedMetric)
    ensures row in MetricBlocks(MetricsById(s), s.groupMetrics, branches)
            <==> exists b :: b in branches && row.selected == b.selected && row.source == b.source
                             && MetricAlong(s, b.path, row)
  {
    if branches != [] {
      var init, last := branches[..|branches| - 1], branches[|branches| - 1];
      assert branches == init + [last];
      MetricBlocksRows(s, init, row);
      MetricBlockRows(s, last, row);
    }
  }

  lemma PlanMetricRows(s: MetadataSnapshot, selected: string, row: ResolvedMetric)
    requires PlanOf(s, selected).Ok?
    ensures var plan := PlanOf(s, selected).value;
      row in plan.metrics <==>
        row.selected == selected
        && exists b :: b in plan.branches && row.source == b.source && MetricAlong(s, b.path, row)
  {
    PlanBranches(s, selected);
    MetricBlocksRows(s, PlanOf(s, selected).value.branches, row);
  }

  /** Of two rows of the plan the first belongs to an earlier branch, or to the same one and has the smaller id. */
  ghost predicate MetricsOrdered(branches: seq<ResolvedBranch>, first: ResolvedMetric, second: ResolvedMetric) {
    exists p, q | 0 <= p <= q < |branches| ::
      && branches[p].source == first.source && branches[q].source == second.source
      && (p == q ==> StrictlyBelow(first.metricId, second.metricId))
  }

  lemma {:induction false} MetricBlocksOrdered(s: MetadataSnapshot, branches: seq<ResolvedBranch>, i: nat, j: nat)
    requires i < j < |MetricBlocks(MetricsById(s), s.groupMetrics, branches)|
    ensures var rows := MetricBlocks(MetricsById(s), s.groupMetrics, branches);
      MetricsOrdered(branches, rows[i], rows[j])
  {
    var n := |branches| - 1;
    var init, block := branches[..n], MetricBlock(MetricsById(s), s.groupMetrics, branches[n]);
    var before, rows := MetricBlocks(MetricsById(s), s.groupMetrics, init),
                        MetricBlocks(MetricsById(s), s.groupMetrics, branches);
    assert rows == before + block;
    if j < |before| {
      MetricBlocksOrdered(s, init, i, j);
      var p, q :| 0 <= p <= q < |init| && init[p].source == before[i].source && init[q].source == before[j].source
        && (p == q ==> StrictlyBelow(before[i].metricId, before[j].metricId));
      assert branches[p] == init[p] && branches[q] == init[q];
    } else {
      assert rows[j] in block;
      MetricBlockRows(s, branches[n], rows[j]);
      if i < |before| {
        assert rows[i] in before;
        MetricBlocksRows(s, init, rows[i]);
        var b :| b in init && rows[i].source == b.source;
        var p :| 0 <= p < n && branches[p] == b;
        assert branches[n].source == rows[j].source;
      } else {
        assert rows[i] in block;
        MetricBlockRows(s, branches[n], rows[i]);
        MetricBlockSorted(s, branches[n]);
        assert rows[i] == block[i - |before|] && rows[j] == block[j - |before|];
      }
    }
  }

  /** The metrics of a plan stand branch by branch, and within a branch by rising id. */
  lemma PlanMetricsOrdered(s: MetadataSnapshot, selected: string, i: nat, j: nat)
    requires PlanOf(s, selected).Ok? && i < j < |PlanOf(s, selected).value.metrics|
    ensures var plan := PlanOf(s, selected).value;
      MetricsOrdered(plan.branches, plan.metrics[i], plan.metrics[j])
  {
    MetricBlocksOrdered(s, PlanOf(s, selected).value.branches, i, j);
  }

  lemma EffectiveMeaning(rows: seq<ResolvedMetric>, d: MetricDependency)
    ensures Effectiveness(rows)(d) <==> exists row :: row in rows && row.metricId == d.metricId
  {
    if row :| row in rows && row.metricId == d.metricId {
      var i :| 0 <= i < |rows| && rows[i] == row;
    }
  }

  /** The plan lists exactly the metrics of its branches, and exactly the dependencies of those metrics. */
  lemma PlanMetrics(s: MetadataSnapshot, selected: string)
    requires PlanOf(s, selected).Ok?
    ensures var plan := PlanOf(s, selected).value;
      && (forall row :: row in plan.metrics <==>
            row.selected == selected
            && exists b :: b in plan.branches && row.source == b.source && MetricAlong(s, b.path, row))
      && (forall d :: d in plan.dependencies <==>
            d in s.dependencies && exists row :: row in plan.metrics && row.metricId == d.metricId)
  {
    var plan := PlanOf(s, selected).value;
    forall row
      ensures row in plan.metrics <==>
        row.selected == selected
        && exists b :: b in plan.branches && row.source == b.source && MetricAlong(s, b.path, row)
    {
      PlanMetricRows(s, selected, row);
    }
    forall d ensures d in plan.dependencies <==>
                     d in s.dependencies && exists row :: row in plan.metrics && row.metricId == d.metricId
    {
      FilterMembers(s.dependencies, Effectiveness(plan.metrics), d);
      EffectiveMeaning(plan.metrics, d);
    }
  }

  // ----- Members of a plan -----

  /** `m` is the last active rule with this id. */
  ghost predicate Rules(members: seq<MemberRule>, id: string, m: MemberRule) {
    exists k | 0 <= k < |members| ::
      && members[k] == m && m.isActive && m.memberId == id
      && forall j | k < j < |members| && members[j].isActive :: members[j].memberId != id
  }

  /**
   * A row about a path: an active member, with the attributes of its last active rule and the number of those that
   * are fixed, is assigned along the path.
   */
  ghost predicate MemberAlong(s: MetadataSnapshot, path: Path, row: ResolvedMember) {
    && AssignedAlong(s.groupMembers, path, row.memberId)
    && row.specificity == (if row.teamPosition.Some? then 1 else 0) + (if row.championId.Some? then 1 else 0)
                          + (if row.buildScope.Some? then 1 else 0)
    && exists m :: Rules(s.members, row.memberId, m) && row.teamPosition == m.teamPosition
        && row.championId == m.championId && row.buildScope == m.buildScope
  }

  lemma RulesIsLast(s: MetadataSnapshot, id: string, m: MemberRule)
    ensures Rules(s.members, id, m) <==> IsLast(s.members, MemberActive, MemberId, id, m)
  {
    if Rules(s.members, id, m) {
      var k :| 0 <= k < |s.members| && s.members[k] == m && m.isActive && m.memberId == id
        && forall j | k < j < |s.members| && s.members[j].isActive :: s.members[j].memberId != id;
      assert MemberActive(s.members[k]) && MemberId(s.members[k]) == id;
    }
  }

  lemma SpecificityCounts(m: MemberRule)
    ensures Specificity(m) == (if m.teamPosition.Some? then 1 else 0) + (if m.championId.Some? then 1 else 0)
                              + (if m.buildScope.Some? then 1 else 0)
  {
    var positions: set<Attribute> := if m.teamPosition.Some? then {TeamPosition} else {};
    var champions: set<Attribute> := if m.championId.Some? then {ChampionId} else {};
    var builds: set<Attribute> := if m.buildScope.Some? then {BuildScope} else {};
    DisjointAdd(positions, champions);
    DisjointAdd(positions + champions, builds);
  }

  lemma MemberRowSound(s: MetadataSnapshot, b: ResolvedBranch, id: string, row: ResolvedMember)
    requires id in Declared(MembersById(s), s.groupMembers, b.path).keys && id in MembersById(s).values
    requires row == MemberRow(b, MembersById(s).values[id])
    ensures row.selected == b.selected && row.source == b.source && MemberAlong(s, b.path, row)
  {
    var m := MembersById(s).values[id];
    IndexMeaning(s.members, MemberActive, MemberId);
    DeclaredMeaning(MembersById(s), s.groupMembers, b.path);
    RulesIsLast(s, id, m);
    SpecificityCounts(m);
  }

  lemma MemberBlockSound(s: MetadataSnapshot, b: ResolvedBranch, row: ResolvedMember)
    requires row in MemberBlock(MembersById(s), s.groupMembers, b)
    ensures row.selected == b.selected && row.source == b.source && MemberAlong(s, b.path, row)
  {
    var members := MembersById(s);
    var ids := Declared(members, s.groupMembers, b.path).keys;
    SortedKeysKnown(members, s.groupMembers, b.path);
    SortedMembersKnown(members, ids);
    var keys := Sort(MemberKeys(members, ids), MemberLe);
    var i :| 0 <= i < |keys| && MemberBlock(members, s.groupMembers, b)[i] == row;
    assert keys[i] in keys;
    MemberRowSound(s, b, keys[i].id, row);
  }

  lemma MemberBlockComplete(s: MetadataSnapshot, b: ResolvedBranch, row: ResolvedMember)
    requires row.selected == b.selected && row.source == b.source && MemberAlong(s, b.path, row)
    ensures row in MemberBlock(MembersById(s), s.groupMembers, b)
  {
    var members := MembersById(s);
    var m :| Rules(s.members, row.memberId, m) && row.teamPosition == m.teamPosition
      && row.championId == m.championId && row.buildScope == m.buildScope;
    SpecificityCounts(m);
    assert row == MemberRow(b, m);
    MemberDeclared(s, b, row.memberId, m);
    var ids := Declared(members, s.groupMembers, b.path).keys;
    var i :| 0 <= i < |ids| && ids[i] == row.memberId;
    SortedKeysKnown(members, s.groupMembers, b.path);
    MemberRowAt(members, s.groupMembers, b, i);
  }

  lemma MemberDeclared(s: MetadataSnapshot, b: ResolvedBranch, id: string, m: MemberRule)
    requires Rules(s.members, id, m) && AssignedAlong(s.groupMembers, b.path, id)
    ensures id in MembersById(s).values && MembersById(s).values[id] == m
    ensures id in Declared(MembersById(s), s.groupMembers, b.path).keys
  {
    RulesIsLast(s, id, m);
    IndexMeaning(s.members, MemberActive, MemberId);
    DeclaredMeaning(MembersById(s), s.groupMembers, b.path);
  }

  lemma MemberRowAt(members: Dict<MemberRule>, groupMembers: seq<Assignment>, b: ResolvedBranch, i: nat)
    requires AllKnown(members, Declared(members, groupMembers, b.path).keys)
    requires i < |Declared(members, groupMembers, b.path).keys|
    ensures MemberRow(b, members.values[Declared(members, groupMembers, b.path).keys[i]])
            in MemberBlock(members, groupMembers, b)
  {
    var ids := Declared(members, groupMembers, b.path).keys;
    SortedMembersKnown(members, ids);
    var key := MemberKeys(members, ids)[i];
    assert key in MemberKeys(members, ids);
    var k :| 0 <= k < |Sort(MemberKeys(members, ids), MemberLe)| && Sort(MemberKeys(members, ids), MemberLe)[k] == key;
    assert MemberBlock(members, groupMembers, b)[k] == MemberRow(b, members.values[ids[i]]);
  }

  /** The block of a branch holds exactly the members assigned along its path, under its two groups. */
  lemma MemberBlockRows(s: MetadataSnapshot, b: ResolvedBranch, row: ResolvedMember)
    ensures row in MemberBlock(MembersById(s), s.groupMembers, b)
      <==> row.selected == b.selected && row.source == b.source && MemberAlong(s, b.path, row)
  {
    if row in MemberBlock(MembersById(s), s.groupMembers, b) {
      MemberBlockSound(s, b, row);
    } else if row.selected == b.selected && row.source == b.source && MemberAlong(s, b.path, row) {
      MemberBlockComplete(s, b, row);
    }
  }

  /** Within a block more specific members come first, equally specific ones by rising id, none twice. */
  lemma MemberBlockSorted(s: MetadataSnapshot, b: ResolvedBranch)
    ensures var block := MemberBlock(MembersById(s), s.groupMembers, b);
      forall i, j | 0 <= i < j < |block| ::
        && block[i].memberId != block[j].memberId
        && (block[i].specificity > block[j].specificity
            || (block[i].specificity == block[j].specificity && StrictlyBelow(block[i].memberId, block[j].memberId)))
  {
    var members := MembersById(s);
    var ids := Declared(members, s.groupMembers, b.path).keys;
    Keyed(s);
    DeclaredMeaning(members, s.groupMembers, b.path);
    SortedKeysKnown(members, s.groupMembers, b.path);
    SortedMembersKnown(members, ids);
    MemberLeOrder();
    SortStrict(MemberKeys(members, ids), MemberLe);
    var keys, block := Sort(MemberKeys(members, ids), MemberLe), MemberBlock(members, s.groupMembers, b);
    forall i | 0 <= i < |keys| ensures keys[i] == MemberKey(block[i].specificity, block[i].memberId) {
      assert keys[i] in keys;
    }
    forall i, j | 0 <= i < j < |keys|
      ensures keys[i].id != keys[j].id && MemberLe(keys[i], keys[j])
      ensures StrLe(keys[i].id, keys[j].id) <==> StrictlyBelow(keys[i].id, keys[j].id)
    {
      assert keys[i] in keys && keys[j] in keys;
      StrLeMeaning(keys[i].id, keys[j].id);
    }
  }

  function Fixed(row: ResolvedMember): set<Attribute> {
    Fixes(row.teamPosition, row.championId, row.buildScope)
  }

  /**
   * Within a block a rule that narrows another one down, fixing all it fixes and more, comes before it.
   */
  lemma NarrowerFirst(s: MetadataSnapshot, b: ResolvedBranch, i: nat, j: nat)
    requires var block := MemberBlock(MembersById(s), s.groupMembers, b);
      i < |block| && j < |block| && Fixed(block[j]) < Fixed(block[i])
    ensures i < j
  {
    var block := MemberBlock(MembersById(s), s.groupMembers, b);
    MemberBlockSorted(s, b);
    NarrowerIsMoreSpecific(Fixed(block[j]), Fixed(block[i]));
    assert block[i].specificity == |Fixed(block[i])| && block[j].specificity == |Fixed(block[j])|;
  }

  lemma {:induction false} MemberBlocksRows(s: MetadataSnapshot, branches: seq<ResolvedBranch>, row: ResolvedMember)
    ensures row in MemberBlocks(MembersById(s), s.groupMembers, branches)
            <==> exists b :: b in branches && row.selected == b.selected && row.source == b.source
                             && MemberAlong(s, b.path, row)
  {
    if branches != [] {
      var init, last := branches[..|branches| - 1], branches[|branches| - 1];
      assert branches == init + [last];
      MemberBlocksRows(s, init, row);
      MemberBlockRows(s, last, row);
    }
  }

  /** The plan lists exactly the members of its branches. */
  lemma PlanMembers(s: MetadataSnapshot, selected: string, row: ResolvedMember)
    requires PlanOf(s, selected).Ok?
    ensures var plan := PlanOf(s, selected).value;
      row in plan.members <==>
        row.selected == selected
        && exists b :: b in plan.branches && row.source == b.source && MemberAlong(s, b.path, row)
  {
    PlanBranches(s, selected);
    MemberBlocksRows(s, PlanOf(s, selected).value.branches, row);
  }

  /**
   * Of two rows of the plan the first belongs to an earlier branch, or to the same one and is more specific, or as
   * specific and has the smaller id.
   */
  ghost predicate MembersOrdered(branches: seq<ResolvedBranch>, first: ResolvedMember, second: ResolvedMember) {
    exists p, q | 0 <= p <= q < |branches| ::
      && branches[p].source == first.source && branches[q].source == second.source
      && (p == q ==>
            || first.specificity > second.specificity
            || (first.specificity == second.specificity && StrictlyBelow(first.memberId, second.memberId)))
  }

  /** Both rows in the block of branch `n`. */
  lemma MembersOrderedWithin(s: MetadataSnapshot, branches: seq<ResolvedBranch>, n: nat, i: nat, j: nat)
    requires n < |branches| && i < j < |MemberBlock(MembersById(s), s.groupMembers, branches[n])|
    ensures var block := MemberBlock(MembersById(s), s.groupMembers, branches[n]);
      MembersOrdered(branches, block[i], block[j])
  {
    var block := MemberBlock(MembersById(s), s.groupMembers, branches[n]);
    assert block[i] in block && block[j] in block;
    MemberBlockRows(s, branches[n], block[i]);
    MemberBlockRows(s, branches[n], block[j]);
    MemberBlockSorted(s, branches[n]);
  }

  /** The first row in the block of an earlier branch. */
  lemma MembersOrderedAcross(s: MetadataSnapshot, branches: seq<ResolvedBranch>, n: nat, first: ResolvedMember,
                             second: ResolvedMember)
    requires n < |branches| && first in MemberBlocks(MembersById(s), s.groupMembers, branches[..n])
    requires second in MemberBlock(MembersById(s), s.groupMembers, branches[n])
    ensures MembersOrdered(branches, first, second)
  {
    MemberBlockRows(s, branches[n], second);
    MemberBlocksRows(s, branches[..n], first);
    var b :| b in branches[..n] && first.source == b.source;
    var p :| 0 <= p < n && branches[p] == b;
    assert branches[n].source == second.source;
  }

  ghost predicate AllMembersOrdered(branches: seq<ResolvedBranch>, rows: seq<ResolvedMember>) {
    forall i, j | 0 <= i < j < |rows| :: MembersOrdered(branches, rows[i], rows[j])
  }

  lemma {:induction false} MemberBlocksOrdered(s: MetadataSnapshot, branches: seq<ResolvedBranch>, n: nat)
    requires n <= |branches|
    ensures AllMembersOrdered(branches, MemberBlocks(MembersById(s), s.groupMembers, branches[..n]))
  {
    if n > 0 {
      MemberBlocksOrdered(s, branches, n - 1);
      assert branches[..n][..n - 1] == branches[..n - 1];
      var before, block := MemberBlocks(MembersById(s), s.groupMembers, branches[..n - 1]),
                           MemberBlock(MembersById(s), s.groupMembers, branches[n - 1]);
      forall i, j | 0 <= i < j < |block| ensures MembersOrdered(branches, block[i], block[j]) {
        MembersOrderedWithin(s, branches, n - 1, i, j);
      }
      forall first, second | first in before && second in block ensures MembersOrdered(branches, first, second) {
        MembersOrderedAcross(s, branches, n - 1, first, second);
      }
      MembersOrderedConcat(branches, before, block);
    }
  }

  lemma MembersOrderedConcat(branches: seq<ResolvedBranch>, before: seq<ResolvedMember>, block: seq<ResolvedMember>)
    requires AllMembersOrdered(branches, before) && AllMembersOrdered(branches, block)
    requires forall first, second | first in before && second in block :: MembersOrdered(branches, first, second)
    ensures AllMembersOrdered(branches, before + block)
  {
    var rows := before + block;
    forall i, j | 0 <= i < j < |rows| ensures MembersOrdered(branches, rows[i], rows[j]) {
      if i < |before| <= j {
        assert before[i] in before && block[j - |before|] in block;
      }
    }
  }

  /** The members of a plan stand branch by branch, and within a branch the more specific ones first. */
  lemma PlanMembersOrdered(s: MetadataSnapshot, selected: string, i: nat, j: nat)
    requires PlanOf(s, selected).Ok? && i < j < |PlanOf(s, selected).value.members|
    ensures var plan := PlanOf(s, selected).value;
      MembersOrdered(plan.branches, plan.members[i], plan.members[j])
  {
    var branches := PlanOf(s, selected).value.branches;
    MemberBlocksOrdered(s, branches, |branches|);
    assert branches[..|branches|] == branches;
  }

  /** A branch inherits every metric and every member of the branch it extends. */
  lemma ChildInherits(s: MetadataSnapshot, parent: ResolvedBranch, child: ResolvedBranch)
    requires parent.path <= child.path
    ensures forall row :: row in MetricBlock(MetricsById(s), s.groupMetrics, parent) ==>
              exists below ::
                below in MetricBlock(MetricsById(s), s.groupMetrics, child) && below.metricId == row.metricId
    ensures forall row :: row in MemberBlock(MembersById(s), s.groupMembers, parent) ==>
              exists below ::
                below in MemberBlock(MembersById(s), s.groupMembers, child) && below.memberId == row.memberId
  {
    forall row | row in MetricBlock(MetricsById(s), s.groupMetrics, parent)
      ensures exists below ::
                below in MetricBlock(MetricsById(s), s.groupMetrics, child) && below.metricId == row.metricId
    {
      MetricInherited(s, parent, child, row);
    }
    forall row | row in MemberBlock(MembersById(s), s.groupMembers, parent)
      ensures exists below ::
                below in MemberBlock(MembersById(s), s.groupMembers, child) && below.memberId == row.memberId
    {
      MemberInherited(s, parent, child, row);
    }
  }

  lemma MetricInherited(s: MetadataSnapshot, parent: ResolvedBranch, child: ResolvedBranch, row: ResolvedMetric)
    requires parent.path <= child.path && row in MetricBlock(MetricsById(s), s.groupMetrics, parent)
    ensures exists below ::
              below in MetricBlock(MetricsById(s), s.groupMetrics, child) && below.metricId == row.metricId
  {
    var metrics := MetricsById(s);
    MetricBlockRows(s, parent, row);
    var m :| Defines(s.metrics, row.metricId, m) && row.metricName == m.metricName
      && row.metricKind == m.metricKind && row.defaultAggregation == m.defaultAggregation;
    DefinesIsLast(s, row.metricId, m);
    MetricDeclared(s, parent, row.metricId, row.declaredBy, m);
    Inheritance(metrics, s.groupMetrics, parent.path, child.path, row.metricId);
    DeclaredMeaning(metrics, s.groupMetrics, child.path);
    var below := row.(selected := child.selected, source := child.source,
                      declaredBy := Declared(metrics, s.groupMetrics, child.path).values[row.metricId]);
    assert MetricAlong(s, child.path, below);
    MetricBlockRows(s, child, below);
  }

  lemma MemberInherited(s: MetadataSnapshot, parent: ResolvedBranch, child: ResolvedBranch, row: ResolvedMember)
    requires parent.path <= child.path && row in MemberBlock(MembersById(s), s.groupMembers, parent)
    ensures exists below ::
              below in MemberBlock(MembersById(s), s.groupMembers, child) && below.memberId == row.memberId
  {
    MemberBlockRows(s, parent, row);
    var i :| 0 <= i < |parent.path| && Assigns(s.groupMembers, parent.path[i], row.memberId);
    assert child.path[i] == parent.path[i];
    var below := row.(selected := child.selected, source := child.source);
    assert MemberAlong(s, child.path, below);
    MemberBlockRows(s, child, below);
  }
}
