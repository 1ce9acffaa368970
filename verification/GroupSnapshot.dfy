/**
 * The groups of a metadata snapshot and the parent chains between them, told by the list of groups alone;
 * and that the tables and the walk of the plan follow it.
 */
module GroupSnapshot {
  import opened GroupWalk
  import opened MetadataIndex
  import opened Results
  import opened Sequences

  /** Some active group has this id. */
  ghost predicate IsActiveGroup(groups: seq<Group>, id: string) {
    exists g :: g in groups && g.isActive && g.groupId == id
  }

  /** The last active group with the id `child` names `parent` as its parent. */
  ghost predicate IsChildOf(groups: seq<Group>, child: string, parent: string) {
    exists k | 0 <= k < |groups| ::
      && groups[k].isActive && groups[k].groupId == child && groups[k].parent == Some(parent)
      && forall j | k < j < |groups| && groups[j].isActive :: groups[j].groupId != child
  }

  /** A chain of groups, each the parent of the next. */
  ghost predicate IsLineage(groups: seq<Group>, path: Path) {
    path != [] && forall i | 0 < i < |path| :: IsChildOf(groups, path[i], path[i - 1])
  }

  /** Following parents from this group leads back to it. */
  ghost predicate OnParentCycle(groups: seq<Group>, id: string) {
    exists path :: IsLineage(groups, path) && |path| > 1 && path[0] == id == path[|path| - 1]
  }

  /** `k` is where an active group with this id stands first. */
  ghost predicate FirstAt(groups: seq<Group>, id: string, k: nat) {
    && k < |groups| && groups[k].isActive && groups[k].groupId == id
    && forall j | 0 <= j < k && groups[j].isActive :: groups[j].groupId != id
  }

  /** `a` stands before `b` in the snapshot. */
  ghost predicate StandsBefore(groups: seq<Group>, a: string, b: string) {
    exists i: nat, j: nat :: i < j && FirstAt(groups, a, i) && FirstAt(groups, b, j)
  }

  /** Preorder: a path comes before its extensions, and siblings come in the order of the snapshot. */
  ghost predicate InTreeOrder(groups: seq<Group>, a: Path, b: Path) {
    a < b || exists i | 0 <= i < |a| && i < |b| :: a[..i] == b[..i] && StandsBefore(groups, a[i], b[i])
  }

  // ----- The index follows the snapshot -----

  lemma ActiveExactly(groups: seq<Group>, id: string)
    ensures id in GroupsById(groups).values <==> IsActiveGroup(groups, id)
  {
    IndexMeaning(groups, GroupActive, GroupId);
    if IsActiveGroup(groups, id) {
      var g :| g in groups && g.isActive && g.groupId == id;
      var k :| 0 <= k < |groups| && groups[k] == g;
      assert GroupActive(groups[k]) && GroupId(groups[k]) == id;
      assert HasActive(groups, GroupActive, GroupId, id);
    }
  }

  lemma ChildExactly(groups: seq<Group>, child: string, parent: string)
    ensures HasParent(GroupsById(groups), child, parent) <==> IsChildOf(groups, child, parent)
  {
    var index := GroupsById(groups);
    IndexMeaning(groups, GroupActive, GroupId);
    if HasParent(index, child, parent) {
      assert IsLast(groups, GroupActive, GroupId, child, index.values[child]);
    }
    if IsChildOf(groups, child, parent) {
      var k :| 0 <= k < |groups| && groups[k].isActive && groups[k].groupId == child
        && groups[k].parent == Some(parent)
        && forall j | k < j < |groups| && groups[j].isActive :: groups[j].groupId != child;
      assert GroupActive(groups[k]) && GroupId(groups[k]) == child;
      assert HasActive(groups, GroupActive, GroupId, child);
      LastIsUnique(groups, child, k, index.values[child]);
    }
  }

  lemma LastIsUnique(groups: seq<Group>, id: string, k: nat, g: Group)
    requires k < |groups| && groups[k].isActive && groups[k].groupId == id
    requires forall j | k < j < |groups| && groups[j].isActive :: groups[j].groupId != id
    requires IsLast(groups, GroupActive, GroupId, id, g)
    ensures g == groups[k]
  {
    assert GroupActive(groups[k]) && GroupId(groups[k]) == id;
    var l :| 0 <= l < |groups| && groups[l] == g && GroupActive(groups[l]) && GroupId(groups[l]) == id
      && forall j | l < j < |groups| && GroupActive(groups[j]) :: GroupId(groups[j]) != id;
  }

  lemma ChainExactly(groups: seq<Group>, path: Path)
    ensures IsChain(GroupsById(groups), path) <==> IsLineage(groups, path)
  {
    forall i | 0 < i < |path|
      ensures HasParent(GroupsById(groups), path[i], path[i - 1]) <==> IsChildOf(groups, path[i], path[i - 1])
    {
      ChildExactly(groups, path[i], path[i - 1]);
    }
  }

  lemma CycleMeaning(groups: seq<Group>, id: string)
    ensures OnCycle(GroupsById(groups), id) <==> OnParentCycle(groups, id)
  {
    var index := GroupsById(groups);
    if OnCycle(index, id) {
      var k: nat :| k > 0 && Ancestor(index, id, k) == Some(id);
      LineageIsChain(index, id, k);
      ChainExactly(groups, Lineage(index, id, k));
    }
    if OnParentCycle(groups, id) {
      var path :| IsLineage(groups, path) && |path| > 1 && path[0] == id == path[|path| - 1];
      ChainExactly(groups, path);
      ChainIsLineage(index, path);
    }
  }

  // ----- The order of the index -----

  lemma FirstAtAppend(groups: seq<Group>, g: Group, id: string)
    ensures forall k: nat | FirstAt(groups, id, k) :: FirstAt(groups + [g], id, k)
    ensures !IsActiveGroup(groups, id) && g.isActive && g.groupId == id ==> FirstAt(groups + [g], id, |groups|)
  {
    if !IsActiveGroup(groups, id) && g.isActive && g.groupId == id {
      forall j | 0 <= j < |groups| && groups[j].isActive ensures groups[j].groupId != id {
        assert groups[j] in groups;
      }
    }
  }

  lemma StandsBeforeAppend(groups: seq<Group>, g: Group, a: string, b: string)
    requires StandsBefore(groups, a, b)
    ensures StandsBefore(groups + [g], a, b)
  {
    var i: nat, j: nat :| i < j && FirstAt(groups, a, i) && FirstAt(groups, b, j);
    FirstAtAppend(groups, g, a);
    FirstAtAppend(groups, g, b);
  }

  /** The keys of the index stand in the order in which active groups with these ids first appear. */
  lemma {:induction false} KeysInOrder(groups: seq<Group>)
    ensures forall id <- GroupsById(groups).keys :: exists k: nat :: FirstAt(groups, id, k)
    ensures forall i, j | 0 <= i < j < |GroupsById(groups).keys| ::
              StandsBefore(groups, GroupsById(groups).keys[i], GroupsById(groups).keys[j])
  {
    if groups != [] {
      var init, last := groups[..|groups| - 1], groups[|groups| - 1];
      SplitLast(groups);
      KeysInOrder(init);
      IndexMeaning(init, GroupActive, GroupId);
      var before, keys := GroupsById(init).keys, GroupsById(groups).keys;
      ActiveExactly(init, last.groupId);
      forall i | 0 <= i < |before| ensures exists k: nat :: k < |init| && FirstAt(groups, before[i], k) {
        assert before[i] in before;
        var k: nat :| FirstAt(init, before[i], k);
        FirstAtAppend(init, last, before[i]);
      }
      FirstAtAppend(init, last, last.groupId);
      forall i, j | 0 <= i < j < |keys| ensures StandsBefore(groups, keys[i], keys[j]) {
        if j < |before| {
          StandsBeforeAppend(init, last, before[i], before[j]);
        } else {
          assert keys[j] == last.groupId && FirstAt(groups, keys[j], |init|);
          assert keys[i] == before[i];
        }
      }
      forall id <- keys ensures exists k: nat :: FirstAt(groups, id, k) {
        if id in before {
          var i :| 0 <= i < |before| && before[i] == id;
        }
      }
    }
  }

  lemma OrderExactly(groups: seq<Group>, a: Path, b: Path)
    requires Before(GroupsById(groups), a, b)
    ensures InTreeOrder(groups, a, b)
  {
    KeysInOrder(groups);
    if !(a < b) {
      var i :| 0 <= i < |a| && i < |b| && a[..i] == b[..i] && Ranked(GroupsById(groups), a[i], b[i]);
      assert StandsBefore(groups, a[i], b[i]);
    }
  }

  // ----- The walk follows the snapshot -----

  /** The paths of the walk are exactly the parent chains from the selected group, in tree order. */
  lemma WalkExactly(groups: seq<Group>, selected: string)
    requires IsActiveGroup(groups, selected) && !OnParentCycle(groups, selected)
    ensures selected in GroupsById(groups).values && Walk(GroupsById(groups), selected, []).Ok?
    ensures
      var paths := Walk(GroupsById(groups), selected, []).value;
      && (forall path :: path in paths <==> IsLineage(groups, path) && path[0] == selected)
      && (forall i, j | 0 <= i < j < |paths| ::
            Last(paths[i]) != Last(paths[j]) && InTreeOrder(groups, paths[i], paths[j]))
  {
    var index := GroupsById(groups);
    IndexMeaning(groups, GroupActive, GroupId);
    ActiveExactly(groups, selected);
    CycleMeaning(groups, selected);
    BranchesAreDescendants(index, selected);
    var paths := Walk(index, selected, []).value;
    forall path ensures path in paths <==> IsLineage(groups, path) && path[0] == selected {
      ChainExactly(groups, path);
      if IsChain(index, path) && path[0] == selected {
        LineageVisited(index, selected, path);
      }
    }
    forall i, j | 0 <= i < j < |paths|
      ensures Last(paths[i]) != Last(paths[j]) && InTreeOrder(groups, paths[i], paths[j])
    {
      assert Before(index, paths[i], paths[j]);
      OrderExactly(groups, paths[i], paths[j]);
    }
  }

  lemma LineageVisited(index: Dict<Group>, selected: string, path: Path)
    requires ValidDict(index) && selected in index.values && !OnCycle(index, selected)
    requires Walk(index, selected, []).Ok? && IsChain(index, path) && path[0] == selected
    ensures path in Walk(index, selected, []).value
  {
    BranchesAreDescendants(index, selected);
    ChainIsLineage(index, path);
    assert Descends(index, Last(path), selected);
    var p :| p in Walk(index, selected, []).value && Last(p) == Last(path);
    SameSourceSamePath(index, selected, p, path);
  }
}
