/**
 * Expanding a group into its branches (`_resolve_branches`): a walk down a graph in which every active
 * group names one parent, with a check for cycles.
 */
module GroupWalk {
  import opened MetadataIndex
  import opened Results
  import opened Sequences

  type Path = seq<string>

  function Elems(path: Path): set<string> {
    set g | g in path
  }

  ghost predicate Known(index: Dict<Group>, ids: seq<string>) {
    forall id <- ids :: id in index.values
  }

  lemma ChildrenKnown(index: Dict<Group>, parent: string)
    ensures Known(index, Children(index, parent))
    ensures forall c <- Children(index, parent) :: HasParent(index, c, parent)
  {
    forall c <- Children(index, parent) ensures HasParent(index, c, parent) {
      FilterMembers(index.keys, ChildOf(index, parent), c);
    }
  }

  lemma PathGrows(index: Dict<Group>, id: string, path: Path)
    requires id in index.values && id !in path
    ensures index.values.Keys - Elems(path + [id]) < index.values.Keys - Elems(path)
  {
    assert id in index.values.Keys - Elems(path);
    assert Elems(path + [id]) == Elems(path) + {id};
  }

  /** The branch paths under `id`, or the path on which a group repeats. */
  function Walk(index: Dict<Group>, id: string, path: Path): Result<seq<Path>, Path>
    requires id in index.values
    decreases index.values.Keys - Elems(path), 0, 0
  {
    if id in path then Err(path + [id])
    else
      ChildrenKnown(index, id);
      PathGrows(index, id, path);
      match WalkAll(index, Children(index, id), path + [id])
      case Err(cycle) => Err(cycle)
      case Ok(below) => Ok([path + [id]] + below)
  }

  function WalkAll(index: Dict<Group>, children: seq<string>, path: Path): Result<seq<Path>, Path>
    requires Known(index, children)
    decreases index.values.Keys - Elems(path), 1, |children|
  {
    if children == [] then Ok([])
    else
      var n := |children| - 1;
      match WalkAll(index, children[..n], path)
      case Err(cycle) => Err(cycle)
      case Ok(before) =>
        match Walk(index, children[n], path)
        case Err(cycle) => Err(cycle)
        case Ok(last) => Ok(before + last)
  }

  // ----- The recursive procedure that fills a shared list -----

  datatype ResolvedBranch = ResolvedBranch(selected: string, source: string, path: Path)

  function Last(path: Path): string {
    if path == [] then "" else path[|path| - 1]
  }

  function Branches(selected: string, paths: seq<Path>): seq<ResolvedBranch> {
    seq(|paths|, i requires 0 <= i < |paths| => ResolvedBranch(selected, Last(paths[i]), paths[i]))
  }

  lemma {:induction false} WalkNonEmpty(index: Dict<Group>, id: string, path: Path)
    requires id in index.values
    ensures Walk(index, id, path).Ok? ==> forall p <- Walk(index, id, path).value :: path + [id] <= p
    decreases index.values.Keys - Elems(path), 0, 0
  {
    if id !in path {
      ChildrenKnown(index, id);
      PathGrows(index, id, path);
      WalkAllNonEmpty(index, Children(index, id), path + [id]);
    }
  }

  lemma {:induction false} WalkAllNonEmpty(index: Dict<Group>, children: seq<string>, path: Path)
    requires Known(index, children)
    ensures WalkAll(index, children, path).Ok? ==>
              forall p <- WalkAll(index, children, path).value :: path < p
    decreases index.values.Keys - Elems(path), 1, |children|
  {
    if children != [] {
      var n := |children| - 1;
      WalkAllNonEmpty(index, children[..n], path);
      WalkNonEmpty(index, children[n], path);
    }
  }

  lemma {:induction false} WalkAllStops(index: Dict<Group>, children: seq<string>, path: Path, n: nat)
    requires Known(index, children) && n <= |children|
    ensures WalkAll(index, children[..n], path).Err? ==>
              WalkAll(index, children, path) == WalkAll(index, children[..n], path)
  {
    if n < |children| {
      var m := |children| - 1;
      assert children[..m][..n] == children[..n];
      WalkAllStops(index, children[..m], path, n);
    } else {
      assert children[..n] == children;
    }
  }

  /** A walk with result `r` raised `cycle`, or appended its branches to the list. */
  ghost predicate Gathered(r: Result<seq<Path>, Path>, cycle: Option<Path>, selected: string,
                           before: seq<ResolvedBranch>, after: seq<ResolvedBranch>)
  {
    match r
    case Ok(paths) => cycle.None? && after == before + Branches(selected, paths)
    case Err(path) => cycle == Some(path)
  }

  lemma GatheredNext(index: Dict<Group>, ids: seq<string>, path: Path, i: nat, cycle: Option<Path>, selected: string,
                     b0: seq<ResolvedBranch>, b1: seq<ResolvedBranch>, b2: seq<ResolvedBranch>)
    requires Known(index, ids) && i < |ids|
    requires Gathered(WalkAll(index, ids[..i], path), None, selected, b0, b1)
    requires Gathered(Walk(index, ids[i], path), cycle, selected, b1, b2)
    ensures Gathered(WalkAll(index, ids[..i + 1], path), cycle, selected, b0, b2)
  {
    assert ids[..i + 1][..i] == ids[..i];
    if cycle.None? {
      var before, below := WalkAll(index, ids[..i], path).value, Walk(index, ids[i], path).value;
      Associative(b0, Branches(selected, before), Branches(selected, below));
    }
  }

  /** The closure `walk` with the list it appends to. */
  class BranchList {
    var branches: seq<ResolvedBranch>

    constructor ()
      ensures branches == []
    {
      branches := [];
    }

    /** Append the branches under `id`; answer the repeating path instead of raising. */
    method Collect(selected: string, id: string, path: Path, children: map<string, seq<string>>,
                   ghost index: Dict<Group>)
      returns (cycle: Option<Path>)
      requires id in index.values && forall p :: Listed(children, p) == Children(index, p)
      modifies this
      ensures Gathered(Walk(index, id, path), cycle, selected, old(branches), branches)
      decreases index.values.Keys - Elems(path), 0
    {
      if id in path {
        return Some(path + [id]);
      }
      branches := branches + [ResolvedBranch(selected, id, path + [id])];
      ChildrenKnown(index, id);
      PathGrows(index, id, path);
      cycle := CollectAll(selected, Listed(children, id), path + [id], children, index);
    }

    /** The loop over the children. */
    method CollectAll(selected: string, ids: seq<string>, path: Path, children: map<string, seq<string>>,
                      ghost index: Dict<Group>)
      returns (cycle: Option<Path>)
      requires Known(index, ids) && forall p :: Listed(children, p) == Children(index, p)
      modifies this
      ensures Gathered(WalkAll(index, ids, path), cycle, selected, old(branches), branches)
      decreases index.values.Keys - Elems(path), 1
    {
      ghost var base := branches;
      assert base + Branches(selected, []) == base;
      cycle := None;
      for i := 0 to |ids|
        invariant cycle.None?
        invariant Gathered(WalkAll(index, ids[..i], path), None, selected, base, branches)
      {
        ghost var before := branches;
        cycle := Collect(selected, ids[i], path, children, index);
        GatheredNext(index, ids, path, i, cycle, selected, base, before, branches);
        if cycle.Some? {
          WalkAllStops(index, ids, path, i + 1);
          return;
        }
      }
      assert ids[..|ids|] == ids;
    }
  }

  // ----- Chains of parents -----

  /** Each group after the first names the one before it as its parent. */
  ghost predicate IsChain(index: Dict<Group>, path: Path) {
    path != [] && forall i | 0 < i < |path| :: HasParent(index, path[i], path[i - 1])
  }

  function ParentOf(index: Dict<Group>, id: string): Option<string> {
    if id in index.values then index.values[id].parent else None
  }

  /** The k-th ancestor, following parent pointers through active groups. */
  function Ancestor(index: Dict<Group>, id: string, k: nat): Option<string>
    decreases k
  {
    if k == 0 then Some(id)
    else if ParentOf(index, id).None? then None
    else Ancestor(index, ParentOf(index, id).value, k - 1)
  }

  ghost predicate OnCycle(index: Dict<Group>, id: string) {
    exists k: nat :: k > 0 && Ancestor(index, id, k) == Some(id)
  }

  ghost predicate Descends(index: Dict<Group>, id: string, from: string) {
    exists k: nat :: Ancestor(index, id, k) == Some(from)
  }

  /** The chain from the k-th ancestor down to `id`. */
  function Lineage(index: Dict<Group>, id: string, k: nat): Path
    requires Ancestor(index, id, k).Some?
    decreases k
  {
    if k == 0 then [id] else Lineage(index, ParentOf(index, id).value, k - 1) + [id]
  }

  lemma {:induction false} LineageIsChain(index: Dict<Group>, id: string, k: nat)
    requires Ancestor(index, id, k).Some?
    ensures IsChain(index, Lineage(index, id, k)) && |Lineage(index, id, k)| == k + 1
    ensures Lineage(index, id, k)[0] == Ancestor(index, id, k).value
    ensures Last(Lineage(index, id, k)) == id
    decreases k
  {
    if k > 0 {
      LineageIsChain(index, ParentOf(index, id).value, k - 1);
    }
  }

  /** A chain is the lineage of its last group. */
  lemma {:induction false} ChainIsLineage(index: Dict<Group>, path: Path)
    requires IsChain(index, path)
    ensures Ancestor(index, Last(path), |path| - 1) == Some(path[0])
    ensures Lineage(index, Last(path), |path| - 1) == path
  {
    if |path| > 1 {
      ChainIsLineage(index, path[..|path| - 1]);
      assert path == path[..|path| - 1] + [Last(path)];
    }
  }

  lemma {:induction false} AncestorsAdd(index: Dict<Group>, id: string, j: nat, k: nat)
    requires Ancestor(index, id, j).Some?
    ensures Ancestor(index, id, j + k) == Ancestor(index, Ancestor(index, id, j).value, k)
    decreases j
  {
    if j > 0 {
      AncestorsAdd(index, ParentOf(index, id).value, j - 1, k);
    }
  }

  // ----- What the walk visits -----

  lemma ChainExtends(index: Dict<Group>, path: Path, id: string)
    requires IsChain(index, path) && HasParent(index, id, Last(path))
    ensures IsChain(index, path + [id])
  {
  }

  /** A path that runs back into itself. */
  ghost predicate IsLoop(index: Dict<Group>, path: Path) {
    && |path| > 1 && IsChain(index, path)
    && Distinct(path[..|path| - 1]) && Last(path) in path[..|path| - 1]
  }

  ghost predicate IsBranch(index: Dict<Group>, path: Path) {
    IsChain(index, path) && Distinct(path)
  }

  /** Every branch is a chain without repetition; the path of an error is a chain that repeats. */
  lemma {:induction false} WalkSound(index: Dict<Group>, id: string, path: Path)
    requires id in index.values && IsChain(index, path + [id]) && Distinct(path)
    ensures Walk(index, id, path).Ok? ==> forall p <- Walk(index, id, path).value :: IsBranch(index, p)
    ensures Walk(index, id, path).Err? ==>
              IsLoop(index, Walk(index, id, path).error) && path + [id] <= Walk(index, id, path).error
    decreases index.values.Keys - Elems(path), 0, 0
  {
    if id in path {
      assert (path + [id])[..|path|] == path;
    } else {
      ChildrenKnown(index, id);
      PathGrows(index, id, path);
      WalkAllSound(index, Children(index, id), path + [id]);
    }
  }

  lemma {:induction false} WalkAllSound(index: Dict<Group>, children: seq<string>, path: Path)
    requires IsChain(index, path) && Distinct(path) && Known(index, children)
    requires forall c <- children :: HasParent(index, c, Last(path))
    ensures WalkAll(index, children, path).Ok? ==>
              forall p <- WalkAll(index, children, path).value :: IsBranch(index, p)
    ensures WalkAll(index, children, path).Err? ==>
              IsLoop(index, WalkAll(index, children, path).error) && path <= WalkAll(index, children, path).error
    decreases index.values.Keys - Elems(path), 1, |children|
  {
    if children != [] {
      var n := |children| - 1;
      WalkAllSound(index, children[..n], path);
      ChainExtends(index, path, children[n]);
      WalkSound(index, children[n], path);
    }
  }

  /** Every chain from `id` is one of the branches. */
  lemma {:induction false} WalkComplete(index: Dict<Group>, id: string, path: Path, chain: Path)
    requires ValidDict(index) && id in index.values && Walk(index, id, path).Ok?
    requires IsChain(index, chain) && chain[0] == id
    ensures path + chain in Walk(index, id, path).value
    decreases |chain|
  {
    ChildrenKnown(index, id);
    PathGrows(index, id, path);
    if |chain| == 1 {
      assert chain == [id];
    } else {
      var rest := chain[1..];
      assert HasParent(index, chain[1], chain[0]);
      assert IsChain(index, rest) by {
        forall i | 0 < i < |rest| ensures HasParent(index, rest[i], rest[i - 1]) {
          assert rest[i] == chain[i + 1] && rest[i - 1] == chain[i];
        }
      }
      FilterMembers(index.keys, ChildOf(index, id), rest[0]);
      WalkAllIncludes(index, Children(index, id), path + [id], rest[0]);
      WalkComplete(index, rest[0], path + [id], rest);
      assert path + [id] + rest == path + chain;
    }
  }

  lemma {:induction false} WalkAllIncludes(index: Dict<Group>, children: seq<string>, path: Path, child: string)
    requires Known(index, children) && child in children && WalkAll(index, children, path).Ok?
    ensures Walk(index, child, path).Ok?
    ensures forall p <- Walk(index, child, path).value :: p in WalkAll(index, children, path).value
  {
    var n := |children| - 1;
    if child != children[n] {
      WalkAllIncludes(index, children[..n], path, child);
    }
  }

  // ----- Cycles -----

  lemma LoopClosesAtStart(index: Dict<Group>, path: Path)
    requires IsLoop(index, path)
    ensures Last(path) == path[0]
  {
    var n := |path| - 1;
    var j :| 0 <= j < n && path[..n][j] == path[n];
    assert HasParent(index, path[n], path[n - 1]) && (j > 0 ==> HasParent(index, path[j], path[j - 1]));
    assert forall i | 0 <= i < n :: path[..n][i] == path[i];
  }

  /** The walk reports a cycle exactly when the selected group lies on one; the path starts and ends there. */
  lemma CycleExactly(index: Dict<Group>, selected: string)
    requires ValidDict(index) && selected in index.values
    ensures Walk(index, selected, []).Err? <==> OnCycle(index, selected)
    ensures Walk(index, selected, []).Err? ==>
              IsLoop(index, Walk(index, selected, []).error)
              && Walk(index, selected, []).error[0] == Last(Walk(index, selected, []).error) == selected
  {
    var r := Walk(index, selected, []);
    WalkSound(index, selected, []);
    if r.Err? {
      LoopClosesAtStart(index, r.error);
      assert [] + [selected] <= r.error;
      ChainIsLineage(index, r.error);
    }
    if OnCycle(index, selected) {
      var k: nat :| k > 0 && Ancestor(index, selected, k) == Some(selected);
      CycleFound(index, selected, k);
    }
  }

  lemma CycleFound(index: Dict<Group>, selected: string, k: nat)
    requires ValidDict(index) && selected in index.values
    requires k > 0 && Ancestor(index, selected, k) == Some(selected)
    ensures Walk(index, selected, []).Err?
  {
    var chain := Lineage(index, selected, k);
    LineageIsChain(index, selected, k);
    assert chain[0] == chain[k] && !Distinct(chain);
    NothingAdded(chain);
    WalkSound(index, selected, []);
    if Walk(index, selected, []).Ok? {
      WalkComplete(index, selected, [], chain);
    }
  }

  // ----- Branches and descendants -----

  lemma Returns(index: Dict<Group>, selected: string, id: string, j: nat, k: nat)
    requires j <= k && Ancestor(index, id, j) == Some(selected) && Ancestor(index, id, k) == Some(selected)
    ensures Ancestor(index, selected, k - j) == Some(selected)
  {
    AncestorsAdd(index, id, j, k - j);
  }

  /** Without a cycle a group descends from the selected one along one chain only. */
  lemma OneLineage(index: Dict<Group>, selected: string, id: string, j: nat, k: nat)
    requires !OnCycle(index, selected)
    requires Ancestor(index, id, j) == Some(selected) && Ancestor(index, id, k) == Some(selected)
    ensures j == k
  {
    if j <= k {
      Returns(index, selected, id, j, k);
    } else {
      Returns(index, selected, id, k, j);
    }
  }

  /** The position of a group among the active ones of the snapshot. */
  ghost predicate Ranked(index: Dict<Group>, a: string, b: string) {
    exists i, j | 0 <= i < j < |index.keys| :: index.keys[i] == a && index.keys[j] == b
  }

  /** Preorder: a path comes before its extensions, and siblings come in the order of the snapshot. */
  ghost predicate Before(index: Dict<Group>, a: Path, b: Path) {
    a < b || exists i | 0 <= i < |a| && i < |b| :: a[..i] == b[..i] && Ranked(index, a[i], b[i])
  }

  ghost predicate InPreorder(index: Dict<Group>, paths: seq<Path>) {
    forall i, j | 0 <= i < j < |paths| :: Before(index, paths[i], paths[j])
  }

  ghost predicate RankedInOrder(index: Dict<Group>, ids: seq<string>) {
    forall i, j | 0 <= i < j < |ids| :: Ranked(index, ids[i], ids[j])
  }

  lemma {:induction false} FilterRanked(index: Dict<Group>, parent: string, n: nat)
    requires n <= |index.keys|
    ensures RankedInOrder(index, Filter(index.keys[..n], ChildOf(index, parent)))
  {
    if n > 0 {
      assert index.keys[..n][..n - 1] == index.keys[..n - 1];
      FilterRanked(index, parent, n - 1);
      var rest, last := Filter(index.keys[..n - 1], ChildOf(index, parent)), index.keys[n - 1];
      forall i | 0 <= i < |rest| ensures Ranked(index, rest[i], last) {
        FilterMembers(index.keys[..n - 1], ChildOf(index, parent), rest[i]);
        var k :| 0 <= k < n - 1 && index.keys[..n - 1][k] == rest[i];
        assert index.keys[k] == rest[i];
      }
    }
  }

  lemma ChildrenRanked(index: Dict<Group>, parent: string)
    ensures RankedInOrder(index, Children(index, parent))
  {
    FilterRanked(index, parent, |index.keys|);
    assert index.keys[..|index.keys|] == index.keys;
  }

  lemma {:induction false} WalkPreorder(index: Dict<Group>, id: string, path: Path)
    requires id in index.values && Walk(index, id, path).Ok?
    ensures InPreorder(index, Walk(index, id, path).value)
    decreases index.values.Keys - Elems(path), 0, 0
  {
    ChildrenKnown(index, id);
    PathGrows(index, id, path);
    ChildrenRanked(index, id);
    WalkAllPreorder(index, Children(index, id), path + [id]);
    WalkAllNonEmpty(index, Children(index, id), path + [id]);
    var below := WalkAll(index, Children(index, id), path + [id]).value;
    var all := [path + [id]] + below;
    forall i, j | 0 <= i < j < |all| ensures Before(index, all[i], all[j]) {
      assert all[j] == below[j - 1] && below[j - 1] in below;
      if i > 0 {
        assert all[i] == below[i - 1];
      }
    }
  }

  /** Every path of the list continues `path` with one of the children. */
  ghost predicate ThroughChildren(path: Path, children: seq<string>, paths: seq<Path>) {
    forall p <- paths :: path < p && p[|path|] in children
  }

  lemma {:induction false} WalkAllThrough(index: Dict<Group>, children: seq<string>, path: Path)
    requires Known(index, children) && WalkAll(index, children, path).Ok?
    ensures ThroughChildren(path, children, WalkAll(index, children, path).value)
  {
    if children != [] {
      var n := |children| - 1;
      WalkAllThrough(index, children[..n], path);
      WalkNonEmpty(index, children[n], path);
      var before, last := WalkAll(index, children[..n], path).value, Walk(index, children[n], path).value;
      forall p <- before + last ensures path < p && p[|path|] in children {
        if p in last {
          assert path + [children[n]] <= p;
          assert p[|path|] == children[n];
        }
      }
    }
  }

  lemma {:induction false} WalkAllPreorder(index: Dict<Group>, children: seq<string>, path: Path)
    requires Known(index, children) && WalkAll(index, children, path).Ok?
    requires RankedInOrder(index, children)
    ensures InPreorder(index, WalkAll(index, children, path).value)
    decreases index.values.Keys - Elems(path), 1, |children|
  {
    if children != [] {
      var n := |children| - 1;
      WalkAllPreorder(index, children[..n], path);
      WalkPreorder(index, children[n], path);
      WalkAllThrough(index, children[..n], path);
      WalkNonEmpty(index, children[n], path);
      var before, last := WalkAll(index, children[..n], path).value, Walk(index, children[n], path).value;
      forall i, j | 0 <= i < |before| && 0 <= j < |last| ensures Before(index, before[i], last[j]) {
        assert before[i] in before && last[j] in last;
      }
    }
  }

  /** Each branch is the parent chain from the selected group to its source, without repetition. */
  ghost predicate AreLineages(index: Dict<Group>, selected: string, paths: seq<Path>) {
    forall p <- paths :: IsBranch(index, p) && p[0] == selected
  }

  ghost predicate HasSource(paths: seq<Path>, id: string) {
    exists p :: p in paths && Last(p) == id
  }

  ghost predicate SourcesDistinct(paths: seq<Path>) {
    forall i, j | 0 <= i < j < |paths| :: Last(paths[i]) != Last(paths[j])
  }

  lemma WalkLineages(index: Dict<Group>, selected: string)
    requires ValidDict(index) && selected in index.values && Walk(index, selected, []).Ok?
    ensures AreLineages(index, selected, Walk(index, selected, []).value)
  {
    WalkSound(index, selected, []);
    WalkNonEmpty(index, selected, []);
    forall p <- Walk(index, selected, []).value ensures p[0] == selected {
      assert [] + [selected] <= p;
    }
  }

  lemma WalkReaches(index: Dict<Group>, selected: string, id: string)
    requires ValidDict(index) && selected in index.values && Walk(index, selected, []).Ok?
    ensures Descends(index, id, selected) <==> HasSource(Walk(index, selected, []).value, id)
  {
    var paths := Walk(index, selected, []).value;
    WalkLineages(index, selected);
    if Descends(index, id, selected) {
      var k: nat :| Ancestor(index, id, k) == Some(selected);
      LineageIsChain(index, id, k);
      WalkComplete(index, selected, [], Lineage(index, id, k));
      assert [] + Lineage(index, id, k) == Lineage(index, id, k);
    }
    if HasSource(paths, id) {
      var p :| p in paths && Last(p) == id;
      ChainIsLineage(index, p);
    }
  }

  lemma SameSourceSamePath(index: Dict<Group>, selected: string, p: Path, q: Path)
    requires IsChain(index, p) && IsChain(index, q) && p[0] == selected == q[0] && Last(p) == Last(q)
    requires !OnCycle(index, selected)
    ensures p == q
  {
    ChainIsLineage(index, p);
    ChainIsLineage(index, q);
    OneLineage(index, selected, Last(p), |p| - 1, |q| - 1);
  }

  lemma LineagesDistinct(index: Dict<Group>, selected: string, paths: seq<Path>)
    requires ValidDict(index) && !OnCycle(index, selected) && AreLineages(index, selected, paths)
               && InPreorder(index, paths)
    ensures SourcesDistinct(paths)
  {
    forall i, j | 0 <= i < j < |paths| ensures Last(paths[i]) != Last(paths[j]) {
      assert paths[i] in paths && paths[j] in paths && Before(index, paths[i], paths[j]);
      if Last(paths[i]) == Last(paths[j]) {
        SameSourceSamePath(index, selected, paths[i], paths[j]);
      }
    }
  }

  /**
   * Without a cycle the branches correspond one to one with the active descendants of the selected group,
   * in preorder, and each branch is the parent chain from the selected group to its source.
   */
  lemma BranchesAreDescendants(index: Dict<Group>, selected: string)
    requires ValidDict(index) && selected in index.values && !OnCycle(index, selected)
    ensures Walk(index, selected, []).Ok?
    ensures var paths := Walk(index, selected, []).value;
      && AreLineages(index, selected, paths)
      && (forall id :: Descends(index, id, selected) <==> HasSource(paths, id))
      && SourcesDistinct(paths)
      && InPreorder(index, paths)
  {
    CycleExactly(index, selected);
    WalkLineages(index, selected);
    WalkPreorder(index, selected, []);
    LineagesDistinct(index, selected, Walk(index, selected, []).value);
    forall id ensures Descends(index, id, selected) <==> HasSource(Walk(index, selected, []).value, id) {
      WalkReaches(index, selected, id);
    }
  }
}
