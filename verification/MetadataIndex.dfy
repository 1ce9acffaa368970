/**
 * The lookup tables `build_execution_plan` fills from a metadata snapshot (dynamic_metrics_pipeline.py):
 * dictionaries that keep the order of first insertion and the value of the last, and grouped lists.
 */
module MetadataIndex {
  import opened Results
  import opened Sequences

  /** A dictionary with its keys in insertion order. */
  datatype Dict<V> = Dict(keys: seq<string>, values: map<string, V>)

  function Put<V>(d: Dict<V>, key: string, value: V): Dict<V> {
    Dict(if key in d.values then d.keys else d.keys + [key], d.values[key := value])
  }

  ghost predicate ValidDict<V>(d: Dict<V>) {
    && Distinct(d.keys)
    && forall key :: key in d.keys <==> key in d.values
  }

  /** `{id(x): x for x in items if active(x)}`. */
  function Indexed<T>(items: seq<T>, active: T -> bool, id: T -> string): Dict<T> {
    if items == [] then Dict([], map[])
    else
      var rest, last := Indexed(items[..|items| - 1], active, id), items[|items| - 1];
      if active(last) then Put(rest, id(last), last) else rest
  }

  method IndexActive<T>(items: seq<T>, active: T -> bool, id: T -> string) returns (d: Dict<T>)
    ensures d == Indexed(items, active, id)
  {
    d := Dict([], map[]);
    for i := 0 to |items|
      invariant d == Indexed(items[..i], active, id)
    {
      assert items[..i + 1][..i] == items[..i];
      if active(items[i]) {
        d := Put(d, id(items[i]), items[i]);
      }
    }
    assert items[..|items|] == items;
  }

  /** `value` is the last active item with the id `key`. */
  ghost predicate IsLast<T>(items: seq<T>, active: T -> bool, id: T -> string, key: string, value: T) {
    exists k | 0 <= k < |items| ::
      && items[k] == value && active(items[k]) && id(items[k]) == key
      && forall j | k < j < |items| && active(items[j]) :: id(items[j]) != key
  }

  ghost predicate HasActive<T>(items: seq<T>, active: T -> bool, id: T -> string, key: string) {
    exists k | 0 <= k < |items| :: active(items[k]) && id(items[k]) == key
  }

  lemma IsLastAppend<T>(items: seq<T>, active: T -> bool, id: T -> string, key: string, last: T)
    ensures active(last) && id(last) == key ==> IsLast(items + [last], active, id, key, last)
    ensures forall value :: !(active(last) && id(last) == key) && IsLast(items, active, id, key, value)
              ==> IsLast(items + [last], active, id, key, value)
  {
    var all := items + [last];
    assert all[|items|] == last;
    forall value | !(active(last) && id(last) == key) && IsLast(items, active, id, key, value)
      ensures IsLast(all, active, id, key, value)
    {
      var k :| 0 <= k < |items| && items[k] == value && active(items[k]) && id(items[k]) == key
        && forall j | k < j < |items| && active(items[j]) :: id(items[j]) != key;
      assert all[k] == value;
    }
  }

  lemma HasActiveAppend<T>(items: seq<T>, active: T -> bool, id: T -> string, key: string, last: T)
    ensures HasActive(items + [last], active, id, key)
            <==> HasActive(items, active, id, key) || (active(last) && id(last) == key)
  {
    var all := items + [last];
    assert all[|items|] == last;
    if HasActive(items, active, id, key) {
      var k :| 0 <= k < |items| && active(items[k]) && id(items[k]) == key;
      assert all[k] == items[k];
    }
  }

  /** The table holds exactly the ids of active items, each once, and for each id the last such item. */
  lemma {:induction false} IndexMeaning<T>(items: seq<T>, active: T -> bool, id: T -> string)
    ensures ValidDict(Indexed(items, active, id))
    ensures forall key :: key in Indexed(items, active, id).values <==> HasActive(items, active, id, key)
    ensures forall key <- Indexed(items, active, id).values ::
              IsLast(items, active, id, key, Indexed(items, active, id).values[key])
  {
    if items != [] {
      var init, last := items[..|items| - 1], items[|items| - 1];
      assert items == init + [last];
      IndexMeaning(init, active, id);
      forall key ensures key in Indexed(items, active, id).values <==> HasActive(items, active, id, key) {
        HasActiveAppend(init, active, id, key, last);
      }
      forall key <- Indexed(items, active, id).values
        ensures IsLast(items, active, id, key, Indexed(items, active, id).values[key])
      {
        IsLastAppend(init, active, id, key, last);
      }
    }
  }

  // ----- Assignments: which members or metrics a group lists -----

  datatype Assignment = Assignment(groupId: string, itemId: string, isActive: bool)

  /** The items actively assigned to a group, in the snapshot's order. */
  function Assigned(assignments: seq<Assignment>, groupId: string): seq<string> {
    if assignments == [] then []
    else
      var rest, last := Assigned(assignments[..|assignments| - 1], groupId), assignments[|assignments| - 1];
      if last.isActive && last.groupId == groupId then rest + [last.itemId] else rest
  }

  function Listed(lists: map<string, seq<string>>, key: string): seq<string> {
    if key in lists then lists[key] else []
  }

  /** `setdefault(key, []).append(value)`. */
  function Append(lists: map<string, seq<string>>, key: string, value: string): map<string, seq<string>> {
    lists[key := Listed(lists, key) + [value]]
  }

  method GroupAssignments(assignments: seq<Assignment>) returns (lists: map<string, seq<string>>)
    ensures forall g :: Listed(lists, g) == Assigned(assignments, g)
  {
    lists := map[];
    for i := 0 to |assignments|
      invariant forall g :: Listed(lists, g) == Assigned(assignments[..i], g)
    {
      assert assignments[..i + 1][..i] == assignments[..i];
      if assignments[i].isActive {
        lists := Append(lists, assignments[i].groupId, assignments[i].itemId);
      }
    }
    assert assignments[..|assignments|] == assignments;
  }

  lemma {:induction false} AssignedMembers(assignments: seq<Assignment>, groupId: string, item: string)
    ensures item in Assigned(assignments, groupId) <==> Assignment(groupId, item, true) in assignments
  {
    if assignments != [] {
      var init, last := assignments[..|assignments| - 1], assignments[|assignments| - 1];
      assert assignments == init + [last];
      AssignedMembers(init, groupId, item);
    }
  }

  // ----- Groups and their children -----

  datatype Group = Group(groupId: string, groupName: string, parent: Option<string>, isActive: bool)

  function GroupActive(g: Group): bool { g.isActive }
  function GroupId(g: Group): string { g.groupId }

  function GroupsById(groups: seq<Group>): Dict<Group> {
    Indexed(groups, GroupActive, GroupId)
  }

  predicate HasParent(index: Dict<Group>, id: string, parent: string) {
    id in index.values && index.values[id].parent == Some(parent)
  }

  function ChildOf(index: Dict<Group>, parent: string): string -> bool {
    (id: string) => HasParent(index, id, parent)
  }

  /** The active groups whose parent is `parent`, in the snapshot's order. */
  function Children(index: Dict<Group>, parent: string): seq<string> {
    Filter(index.keys, ChildOf(index, parent))
  }

  method GroupChildren(index: Dict<Group>) returns (lists: map<string, seq<string>>)
    requires ValidDict(index)
    ensures forall p :: Listed(lists, p) == Children(index, p)
  {
    lists := map[];
    for i := 0 to |index.keys|
      invariant forall p :: Listed(lists, p) == Filter(index.keys[..i], ChildOf(index, p))
    {
      assert index.keys[..i + 1][..i] == index.keys[..i];
      var id := index.keys[i];
      assert id in index.keys;
      var parent := index.values[id].parent;
      if parent.None? {
        continue;
      }
      lists := Append(lists, parent.value, id);
    }
    assert index.keys[..|index.keys|] == index.keys;
  }
}
