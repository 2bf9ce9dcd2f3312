/**
  The To-Do board's data: a map from category name to the ordered list of
  task records `{id, text, done}`, and every change the board makes to it,
  written as functions from the old map to the new one.
*/
module TaskStore {
  import opened Wrappers
  import Text

  type Category = string

  datatype Task = Task(id: int, text: string, done: bool)

  type Store = map<Category, seq<Task>>

  /** The store used when nothing is persisted: three empty lists. */
  function Default(): (s: Store)
    ensures s.Keys == {"design", "personal", "house"}
    ensures forall c :: c in s ==> s[c] == []
  {
    map["design" := [], "personal" := [], "house" := []]
  }

  /** `JSON.parse(localStorage.getItem("tasks")) || default`: a persisted store wins. */
  function Initial(persisted: Option<Store>): (s: Store)
    ensures persisted.None? ==> s == Default()
    ensures persisted.Some? ==> s == persisted.value
  {
    match persisted
    case None => Default()
    case Some(stored) => stored
  }

  /** `tasks[category]`, with a missing list read as empty. */
  function Lookup(s: Store, c: Category): seq<Task> {
    if c in s then s[c] else []
  }

  /** The form submit: append `{id, text: trimmed, done: false}` unless the text trims to nothing. */
  function Added(s: Store, c: Category, rawText: string, id: int): (r: Store)
    ensures r.Keys == if Text.Trim(rawText) == [] then s.Keys else s.Keys + {c}
    ensures |Lookup(r, c)| == |Lookup(s, c)| + (if Text.Trim(rawText) == [] then 0 else 1)
    ensures forall d :: d in s && d != c ==> r[d] == s[d]
  {
    var text := Text.Trim(rawText);
    if text == [] then s else s[c := Lookup(s, c) + [Task(id, text, false)]]
  }

  /** `list.filter(t => t.id !== id)` */
  function Without(ts: seq<Task>, id: int): (r: seq<Task>)
    ensures |r| <= |ts|
    ensures forall t :: t in r <==> t in ts && t.id != id
  {
    if ts == [] then []
    else Without(ts[..|ts| - 1], id) + (if ts[|ts| - 1].id == id then [] else [ts[|ts| - 1]])
  }

  /** The delete button: filter the task's id out of its own category. */
  function Deleted(s: Store, c: Category, id: int): (r: Store)
    requires c in s
    ensures r.Keys == s.Keys && |r[c]| <= |s[c]|
    ensures forall t :: t in r[c] ==> t.id != id
    ensures forall d :: d in s && d != c ==> r[d] == s[d]
  {
    s[c := Without(s[c], id)]
  }

  /** The checkbox change handler: set `done` of the task rendered at position `i` of `c`. */
  function Toggled(s: Store, c: Category, i: nat, checked: bool): (r: Store)
    requires c in s && i < |s[c]|
    ensures r.Keys == s.Keys && |r[c]| == |s[c]|
    ensures r[c][i].done == checked && r[c][i].id == s[c][i].id && r[c][i].text == s[c][i].text
    ensures forall d :: d in s && d != c ==> r[d] == s[d]
  {
    s[c := s[c][i := s[c][i].(done := checked)]]
  }

  /** `list.findIndex(t => t.id === id)`, with -1 as `None`. */
  function FindIndex(ts: seq<Task>, id: int): (r: Option<nat>)
    ensures r.Some? ==> r.value < |ts| && ts[r.value].id == id
    ensures r.Some? ==> forall k :: 0 <= k < r.value ==> ts[k].id != id
    ensures r.None? ==> forall k :: 0 <= k < |ts| ==> ts[k].id != id
  {
    if ts == [] then None
    else if ts[0].id == id then Some(0)
    else match FindIndex(ts[1..], id)
      case None => None
      case Some(k) => Some(k + 1)
  }

  /** `list.splice(i, 1)`: the list without its element at `i`. */
  function RemoveAt(ts: seq<Task>, i: nat): (r: seq<Task>)
    requires i < |ts|
    ensures |r| == |ts| - 1
    ensures r[..i] == ts[..i] && r[i..] == ts[i + 1..]
    ensures multiset(r) + multiset{ts[i]} == multiset(ts)
  {
    assert ts == ts[..i] + [ts[i]] + ts[i + 1..];
    ts[..i] + ts[i + 1..]
  }

  /** `list.splice(i, 0, t)`: insert before position `i`; an index past the end appends. */
  function InsertAt(ts: seq<Task>, i: nat, t: Task): (r: seq<Task>)
    ensures |r| == |ts| + 1
    ensures multiset(r) == multiset(ts) + multiset{t}
    ensures i <= |ts| ==> r[i] == t && r[..i] == ts[..i] && r[i + 1..] == ts[i..]
    ensures i > |ts| ==> r == ts + [t]
  {
    if i <= |ts| then
      assert ts == ts[..i] + ts[i..];
      ts[..i] + [t] + ts[i..]
    else ts + [t]
  }

  /**
    `updateTaskOrder`: find the task in its source list; if it is there, splice it
    out, then splice it into the target list (created if missing) at `newIndex`.
  */
  function Moved(s: Store, source: Category, target: Category, id: int, newIndex: nat): (r: Store)
    requires source in s
    ensures r.Keys == if FindIndex(s[source], id).None? then s.Keys else s.Keys + {target}
    ensures forall d :: d in s && d != source && d != target ==> r[d] == s[d]
  {
    match FindIndex(s[source], id)
    case None => s
    case Some(i) =>
      var task := s[source][i];
      var removed := s[source := RemoveAt(s[source], i)];
      removed[target := InsertAt(Lookup(removed, target), newIndex, task)]
  }

  // ----- Properties -----

  /** Text that trims to nothing adds no task and leaves the store as it was. */
  lemma AddBlankIsNoop(s: Store, c: Category, rawText: string, id: int)
    requires forall k :: 0 <= k < |rawText| ==> Text.IsSpace(rawText[k])
    ensures Added(s, c, rawText, id) == s
  {
    Text.TrimEmptyIff(rawText);
    assert Text.Trim(rawText) == [];
  }

  /**
    Other text appends exactly one new, not-done task holding the trimmed text at
    the end of the chosen category (created if missing); no other category changes.
  */
  lemma AddAppendsOne(s: Store, c: Category, rawText: string, id: int)
    requires exists k :: 0 <= k < |rawText| && !Text.IsSpace(rawText[k])
    ensures var r := Added(s, c, rawText, id);
      && r.Keys == s.Keys + {c}
      && r[c] == Lookup(s, c) + [Task(id, Text.Trim(rawText), false)]
      && Text.Trim(rawText) != []
      && forall d :: d in s && d != c ==> r[d] == s[d]
  {
    Text.TrimEmptyIff(rawText);
  }

  /** Deleting filters every task with that id out of that one category and touches nothing else. */
  lemma DeleteRemovesOnlyThatId(s: Store, c: Category, id: int)
    requires c in s
    ensures var r := Deleted(s, c, id);
      && r.Keys == s.Keys
      && (forall t :: t in r[c] <==> t in s[c] && t.id != id)
      && (forall d :: d in s && d != c ==> r[d] == s[d])
  {
  }

  /** Filtering keeps every other task as often as it occurred and drops all copies of the id. */
  lemma {:induction false} WithoutCounts(ts: seq<Task>, id: int, t: Task)
    ensures multiset(Without(ts, id))[t] == if t.id == id then 0 else multiset(ts)[t]
  {
    if ts != [] {
      var init, last := ts[..|ts| - 1], ts[|ts| - 1];
      var kept := if last.id == id then [] else [last];
      assert multiset(ts) == multiset(init) + multiset{last} by {
        assert ts == init + [last];
      }
      assert multiset(Without(ts, id)) == multiset(Without(init, id)) + multiset(kept);
      WithoutCounts(init, id, t);
    }
  }

  /** Filtering keeps the survivors in their relative order: it distributes over concatenation. */
  lemma {:induction false} WithoutKeepsOrder(a: seq<Task>, b: seq<Task>, id: int)
    ensures Without(a + b, id) == Without(a, id) + Without(b, id)
  {
    if b == [] {
      assert a + b == a;
    } else {
      var b0 := b[..|b| - 1];
      assert (a + b)[..|a + b| - 1] == a + b0;
      assert (a + b)[|a + b| - 1] == b[|b| - 1];
      WithoutKeepsOrder(a, b0, id);
    }
  }

  /** Deleting an id that no task in the category carries leaves the store unchanged. */
  lemma {:induction false} DeleteMissingIsNoop(s: Store, c: Category, id: int)
    requires c in s
    requires forall k :: 0 <= k < |s[c]| ==> s[c][k].id != id
    ensures Deleted(s, c, id) == s
  {
    WithoutMissing(s[c], id);
  }

  lemma {:induction false} WithoutMissing(ts: seq<Task>, id: int)
    requires forall k :: 0 <= k < |ts| ==> ts[k].id != id
    ensures Without(ts, id) == ts
  {
    if ts != [] {
      WithoutMissing(ts[..|ts| - 1], id);
      assert ts == ts[..|ts| - 1] + [ts[|ts| - 1]];
    }
  }

  /** The checkbox sets `done` of that one task to the checkbox state and changes nothing else. */
  lemma ToggleChangesOnlyDone(s: Store, c: Category, i: nat, checked: bool)
    requires c in s && i < |s[c]|
    ensures var r := Toggled(s, c, i, checked);
      && r.Keys == s.Keys
      && |r[c]| == |s[c]|
      && r[c][i] == Task(s[c][i].id, s[c][i].text, checked)
      && (forall k :: 0 <= k < |s[c]| && k != i ==> r[c][k] == s[c][k])
      && (forall d :: d in s && d != c ==> r[d] == s[d])
  {
  }

  /** A task id missing from the source list makes the move a no-op. */
  lemma MoveMissingIsNoop(s: Store, source: Category, target: Category, id: int, newIndex: nat)
    requires source in s
    requires forall k :: 0 <= k < |s[source]| ==> s[source][k].id != id
    ensures Moved(s, source, target, id, newIndex) == s
  {
  }

  /**
    A move conserves tasks: between two different lists the task leaves the source and
    joins the target, within one list the list is permuted, and every other category is untouched.
  */
  lemma MoveConservesTasks(s: Store, source: Category, target: Category, id: int, newIndex: nat)
    requires source in s
    requires exists k :: 0 <= k < |s[source]| && s[source][k].id == id
    ensures var r := Moved(s, source, target, id, newIndex);
      && r.Keys == s.Keys + {target}
      && (source != target ==>
            r[source] == RemoveAt(s[source], FindIndex(s[source], id).value)
            && multiset(r[target]) == multiset(Lookup(s, target)) + multiset{s[source][FindIndex(s[source], id).value]}
            && multiset(r[source]) + multiset(r[target]) == multiset(s[source]) + multiset(Lookup(s, target))
            && |r[source]| == |s[source]| - 1
            && |r[target]| == |Lookup(s, target)| + 1)
      && (source == target ==> multiset(r[source]) == multiset(s[source]))
      && (forall d :: d in s && d != source && d != target ==> r[d] == s[d])
  {
    var ts := s[source];
    var i := FindIndex(ts, id).value;
    var rest := RemoveAt(ts, i);
    var removed := s[source := rest];
    var into := Lookup(removed, target);
    var r := removed[target := InsertAt(into, newIndex, ts[i])];
    assert Moved(s, source, target, id, newIndex) == r;
    if source != target {
      assert into == Lookup(s, target);
      assert r[source] == rest;
    } else {
      assert into == rest;
      assert multiset(r[source]) == multiset(rest) + multiset{ts[i]};
    }
  }

  /**
    The task leaves the first position holding its id in the source list and, when
    `newIndex` lies within the target list as it stands after removal (always the case
    for the index of a list item among its list's items), lands exactly at `newIndex`.
  */
  lemma MoveLandsAtIndex(s: Store, source: Category, target: Category, id: int, newIndex: nat)
    requires source in s
    requires FindIndex(s[source], id).Some?
    requires newIndex <= |Lookup(s[source := RemoveAt(s[source], FindIndex(s[source], id).value)], target)|
    ensures var i := FindIndex(s[source], id).value;
      var r := Moved(s, source, target, id, newIndex);
      && newIndex < |r[target]|
      && r[target][newIndex] == s[source][i]
      && r[target][..newIndex] == Lookup(s[source := RemoveAt(s[source], i)], target)[..newIndex]
      && r[target][newIndex + 1..] == Lookup(s[source := RemoveAt(s[source], i)], target)[newIndex..]
  {
    var i := FindIndex(s[source], id).value;
    var into := Lookup(s[source := RemoveAt(s[source], i)], target);
    var placed := InsertAt(into, newIndex, s[source][i]);
    assert Moved(s, source, target, id, newIndex)[target] == placed;
  }

  /**
    Committing the same drop again is a no-op: when the task already sits at `newIndex`
    of its list, as `MoveLandsAtIndex` leaves it, and no other task there shares its id,
    moving it within that list to the same index changes nothing.
  */
  lemma MoveAgainIsNoop(r: Store, target: Category, id: int, newIndex: nat)
    requires target in r && newIndex < |r[target]| && r[target][newIndex].id == id
    requires forall k :: 0 <= k < |r[target]| && k != newIndex ==> r[target][k].id != id
    ensures Moved(r, target, target, id, newIndex) == r
  {
    var list := r[target];
    FindOnly(list, id, newIndex);
    ReinsertSame(list, newIndex);
    var removed := r[target := RemoveAt(list, newIndex)];
    assert Moved(r, target, target, id, newIndex) == removed[target := list];
    assert removed[target := list] == r;
  }

  lemma FindOnly(ts: seq<Task>, id: int, n: nat)
    requires n < |ts| && ts[n].id == id
    requires forall k :: 0 <= k < |ts| && k != n ==> ts[k].id != id
    ensures FindIndex(ts, id) == Some(n)
  {
  }

  lemma ReinsertSame(ts: seq<Task>, n: nat)
    requires n < |ts|
    ensures InsertAt(RemoveAt(ts, n), n, ts[n]) == ts
  {
    assert ts == ts[..n] + [ts[n]] + ts[n + 1..];
    assert RemoveAt(ts, n)[..n] == ts[..n];
    assert RemoveAt(ts, n)[n..] == ts[n + 1..];
  }
}
