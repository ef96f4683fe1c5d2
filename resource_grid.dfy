/**
 * The resource grid (PVE.grid.ResourceGrid): a store of resource records that
 * updateGrid keeps in step with the part of the resource tree below the
 * selected node, after the view filter and the search text have been applied.
 *
 * The grid store is modelled as ExtJS keeps it: the ids in store order and a
 * record per id. Store operations are logged in `ops`, which is how the model
 * tells a record patched in place from one removed and added again.
 */
module ResourceGrid {
  import opened Js
  import opened Sorting
  import ResourceStore

  /** A node of the resource tree: the id and data of its record, and its children. */
  datatype TreeNode = TreeNode(id: string, data: Obj, children: seq<TreeNode>)

  /** What updateGrid does to the grid store, in order. */
  datatype StoreOp =
    | Remove(ids: seq<string>)
    | SetField(id: string, field: string, value: Value)
    | Commit(id: string)
    | Add(ids: seq<string>)
    | Resort

  /** The record fields the search text is looked up in. */
  const TextFields: seq<string> := ["name", "storage", "node", "type", "text"]

  predicate FieldMatches(data: Obj, field: string, textfilter: string)
  {
    Get(data, field).Str? && Contains(Lower(Get(data, field).s), textfilter)
  }

  /** Some text field, lower-cased, contains the (already lower-cased) search text. */
  predicate TextMatches(data: Obj, textfilter: string)
  {
    exists i :: 0 <= i < |TextFields| && FieldMatches(data, TextFields[i], textfilter)
  }

  /** textfilter_match: looks through the text fields and stops at the first that contains the search text. */
  method TextFilterMatch(data: Obj, textfilter: string) returns (found: bool)
    ensures found <==> TextMatches(data, textfilter)
  {
    found := false;
    var i := 0;
    while i < |TextFields|
      invariant 0 <= i <= |TextFields|
      invariant !found
      invariant forall j :: 0 <= j < i ==> !FieldMatches(data, TextFields[j], textfilter)
    {
      var v := Get(data, TextFields[i]);
      if v.Str? {
        if Contains(Lower(v.s), textfilter) {
          found := true;
          return;
        }
      }
      i := i + 1;
    }
  }

  /** A tree node is shown when the view filter accepts it and, with a search text, the text matches. */
  predicate Passes(t: TreeNode, filterfn: Option<Obj -> bool>, textfilter: string)
  {
    (filterfn.None? || filterfn.value(t.data)) && (textfilter == "" || TextMatches(t.data, textfilter))
  }

  /** Records one visited node in nodeidx: a key already present keeps its place. */
  function Visit(t: TreeNode, rstore: map<string, Obj>, filterfn: Option<Obj -> bool>, textfilter: string, acc: seq<string>): seq<string>
  {
    if t.id in rstore && Passes(t, filterfn, textfilter) && t.id !in acc then acc + [t.id] else acc
  }

  /**
   * The keys of nodeidx, in insertion order, after gather_child_nodes has
   * walked the forest cs depth first, starting from the keys acc.
   */
  function GatherForest(cs: seq<TreeNode>, rstore: map<string, Obj>, filterfn: Option<Obj -> bool>, textfilter: string, acc: seq<string>): (r: seq<string>)
    ensures Distinct(acc) ==> Distinct(r)
    ensures (forall k :: k in acc ==> k in rstore) ==> forall k :: k in r ==> k in rstore
    ensures forall k :: k in acc ==> k in r
    decreases cs
  {
    if cs == [] then acc
    else
      var last := cs[|cs| - 1];
      var before := GatherForest(cs[..|cs| - 1], rstore, filterfn, textfilter, acc);
      GatherForest(last.children, rstore, filterfn, textfilter, Visit(last, rstore, filterfn, textfilter, before))
  }

  lemma GatherStep(cs: seq<TreeNode>, i: nat, rstore: map<string, Obj>, filterfn: Option<Obj -> bool>, textfilter: string, acc: seq<string>)
    requires i < |cs|
    ensures GatherForest(cs[..i + 1], rstore, filterfn, textfilter, acc)
      == GatherForest(cs[i].children, rstore, filterfn, textfilter,
           Visit(cs[i], rstore, filterfn, textfilter, GatherForest(cs[..i], rstore, filterfn, textfilter, acc)))
  {
    assert cs[..i + 1][..i] == cs[..i];
    assert cs[..i + 1][i] == cs[i];
  }

  /** nodeidx for the selected node: the gathered descendants, or nothing without a selection. */
  function Gathered(sel: Option<TreeNode>, rstore: map<string, Obj>, filterfn: Option<Obj -> bool>, textfilter: string): (r: seq<string>)
    ensures Distinct(r)
    ensures forall k :: k in r ==> k in rstore
  {
    if sel.None? then [] else GatherForest(sel.value.children, rstore, filterfn, textfilter, [])
  }

  /** All nodes of a forest, at any depth. */
  ghost function Nodes(cs: seq<TreeNode>): set<TreeNode>
    decreases cs
  {
    if cs == [] then {}
    else Nodes(cs[..|cs| - 1]) + {cs[|cs| - 1]} + Nodes(cs[|cs| - 1].children)
  }

  /** The ids of the nodes of a forest that are in the resource store and pass the filters. */
  ghost function SelectedIds(cs: seq<TreeNode>, rstore: map<string, Obj>, filterfn: Option<Obj -> bool>, textfilter: string): set<string>
  {
    set n | n in Nodes(cs) && n.id in rstore && Passes(n, filterfn, textfilter) :: n.id
  }

  function Elems(s: seq<string>): set<string>
  {
    set k | k in s
  }

  /** The ids one node contributes to SelectedIds. */
  ghost function Here(t: TreeNode, rstore: map<string, Obj>, filterfn: Option<Obj -> bool>, textfilter: string): set<string>
  {
    if t.id in rstore && Passes(t, filterfn, textfilter) then {t.id} else {}
  }

  lemma SelectedIdsSplit(cs: seq<TreeNode>, rstore: map<string, Obj>, filterfn: Option<Obj -> bool>, textfilter: string)
    requires cs != []
    ensures SelectedIds(cs, rstore, filterfn, textfilter)
      == SelectedIds(cs[..|cs| - 1], rstore, filterfn, textfilter)
         + Here(cs[|cs| - 1], rstore, filterfn, textfilter)
         + SelectedIds(cs[|cs| - 1].children, rstore, filterfn, textfilter)
  {
    var last := cs[|cs| - 1];
    assert Nodes(cs) == Nodes(cs[..|cs| - 1]) + {last} + Nodes(last.children);
  }

  lemma VisitElems(t: TreeNode, rstore: map<string, Obj>, filterfn: Option<Obj -> bool>, textfilter: string, acc: seq<string>)
    ensures Elems(Visit(t, rstore, filterfn, textfilter, acc)) == Elems(acc) + Here(t, rstore, filterfn, textfilter)
  {
  }

  /**
   * nodeidx holds exactly the ids of the descendants, at any depth, that are
   * in the resource store and pass both filters.
   */
  lemma {:induction false} GatherForestIds(cs: seq<TreeNode>, rstore: map<string, Obj>, filterfn: Option<Obj -> bool>, textfilter: string, acc: seq<string>)
    ensures Elems(GatherForest(cs, rstore, filterfn, textfilter, acc)) == Elems(acc) + SelectedIds(cs, rstore, filterfn, textfilter)
    decreases cs
  {
    if cs != [] {
      var init := cs[..|cs| - 1];
      var last := cs[|cs| - 1];
      var before := GatherForest(init, rstore, filterfn, textfilter, acc);
      var visited := Visit(last, rstore, filterfn, textfilter, before);
      GatherForestIds(init, rstore, filterfn, textfilter, acc);
      VisitElems(last, rstore, filterfn, textfilter, before);
      GatherForestIds(last.children, rstore, filterfn, textfilter, visited);
      SelectedIdsSplit(cs, rstore, filterfn, textfilter);
    }
  }

  lemma SelectedIdsOfSelection(sel: TreeNode, rstore: map<string, Obj>, filterfn: Option<Obj -> bool>, textfilter: string)
    ensures Elems(Gathered(Some(sel), rstore, filterfn, textfilter)) == SelectedIds(sel.children, rstore, filterfn, textfilter)
  {
    GatherForestIds(sel.children, rstore, filterfn, textfilter, []);
  }

  // ---------------------------------------------------------------------
  // The store update as a function of the old store and nodeidx

  function FilterIn(s: seq<string>, keep: set<string>): (r: seq<string>)
    ensures forall x :: x in r <==> x in s && x in keep
    ensures Distinct(s) ==> Distinct(r)
  {
    if s == [] then []
    else FilterIn(s[..|s| - 1], keep) + (if s[|s| - 1] in keep then [s[|s| - 1]] else [])
  }

  function FilterOut(s: seq<string>, keep: set<string>): (r: seq<string>)
    ensures forall x :: x in r <==> x in s && x !in keep
    ensures Distinct(s) ==> Distinct(r)
  {
    if s == [] then []
    else FilterOut(s[..|s| - 1], keep) + (if s[|s| - 1] !in keep then [s[|s| - 1]] else [])
  }

  lemma {:induction false} FilterInAll(s: seq<string>, keep: set<string>)
    requires forall x :: x in s ==> x in keep
    ensures FilterIn(s, keep) == s
  {
    if s != [] {
      var p, last := s[..|s| - 1], s[|s| - 1];
      assert s == p + [last];
      assert last in s;
      forall x | x in p
        ensures x in keep
      {
        assert x in s;
      }
      FilterInAll(p, keep);
    }
  }

  /** A field the grid copies from the resource record, because its value differs under `!=`. */
  predicate Changed(d: Obj, item: Obj, field: string)
  {
    field != "id" && !LooseEq(Get(item, field), Get(d, field))
  }

  /** A record's data after the changed fields have been copied from item, field by field. */
  function PatchData(d: Obj, item: Obj, fields: seq<string>): Obj
  {
    if fields == [] then d
    else
      var p := PatchData(d, item, fields[..|fields| - 1]);
      var f := fields[|fields| - 1];
      if Changed(p, item, f) then p[f := Get(item, f)] else p
  }

  /** The set operations the field-by-field comparison performs. */
  function FieldOps(id: string, d: Obj, item: Obj, fields: seq<string>): seq<StoreOp>
  {
    if fields == [] then []
    else
      var p := PatchData(d, item, fields[..|fields| - 1]);
      var f := fields[|fields| - 1];
      FieldOps(id, d, item, fields[..|fields| - 1]) + (if Changed(p, item, f) then [SetField(id, f, Get(item, f))] else [])
  }

  /** The operations for one surviving record: its field sets, then a commit when there were any. */
  function KeyOps(id: string, d: Obj, item: Obj, fields: seq<string>): seq<StoreOp>
  {
    var fo := FieldOps(id, d, item, fields);
    fo + (if fo != [] then [Commit(id)] else [])
  }

  /** The operations of the add/patch pass over the keys of nodeidx, in key order. */
  function MergeOps(keys: seq<string>, kept: map<string, Obj>, rstore: map<string, Obj>, fields: seq<string>): seq<StoreOp>
    requires forall k :: k in keys ==> k in rstore
  {
    if keys == [] then []
    else
      var k := keys[|keys| - 1];
      MergeOps(keys[..|keys| - 1], kept, rstore, fields)
        + (if k in kept then KeyOps(k, kept[k], rstore[k], fields) else [])
  }

  /** The sort key of the grid store: a record's type, as a string. */
  function TypeKey(rows: map<string, Obj>): map<string, Key>
  {
    map k | k in rows :: Text(if Get(rows[k], "type").Str? then Get(rows[k], "type").s else "")
  }

  /** The row keys ordered by their records' type. */
  function TypeOrder(order: seq<string>, rows: map<string, Obj>): seq<string>
  {
    Sort(order, TypeKey(rows))
  }

  /** The records left after the removal pass. */
  function Survivors(rows: map<string, Obj>, idx: seq<string>): map<string, Obj>
  {
    map k | k in rows && k in idx :: rows[k]
  }

  /** The store records of the ids in keys. */
  function Added(keys: seq<string>, rstore: map<string, Obj>): (r: map<string, Obj>)
    requires forall k :: k in keys ==> k in rstore
    ensures r.Keys == Elems(keys)
  {
    map k | k in keys :: rstore[k]
  }

  /** The records of the store after the removal, patch and add passes. */
  function NewRows(rows: map<string, Obj>, idx: seq<string>, rstore: map<string, Obj>, fields: seq<string>): map<string, Obj>
    requires forall k :: k in idx ==> k in rstore
  {
    var kept := Survivors(rows, idx);
    Merged(kept, idx, rstore, fields) + Added(FilterOut(idx, kept.Keys), rstore)
  }

  lemma NewRowsOf(rows: map<string, Obj>, idx: seq<string>, rstore: map<string, Obj>, fields: seq<string>,
                  merged: map<string, Obj>, add: seq<string>)
    requires forall k :: k in idx ==> k in rstore
    requires merged == Merged(Survivors(rows, idx), idx, rstore, fields)
    requires add == FilterOut(idx, Survivors(rows, idx).Keys)
    ensures merged + Added(add, rstore) == NewRows(rows, idx, rstore, fields)
  {
  }

  /** The order of the grid store after one updateGrid pass: the survivors, then the additions, sorted by type. */
  function UpdateOrder(order: seq<string>, rows: map<string, Obj>, idx: seq<string>, rstore: map<string, Obj>, fields: seq<string>): seq<string>
    requires forall k :: k in idx ==> k in rstore
  {
    TypeOrder(FilterIn(order, Elems(idx)) + FilterOut(idx, Survivors(rows, idx).Keys), NewRows(rows, idx, rstore, fields))
  }

  /** The store operations of one updateGrid pass, in the order they are issued. */
  function UpdateOps(order: seq<string>, rows: map<string, Obj>, idx: seq<string>, rstore: map<string, Obj>, fields: seq<string>): seq<StoreOp>
    requires forall k :: k in idx ==> k in rstore
  {
    var rm := FilterOut(order, Elems(idx));
    var kept := Survivors(rows, idx);
    var add := FilterOut(idx, kept.Keys);
    (if rm == [] then [] else [Remove(rm)])
    + MergeOps(idx, kept, rstore, fields)
    + (if add == [] then [] else [Add(add)])
    + [Resort]
  }

  /** The surviving records once the keys in done have been patched. */
  function Merged(kept: map<string, Obj>, done: seq<string>, rstore: map<string, Obj>, fields: seq<string>): map<string, Obj>
    requires forall k :: k in done ==> k in rstore
  {
    map k | k in kept :: if k in done then PatchData(kept[k], rstore[k], fields) else kept[k]
  }

  /** One key of the merge pass: a record the store has is patched, and only that one. */
  lemma MergeStep(kept: map<string, Obj>, keys: seq<string>, j: nat, rstore: map<string, Obj>, fields: seq<string>, merged: map<string, Obj>)
    requires j < |keys| && Distinct(keys) && forall k :: k in keys ==> k in rstore
    requires merged == Merged(kept, keys[..j], rstore, fields)
    ensures merged.Keys == kept.Keys
    ensures keys[j] in kept ==> merged[keys[j]] == kept[keys[j]]
    ensures keys[j] in kept ==>
      merged[keys[j] := PatchData(kept[keys[j]], rstore[keys[j]], fields)] == Merged(kept, keys[..j + 1], rstore, fields)
    ensures keys[j] !in kept ==> merged == Merged(kept, keys[..j + 1], rstore, fields)
  {
    assert keys[..j + 1][..j] == keys[..j];
    assert keys[j] !in keys[..j];
  }

  /** Before the merge pass nothing is patched, issued or collected. */
  lemma MergeStart(kept: map<string, Obj>, keys: seq<string>, rstore: map<string, Obj>, fields: seq<string>)
    ensures Merged(kept, keys[..0], rstore, fields) == kept
    ensures MergeOps(keys[..0], kept, rstore, fields) == [] && FilterOut(keys[..0], kept.Keys) == []
  {
    assert keys[..0] == [];
  }

  /** One key of the merge pass: its operations, or the key itself for the add list. */
  lemma ListStep(kept: map<string, Obj>, keys: seq<string>, j: nat, rstore: map<string, Obj>, fields: seq<string>)
    requires j < |keys| && forall k :: k in keys ==> k in rstore
    ensures FilterOut(keys[..j + 1], kept.Keys) == FilterOut(keys[..j], kept.Keys) + (if keys[j] in kept then [] else [keys[j]])
    ensures MergeOps(keys[..j + 1], kept, rstore, fields)
      == MergeOps(keys[..j], kept, rstore, fields) + (if keys[j] in kept then KeyOps(keys[j], kept[keys[j]], rstore[keys[j]], fields) else [])
  {
    assert keys[..j + 1][..j] == keys[..j];
  }

  /** One more store id extends exactly one of the two filtered lists. */
  lemma SplitStep(order: seq<string>, i: nat, keep: set<string>)
    requires i <= |order|
    ensures order[..0] == [] && FilterOut([], keep) == [] && FilterIn([], keep) == []
    ensures i < |order| ==> FilterOut(order[..i + 1], keep) == FilterOut(order[..i], keep) + (if order[i] !in keep then [order[i]] else [])
    ensures i < |order| ==> FilterIn(order[..i + 1], keep) == FilterIn(order[..i], keep) + (if order[i] in keep then [order[i]] else [])
  {
    if i < |order| {
      assert order[..i + 1][..i] == order[..i];
    }
  }

  /** When no id has vanished the removal pass keeps the store as it is. */
  lemma NothingVanished(order: seq<string>, rows: map<string, Obj>, nodeidx: seq<string>)
    requires Elems(order) == rows.Keys
    requires FilterOut(order, Elems(nodeidx)) == []
    ensures FilterIn(order, Elems(nodeidx)) == order
    ensures rows == Survivors(rows, nodeidx)
  {
    FilterInAll(order, Elems(nodeidx));
    forall k | k in rows
      ensures k in nodeidx
    {
      assert k in Elems(order);
      assert k !in FilterOut(order, Elems(nodeidx));
    }
  }

  /** The ids kept and the ids added are distinct, and together they are the keys of the new records. */
  lemma KeptAndAdded(order: seq<string>, rows: map<string, Obj>, idx: seq<string>, rstore: map<string, Obj>, fields: seq<string>)
    requires Distinct(order) && Elems(order) == rows.Keys
    requires Distinct(idx) && forall k :: k in idx ==> k in rstore
    ensures var both := FilterIn(order, Elems(idx)) + FilterOut(idx, Survivors(rows, idx).Keys);
            Distinct(both) && Elems(both) == NewRows(rows, idx, rstore, fields).Keys
  {
    var kept := FilterIn(order, Elems(idx));
    var add := FilterOut(idx, Survivors(rows, idx).Keys);
    forall x | x in add
      ensures x !in kept
    {
      assert x in kept ==> x in Elems(order);
    }
    DistinctConcat(kept, add);
    assert Merged(Survivors(rows, idx), idx, rstore, fields).Keys == Survivors(rows, idx).Keys;
  }

  lemma SortKeepsKeys(s: seq<string>, key: map<string, Key>)
    requires Distinct(s)
    ensures Distinct(Sort(s, key)) && Elems(Sort(s, key)) == Elems(s)
  {
    DistinctPermutation(Sort(s, key), s);
    PermutationMembers(Sort(s, key), s);
  }

  /** After removal and addition, the store's ids are distinct and are exactly the keys of its records. */
  lemma UpdateKeyed(order: seq<string>, rows: map<string, Obj>, idx: seq<string>, rstore: map<string, Obj>, fields: seq<string>)
    requires Distinct(order) && Elems(order) == rows.Keys
    requires Distinct(idx) && forall k :: k in idx ==> k in rstore
    ensures Distinct(UpdateOrder(order, rows, idx, rstore, fields))
    ensures Elems(UpdateOrder(order, rows, idx, rstore, fields)) == NewRows(rows, idx, rstore, fields).Keys
  {
    KeptAndAdded(order, rows, idx, rstore, fields);
    var both := FilterIn(order, Elems(idx)) + FilterOut(idx, Survivors(rows, idx).Keys);
    SortKeepsKeys(both, TypeKey(NewRows(rows, idx, rstore, fields)));
  }

  // ---------------------------------------------------------------------
  // The grid

  /** The event the grid store fires after a pass. */
  const DataChanged: string := "datachanged"

  class ResourceGrid {
    /** The ids of the grid store's records, in store order. */
    var order: seq<string>
    /** The grid store's records by id. */
    var rows: map<string, Obj>
    /** The operations performed on the grid store so far. */
    var ops: seq<StoreOp>
    /** The events the grid store has fired. */
    var events: seq<string>
    /** The lower-cased search text. */
    var textfilter: string
    /** The filter function of the selected view, if it has one. */
    var viewFilter: Option<Obj -> bool>
    /** The selected node of the resource tree. */
    var selNode: Option<TreeNode>
    /** The resource store's field names, the fields compared when patching. */
    const fieldNames: seq<string>

    ghost predicate Valid()
      reads this
    {
      Distinct(order) && Elems(order) == rows.Keys
    }

    constructor(sel: Option<TreeNode>, filter: Option<Obj -> bool>)
      ensures Valid()
      ensures order == [] && rows == map[] && ops == [] && events == []
      ensures textfilter == "" && viewFilter == filter && selNode == sel
      ensures fieldNames == ResourceStore.FieldNames()
    {
      fieldNames := ResourceStore.FieldNames();
      order := [];
      rows := map[];
      ops := [];
      events := [];
      textfilter := "";
      viewFilter := filter;
      selNode := sel;
    }

    /** The search field's keyup handler stores the lower-cased text. */
    method OnSearchKeyup(v: string)
      modifies this
      ensures textfilter == Lower(v)
      ensures order == old(order) && rows == old(rows) && ops == old(ops) && events == old(events)
      ensures viewFilter == old(viewFilter) && selNode == old(selNode)
    {
      textfilter := Lower(v);
    }

    /** One child of the walk: recorded when it is in the resource store and passes the filters. */
    static method VisitChild(child: TreeNode, rstore: map<string, Obj>, filterfn: Option<Obj -> bool>, textfilter: string, nodeidx: seq<string>)
      returns (r: seq<string>)
      ensures r == Visit(child, rstore, filterfn, textfilter, nodeidx)
    {
      r := nodeidx;
      if child.id in rstore {
        var pass := filterfn.None? || filterfn.value(child.data);
        if pass && textfilter != "" {
          pass := TextFilterMatch(child.data, textfilter);
        }
        if pass && child.id !in r {
          r := r + [child.id];
        }
      }
    }

    /**
     * gather_child_nodes: walks the children of cn depth first and records in
     * nodeidx every child that is in the resource store and passes the filters.
     */
    static method GatherChildNodes(cn: TreeNode, rstore: map<string, Obj>, filterfn: Option<Obj -> bool>, textfilter: string, acc: seq<string>)
      returns (nodeidx: seq<string>)
      ensures nodeidx == GatherForest(cn.children, rstore, filterfn, textfilter, acc)
      decreases cn
    {
      var cs := cn.children;
      nodeidx := acc;
      var i := 0;
      while i < |cs|
        invariant 0 <= i <= |cs|
        invariant nodeidx == GatherForest(cs[..i], rstore, filterfn, textfilter, acc)
      {
        var child := cs[i];
        nodeidx := VisitChild(child, rstore, filterfn, textfilter, nodeidx);
        nodeidx := GatherChildNodes(child, rstore, filterfn, textfilter, nodeidx);
        GatherStep(cs, i, rstore, filterfn, textfilter, acc);
        i := i + 1;
      }
      assert cs[..i] == cs;
    }

    /** The store walk of the removal pass: the ids to remove and those that stay, both in store order. */
    static method SplitVanished(order: seq<string>, nodeidx: seq<string>) returns (rmlist: seq<string>, kept: seq<string>)
      ensures rmlist == FilterOut(order, Elems(nodeidx))
      ensures kept == FilterIn(order, Elems(nodeidx))
    {
      var present := Elems(nodeidx);
      SplitStep(order, 0, present);
      hide FilterOut, FilterIn, Elems;
      rmlist := [];
      kept := [];
      var i := 0;
      while i < |order|
        invariant 0 <= i <= |order|
        invariant rmlist == FilterOut(order[..i], present)
        invariant kept == FilterIn(order[..i], present)
      {
        SplitStep(order, i, present);
        if order[i] !in present {
          rmlist := rmlist + [order[i]];
        } else {
          kept := kept + [order[i]];
        }
        i := i + 1;
      }
      assert order[..i] == order;
    }

    /**
     * Compares one surviving record with its resource record field by field,
     * copying every changed field; returns the patched data and the set
     * operations, followed by a commit when anything changed.
     */
    static method PatchRecord(key: string, olddata: Obj, item: Obj, fieldkeys: seq<string>)
      returns (data: Obj, fops: seq<StoreOp>)
      ensures data == PatchData(olddata, item, fieldkeys)
      ensures fops == KeyOps(key, olddata, item, fieldkeys)
    {
      data := olddata;
      fops := [];
      var changes := false;
      var fieldind := 0;
      while fieldind < |fieldkeys|
        invariant 0 <= fieldind <= |fieldkeys|
        invariant data == PatchData(olddata, item, fieldkeys[..fieldind])
        invariant fops == FieldOps(key, olddata, item, fieldkeys[..fieldind])
        invariant changes <==> fops != []
      {
        var field := fieldkeys[fieldind];
        assert fieldkeys[..fieldind + 1][..fieldind] == fieldkeys[..fieldind];
        if field != "id" && !LooseEq(Get(item, field), Get(data, field)) {
          changes := true;
          data := data[field := Get(item, field)];
          fops := fops + [SetField(key, field, Get(item, field))];
        }
        fieldind := fieldind + 1;
      }
      assert fieldkeys[..fieldind] == fieldkeys;
      if changes {
        fops := fops + [Commit(key)];
      }
    }

    /**
     * The pass over the keys of nodeidx: patches the records the store has and
     * collects the others, in key order, for one batch add.
     */
    static method MergeItems(rows: map<string, Obj>, nodeidx: seq<string>, rstore: map<string, Obj>, fieldkeys: seq<string>)
      returns (merged: map<string, Obj>, mops: seq<StoreOp>, addlist: seq<string>)
      requires Distinct(nodeidx) && forall k :: k in nodeidx ==> k in rstore
      ensures merged == Merged(rows, nodeidx, rstore, fieldkeys)
      ensures mops == MergeOps(nodeidx, rows, rstore, fieldkeys)
      ensures addlist == FilterOut(nodeidx, rows.Keys)
    {
      MergeStart(rows, nodeidx, rstore, fieldkeys);
      hide Merged, MergeOps, FilterOut;
      merged := rows;
      mops := [];
      addlist := [];
      var j := 0;
      while j < |nodeidx|
        invariant 0 <= j <= |nodeidx|
        invariant merged == Merged(rows, nodeidx[..j], rstore, fieldkeys)
        invariant addlist == FilterOut(nodeidx[..j], rows.Keys)
        invariant mops == MergeOps(nodeidx[..j], rows, rstore, fieldkeys)
      {
        var key := nodeidx[j];
        var item := rstore[key];
        MergeStep(rows, nodeidx, j, rstore, fieldkeys, merged);
        ListStep(rows, nodeidx, j, rstore, fieldkeys);
        if key !in merged {
          addlist := addlist + [key];
        } else {
          var data, fops := PatchRecord(key, merged[key], item, fieldkeys);
          merged := merged[key := data];
          mops := mops + fops;
        }
        j := j + 1;
      }
      assert nodeidx[..j] == nodeidx;
    }

    /**
     * store.sort() with the store's one sorter, type ascending: the same ids,
     * ordered by their records' type. The result is the insertion sort
     * TypeOrder, which the rest of the pass is specified by.
     */
    static method SortByType(order: seq<string>, rows: map<string, Obj>) returns (sorted: seq<string>)
      ensures SortedBy(sorted, TypeKey(rows))
      ensures multiset(sorted) == multiset(order)
      ensures sorted == TypeOrder(order, rows)
    {
      sorted := TypeOrder(order, rows);
      SortSorted(order, TypeKey(rows));
    }

    static method Refresh(order0: seq<string>, rows0: map<string, Obj>, nodeidx: seq<string>, rstore: map<string, Obj>, fieldkeys: seq<string>)
      returns (order: seq<string>, rows: map<string, Obj>, ops: seq<StoreOp>)
      requires Distinct(order0) && Elems(order0) == rows0.Keys
      requires Distinct(nodeidx) && forall k :: k in nodeidx ==> k in rstore
      ensures order == UpdateOrder(order0, rows0, nodeidx, rstore, fieldkeys)
      ensures rows == NewRows(rows0, nodeidx, rstore, fieldkeys)
      ensures ops == UpdateOps(order0, rows0, nodeidx, rstore, fieldkeys)
    {
      var kept0 := Survivors(rows0, nodeidx);
      var rmlist, kept := SplitVanished(order0, nodeidx);
      if |rmlist| == 0 {
        NothingVanished(order0, rows0, nodeidx);
      }
      var merged, mops, addlist := MergeItems(kept0, nodeidx, rstore, fieldkeys);
      rows := merged + Added(addlist, rstore);
      NewRowsOf(rows0, nodeidx, rstore, fieldkeys, merged, addlist);
      order := SortByType(kept + addlist, rows);
      ops := (if |rmlist| > 0 then [Remove(rmlist)] else []) + mops + (if |addlist| > 0 then [Add(addlist)] else []) + [Resort];
    }

    /** The values of one updateGrid pass, computed from the old store. */
    static method Pass(order0: seq<string>, rows0: map<string, Obj>, sel: Option<TreeNode>, filterfn: Option<Obj -> bool>,
                       textfilter: string, rstore: map<string, Obj>, fieldkeys: seq<string>)
      returns (order: seq<string>, rows: map<string, Obj>, ops: seq<StoreOp>)
      requires Distinct(order0) && Elems(order0) == rows0.Keys
      ensures var idx := Gathered(sel, rstore, filterfn, textfilter);
              && order == UpdateOrder(order0, rows0, idx, rstore, fieldkeys)
              && rows == NewRows(rows0, idx, rstore, fieldkeys)
              && ops == UpdateOps(order0, rows0, idx, rstore, fieldkeys)
      ensures Distinct(order) && Elems(order) == rows.Keys
    {
      var nodeidx: seq<string> := [];
      if sel.Some? {
        nodeidx := GatherChildNodes(sel.value, rstore, filterfn, textfilter, []);
      }
      UpdateKeyed(order0, rows0, nodeidx, rstore, fieldkeys);
      order, rows, ops := Refresh(order0, rows0, nodeidx, rstore, fieldkeys);
    }

    /** One updateGrid pass: re-gathers the ids under the selected node and synchronises the grid store with them. */
    method UpdateGrid(rstore: map<string, Obj>)
      requires Valid()
      modifies this
      ensures Valid()
      ensures var idx := Gathered(old(selNode), rstore, old(viewFilter), old(textfilter));
              && order == UpdateOrder(old(order), old(rows), idx, rstore, fieldNames)
              && rows == NewRows(old(rows), idx, rstore, fieldNames)
              && ops == old(ops) + UpdateOps(old(order), old(rows), idx, rstore, fieldNames)
      ensures events == old(events) + [DataChanged]
      ensures textfilter == old(textfilter) && viewFilter == old(viewFilter) && selNode == old(selNode)
    {
      hide UpdateOrder, NewRows, UpdateOps;
      var order1, rows1, ops1 := Pass(order, rows, selNode, viewFilter, textfilter, rstore, fieldNames);
      order, rows, ops, events := order1, rows1, ops + ops1, events + [DataChanged];
    }
  }
}
