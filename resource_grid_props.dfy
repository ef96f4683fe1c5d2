/**
 * What one updateGrid pass promises about the grid store, stated over the
 * functions UpdateOrder, NewRows and UpdateOps that ResourceGrid.UpdateGrid
 * is proved to follow.
 */
module ResourceGridProps {
  import opened Js
  import opened Sorting
  import opened ResourceGrid

  // ---------------------------------------------------------------------
  // The search text

  /** The empty search text matches a record iff one of its text fields is set to a string. */
  lemma TextMatchesEmpty(data: Obj)
    ensures TextMatches(data, "") <==> exists i :: 0 <= i < |TextFields| && Get(data, TextFields[i]).Str?
  {
    forall i | 0 <= i < |TextFields| && Get(data, TextFields[i]).Str?
      ensures FieldMatches(data, TextFields[i], "")
    {
      ContainsEmpty(Lower(Get(data, TextFields[i]).s));
    }
  }

  // ---------------------------------------------------------------------
  // Patching one record

  /** Fields outside the compared list, and 'id', are never written. */
  lemma {:induction false} PatchDataFrame(d: Obj, item: Obj, fields: seq<string>, f: string)
    requires f !in fields || f == "id"
    ensures Get(PatchData(d, item, fields), f) == Get(d, f)
  {
    if fields != [] {
      PatchDataFrame(d, item, fields[..|fields| - 1], f);
    }
  }

  /** After the patch every compared field equals (under `==`) the resource record's. */
  lemma {:induction false} PatchDataSynced(d: Obj, item: Obj, fields: seq<string>)
    ensures forall f :: f in fields ==> !Changed(PatchData(d, item, fields), item, f)
  {
    if fields != [] {
      var init, g := fields[..|fields| - 1], fields[|fields| - 1];
      PatchDataSynced(d, item, init);
      var p := PatchData(d, item, init);
      LooseEqReflexive(Get(item, g));
      forall f | f in fields
        ensures !Changed(PatchData(d, item, fields), item, f)
      {
        if f != g {
          assert f in init;
        }
      }
    }
  }

  /** A record whose compared fields all agree is left as it is, with no set and no commit. */
  lemma {:induction false} UnchangedRecord(id: string, d: Obj, item: Obj, fields: seq<string>)
    requires forall f :: f in fields ==> !Changed(d, item, f)
    ensures PatchData(d, item, fields) == d
    ensures FieldOps(id, d, item, fields) == []
    ensures KeyOps(id, d, item, fields) == []
  {
    if fields != [] {
      UnchangedRecord(id, d, item, fields[..|fields| - 1]);
    }
  }

  /**
   * The field sets of one record are exactly its changed fields: a set of
   * f to v is issued iff f is compared, is not 'id', differs under `!=`
   * and v is the resource record's value.
   */
  lemma {:induction false} FieldOpsExact(id: string, d: Obj, item: Obj, fields: seq<string>)
    requires Distinct(fields)
    ensures forall op :: op in FieldOps(id, d, item, fields) ==> op.SetField? && op.id == id
    ensures forall f, v :: SetField(id, f, v) in FieldOps(id, d, item, fields)
              <==> f in fields && Changed(d, item, f) && v == Get(item, f)
  {
    if fields != [] {
      var init, g := fields[..|fields| - 1], fields[|fields| - 1];
      assert Distinct(init);
      FieldOpsExact(id, d, item, init);
      assert g !in init;
      PatchDataFrame(d, item, init, g);
      assert fields == init + [g];
    }
  }

  // ---------------------------------------------------------------------
  // The grid store after one pass

  /** The new records: a survivor is its old record patched, a new id its resource record. */
  lemma NewRowsRecords(rows: map<string, Obj>, idx: seq<string>, rstore: map<string, Obj>, fields: seq<string>)
    requires forall k :: k in idx ==> k in rstore
    ensures NewRows(rows, idx, rstore, fields).Keys == Elems(idx)
    ensures forall k :: k in rows && k in idx ==> NewRows(rows, idx, rstore, fields)[k] == PatchData(rows[k], rstore[k], fields)
    ensures forall k :: k !in rows && k in idx ==> NewRows(rows, idx, rstore, fields)[k] == rstore[k]
  {
  }

  /**
   * After a pass on the selected node, the grid holds exactly the ids of the
   * node's descendants that are in the resource store and pass the view
   * filter and the search text, each once.
   */
  lemma UpdateShowsSelection(order: seq<string>, rows: map<string, Obj>, sel: TreeNode, rstore: map<string, Obj>,
                             filterfn: Option<Obj -> bool>, textfilter: string, fields: seq<string>)
    requires Distinct(order) && Elems(order) == rows.Keys
    ensures var idx := Gathered(Some(sel), rstore, filterfn, textfilter);
            && Distinct(UpdateOrder(order, rows, idx, rstore, fields))
            && Elems(UpdateOrder(order, rows, idx, rstore, fields)) == SelectedIds(sel.children, rstore, filterfn, textfilter)
            && NewRows(rows, idx, rstore, fields).Keys == SelectedIds(sel.children, rstore, filterfn, textfilter)
  {
    var idx := Gathered(Some(sel), rstore, filterfn, textfilter);
    UpdateKeyed(order, rows, idx, rstore, fields);
    NewRowsRecords(rows, idx, rstore, fields);
    SelectedIdsOfSelection(sel, rstore, filterfn, textfilter);
  }

  /** The grid store comes out sorted by type, ascending. */
  lemma UpdateSortedByType(order: seq<string>, rows: map<string, Obj>, idx: seq<string>, rstore: map<string, Obj>, fields: seq<string>)
    requires forall k :: k in idx ==> k in rstore
    ensures SortedBy(UpdateOrder(order, rows, idx, rstore, fields), TypeKey(NewRows(rows, idx, rstore, fields)))
  {
    var both := FilterIn(order, Elems(idx)) + FilterOut(idx, Survivors(rows, idx).Keys);
    SortSorted(both, TypeKey(NewRows(rows, idx, rstore, fields)));
  }

  // ---------------------------------------------------------------------
  // The operations of one pass

  /** The phase an operation belongs to: removal, patching, addition, sorting. */
  function Phase(op: StoreOp): nat
  {
    match op
    case Remove(_) => 0
    case SetField(_, _, _) => 1
    case Commit(_) => 1
    case Add(_) => 2
    case Resort => 3
  }

  lemma {:induction false} FieldOpsAreSets(id: string, d: Obj, item: Obj, fields: seq<string>)
    ensures forall op :: op in FieldOps(id, d, item, fields) ==> op.SetField? && op.id == id
  {
    if fields != [] {
      FieldOpsAreSets(id, d, item, fields[..|fields| - 1]);
    }
  }

  lemma {:induction false} MergeOpsArePatches(keys: seq<string>, kept: map<string, Obj>, rstore: map<string, Obj>, fields: seq<string>)
    requires forall k :: k in keys ==> k in rstore
    ensures forall op :: op in MergeOps(keys, kept, rstore, fields) ==> Phase(op) == 1
  {
    if keys != [] {
      var k := keys[|keys| - 1];
      MergeOpsArePatches(keys[..|keys| - 1], kept, rstore, fields);
      if k in kept {
        FieldOpsAreSets(k, kept[k], rstore[k], fields);
      }
    }
  }

  /** The rank of position k in a sequence made of the parts a, m, c and a final resort. */
  function Band(k: int, a: nat, m: nat, c: nat): nat
  {
    if k < a then 0 else if k < a + m then 1 else if k < a + m + c then 2 else 3
  }

  lemma PhasedParts(a: seq<StoreOp>, m: seq<StoreOp>, c: seq<StoreOp>)
    requires |a| <= 1 && forall op :: op in a ==> Phase(op) == 0
    requires forall op :: op in m ==> Phase(op) == 1
    requires |c| <= 1 && forall op :: op in c ==> Phase(op) == 2
    ensures var ops := a + m + c + [Resort];
            forall i, j :: 0 <= i < j < |ops| ==> Phase(ops[i]) < Phase(ops[j]) || Phase(ops[i]) == Phase(ops[j]) == 1
  {
    var ops := a + m + c + [Resort];
    forall k | 0 <= k < |ops|
      ensures Phase(ops[k]) == Band(k, |a|, |m|, |c|)
    {
      if k < |a| {
        assert ops[k] in a;
      } else if k < |a| + |m| {
        assert ops[k] == m[k - |a|];
      } else if k < |a| + |m| + |c| {
        assert ops[k] == c[k - |a| - |m|];
      }
    }
  }

  /**
   * The operations come in phases: at most one removal, then the patches,
   * then at most one addition, and a single resort last.
   */
  lemma UpdateOpsPhases(order: seq<string>, rows: map<string, Obj>, idx: seq<string>, rstore: map<string, Obj>, fields: seq<string>)
    requires forall k :: k in idx ==> k in rstore
    ensures var ops := UpdateOps(order, rows, idx, rstore, fields);
            && ops != [] && ops[|ops| - 1] == Resort
            && forall i, j :: 0 <= i < j < |ops| ==> Phase(ops[i]) < Phase(ops[j]) || Phase(ops[i]) == Phase(ops[j]) == 1
  {
    var rm := FilterOut(order, Elems(idx));
    var kept := Survivors(rows, idx);
    var add := FilterOut(idx, kept.Keys);
    MergeOpsArePatches(idx, kept, rstore, fields);
    PhasedParts(if rm == [] then [] else [Remove(rm)], MergeOps(idx, kept, rstore, fields), if add == [] then [] else [Add(add)]);
  }

  lemma AddRemoveParts(a: seq<StoreOp>, m: seq<StoreOp>, c: seq<StoreOp>)
    requires forall op :: op in m ==> Phase(op) == 1
    ensures forall op :: op in a + m + c + [Resort] && (op.Remove? || op.Add?) ==> op in a || op in c
  {
  }

  /** The ops of a pass, split into the removal part, the patches and the addition part. */
  lemma UpdateOpsParts(order: seq<string>, rows: map<string, Obj>, idx: seq<string>, rstore: map<string, Obj>, fields: seq<string>)
    requires forall k :: k in idx ==> k in rstore
    ensures var rm := FilterOut(order, Elems(idx));
            var add := FilterOut(idx, Survivors(rows, idx).Keys);
            var ops := UpdateOps(order, rows, idx, rstore, fields);
            && (forall op :: op in ops && op.Remove? ==> op == Remove(rm) && rm != [])
            && (forall op :: op in ops && op.Add? ==> op == Add(add) && add != [])
            && (rm != [] ==> Remove(rm) in ops)
            && (add != [] ==> Add(add) in ops)
  {
    var rm := FilterOut(order, Elems(idx));
    var kept := Survivors(rows, idx);
    var add := FilterOut(idx, kept.Keys);
    var a := if rm == [] then [] else [Remove(rm)];
    var m := MergeOps(idx, kept, rstore, fields);
    var c := if add == [] then [] else [Add(add)];
    MergeOpsArePatches(idx, kept, rstore, fields);
    AddRemoveParts(a, m, c);
    assert a + m + c + [Resort] == UpdateOps(order, rows, idx, rstore, fields);
    assert (a + m + c + [Resort])[|a| + |m|] == (if add == [] then Resort else Add(add));
  }

  /**
   * The removal lists exactly the old ids that are no longer selected, and
   * there is one iff some id vanished.
   */
  lemma UpdateRemovesVanished(order: seq<string>, rows: map<string, Obj>, idx: seq<string>, rstore: map<string, Obj>, fields: seq<string>)
    requires Elems(order) == rows.Keys
    requires forall k :: k in idx ==> k in rstore
    ensures var ops := UpdateOps(order, rows, idx, rstore, fields);
            && (forall op :: op in ops && op.Remove? ==> Elems(op.ids) == rows.Keys - Elems(idx))
            && (rows.Keys - Elems(idx) != {} <==> exists op :: op in ops && op.Remove?)
  {
    var rm := FilterOut(order, Elems(idx));
    UpdateOpsParts(order, rows, idx, rstore, fields);
    assert Elems(rm) == rows.Keys - Elems(idx);
    if rm != [] {
      assert rm[0] in rows.Keys - Elems(idx);
    }
    if rows.Keys - Elems(idx) != {} {
      var x :| x in rows.Keys - Elems(idx);
      assert x in rm;
      assert Remove(rm) in UpdateOps(order, rows, idx, rstore, fields);
    }
  }

  /**
   * The addition lists exactly the selected ids that were not in the store,
   * and there is one iff some id is new.  Together with UpdateRemovesVanished:
   * a surviving id is neither removed nor added, its record is patched in place.
   */
  lemma UpdateAddsNew(order: seq<string>, rows: map<string, Obj>, idx: seq<string>, rstore: map<string, Obj>, fields: seq<string>)
    requires forall k :: k in idx ==> k in rstore
    ensures var ops := UpdateOps(order, rows, idx, rstore, fields);
            && (forall op :: op in ops && op.Add? ==> Elems(op.ids) == Elems(idx) - rows.Keys)
            && (Elems(idx) - rows.Keys != {} <==> exists op :: op in ops && op.Add?)
  {
    var add := FilterOut(idx, Survivors(rows, idx).Keys);
    UpdateOpsParts(order, rows, idx, rstore, fields);
    assert Survivors(rows, idx).Keys == rows.Keys * Elems(idx);
    assert Elems(add) == Elems(idx) - rows.Keys;
    if add != [] {
      assert add[0] in Elems(idx) - rows.Keys;
    }
    if Elems(idx) - rows.Keys != {} {
      var x :| x in Elems(idx) - rows.Keys;
      assert x in add;
      assert Add(add) in UpdateOps(order, rows, idx, rstore, fields);
    }
  }


  // ---------------------------------------------------------------------
  // Minimal writes

  /** The record changes of the pass over keys are the field sets and commits of the surviving records. */
  lemma {:induction false} MergeOpsWrites(keys: seq<string>, kept: map<string, Obj>, rstore: map<string, Obj>, fields: seq<string>)
    requires forall k :: k in keys ==> k in rstore
    requires Distinct(fields)
    ensures forall k, f, v :: SetField(k, f, v) in MergeOps(keys, kept, rstore, fields)
              <==> k in keys && k in kept && f in fields && Changed(kept[k], rstore[k], f) && v == Get(rstore[k], f)
    ensures forall k :: Commit(k) in MergeOps(keys, kept, rstore, fields)
              <==> k in keys && k in kept && FieldOps(k, kept[k], rstore[k], fields) != []
  {
    if keys != [] {
      var init, k := keys[..|keys| - 1], keys[|keys| - 1];
      MergeOpsWrites(init, kept, rstore, fields);
      if k in kept {
        FieldOpsExact(k, kept[k], rstore[k], fields);
      }
      assert keys == init + [k];
    }
  }

  /** A record has field sets (and so a commit) iff one of its compared fields differs. */
  lemma FieldOpsNonEmpty(id: string, d: Obj, item: Obj, fields: seq<string>)
    requires Distinct(fields)
    ensures FieldOps(id, d, item, fields) != [] <==> exists f :: f in fields && Changed(d, item, f)
  {
    FieldOpsExact(id, d, item, fields);
    var fo := FieldOps(id, d, item, fields);
    if fo != [] {
      assert fo[0] in fo;
      assert SetField(id, fo[0].field, fo[0].value) in fo;
    }
    if exists f :: f in fields && Changed(d, item, f) {
      var f :| f in fields && Changed(d, item, f);
      assert SetField(id, f, Get(item, f)) in fo;
    }
  }

  /**
   * A pass sets a field of a record iff the record survives and the field is
   * compared, is not 'id' and differs under `!=`; it commits a record iff
   * some such field differs.  A record without differences is not touched.
   */
  lemma UpdateWritesOnlyChanges(order: seq<string>, rows: map<string, Obj>, idx: seq<string>, rstore: map<string, Obj>, fields: seq<string>)
    requires forall k :: k in idx ==> k in rstore
    requires Distinct(fields)
    ensures var ops := UpdateOps(order, rows, idx, rstore, fields);
            && (forall k, f, v :: SetField(k, f, v) in ops
                  <==> k in rows && k in idx && f in fields && Changed(rows[k], rstore[k], f) && v == Get(rstore[k], f))
            && (forall k :: Commit(k) in ops
                  <==> k in rows && k in idx && exists f :: f in fields && Changed(rows[k], rstore[k], f))
  {
    var rm := FilterOut(order, Elems(idx));
    var kept := Survivors(rows, idx);
    var add := FilterOut(idx, kept.Keys);
    var a := if rm == [] then [] else [Remove(rm)];
    var m := MergeOps(idx, kept, rstore, fields);
    var c := if add == [] then [] else [Add(add)];
    assert a + m + c + [Resort] == UpdateOps(order, rows, idx, rstore, fields);
    MergeOpsWrites(idx, kept, rstore, fields);
    forall k | k in kept
      ensures FieldOps(k, kept[k], rstore[k], fields) != [] <==> exists f :: f in fields && Changed(rows[k], rstore[k], f)
    {
      FieldOpsNonEmpty(k, kept[k], rstore[k], fields);
    }
  }

  // ---------------------------------------------------------------------
  // A repeated pass

  /** Every record is in step with its resource record on the compared fields. */
  ghost predicate InStep(rows: map<string, Obj>, rstore: map<string, Obj>, fields: seq<string>)
  {
    forall k, f :: k in rows && k in rstore && f in fields ==> !Changed(rows[k], rstore[k], f)
  }

  lemma NewRowsInStep(rows: map<string, Obj>, idx: seq<string>, rstore: map<string, Obj>, fields: seq<string>)
    requires forall k :: k in idx ==> k in rstore
    ensures InStep(NewRows(rows, idx, rstore, fields), rstore, fields)
  {
    NewRowsRecords(rows, idx, rstore, fields);
    var r := NewRows(rows, idx, rstore, fields);
    forall k, f | k in r && k in rstore && f in fields
      ensures !Changed(r[k], rstore[k], f)
    {
      if k in rows {
        PatchDataSynced(rows[k], rstore[k], fields);
      } else {
        LooseEqReflexive(Get(rstore[k], f));
      }
    }
  }

  lemma {:induction false} MergeOpsInStep(keys: seq<string>, kept: map<string, Obj>, rstore: map<string, Obj>, fields: seq<string>)
    requires forall k :: k in keys ==> k in rstore
    requires InStep(kept, rstore, fields)
    ensures MergeOps(keys, kept, rstore, fields) == []
  {
    if keys != [] {
      var k := keys[|keys| - 1];
      MergeOpsInStep(keys[..|keys| - 1], kept, rstore, fields);
      if k in kept {
        UnchangedRecord(k, kept[k], rstore[k], fields);
      }
    }
  }

  lemma FilterOutAll(s: seq<string>, keep: set<string>)
    requires forall x :: x in s ==> x in keep
    ensures FilterOut(s, keep) == []
  {
  }

  /** A store whose ids are exactly the selection and whose records are in step stays as it is. */
  lemma SettledRows(rows1: map<string, Obj>, idx: seq<string>, rstore: map<string, Obj>, fields: seq<string>)
    requires forall k :: k in idx ==> k in rstore
    requires rows1.Keys == Elems(idx) && InStep(rows1, rstore, fields)
    ensures NewRows(rows1, idx, rstore, fields) == rows1
    ensures FilterOut(idx, Survivors(rows1, idx).Keys) == []
    ensures MergeOps(idx, Survivors(rows1, idx), rstore, fields) == []
  {
    assert Survivors(rows1, idx) == rows1;
    MergeOpsInStep(idx, rows1, rstore, fields);
    forall k | k in rows1
      ensures PatchData(rows1[k], rstore[k], fields) == rows1[k]
    {
      UnchangedRecord(k, rows1[k], rstore[k], fields);
    }
    assert Merged(rows1, idx, rstore, fields) == rows1;
    FilterOutAll(idx, rows1.Keys);
    assert Added([], rstore) == map[];
  }

  /** A pass over a store that is sorted, in step and holds exactly the selection changes nothing. */
  lemma SettledPass(order1: seq<string>, rows1: map<string, Obj>, idx: seq<string>, rstore: map<string, Obj>, fields: seq<string>)
    requires forall k :: k in idx ==> k in rstore
    requires Elems(order1) == rows1.Keys == Elems(idx) && InStep(rows1, rstore, fields)
    requires SortedBy(order1, TypeKey(rows1))
    ensures UpdateOrder(order1, rows1, idx, rstore, fields) == order1
    ensures NewRows(rows1, idx, rstore, fields) == rows1
    ensures UpdateOps(order1, rows1, idx, rstore, fields) == [Resort]
  {
    SettledRows(rows1, idx, rstore, fields);
    FilterOutAll(order1, Elems(idx));
    FilterInAll(order1, Elems(idx));
    assert order1 + [] == order1;
    SortOfSorted(order1, TypeKey(rows1));
  }

  /**
   * A second pass over the same selection, resource store and filters
   * removes nothing, adds nothing, sets no field and leaves the store as it
   * was: its only operation is the resort.
   */
  lemma UpdateIdempotent(order: seq<string>, rows: map<string, Obj>, idx: seq<string>, rstore: map<string, Obj>, fields: seq<string>)
    requires Distinct(order) && Elems(order) == rows.Keys
    requires Distinct(idx) && forall k :: k in idx ==> k in rstore
    ensures var order1 := UpdateOrder(order, rows, idx, rstore, fields);
            var rows1 := NewRows(rows, idx, rstore, fields);
            && UpdateOrder(order1, rows1, idx, rstore, fields) == order1
            && NewRows(rows1, idx, rstore, fields) == rows1
            && UpdateOps(order1, rows1, idx, rstore, fields) == [Resort]
  {
    UpdateKeyed(order, rows, idx, rstore, fields);
    NewRowsRecords(rows, idx, rstore, fields);
    NewRowsInStep(rows, idx, rstore, fields);
    UpdateSortedByType(order, rows, idx, rstore, fields);
    SettledPass(UpdateOrder(order, rows, idx, rstore, fields), NewRows(rows, idx, rstore, fields), idx, rstore, fields);
  }
}
