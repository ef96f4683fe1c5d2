/**
 * The features editor of a container (PVE.lxc.FeaturesInputPanel and
 * PVE.lxc.FeaturesEdit): a check box per available feature, and the
 * submission that merges the form into the container's features.
 *
 * PVE.Parser.parseLxcFeatures, printLxcFeatures and parseBoolean are not
 * part of this model: they are parameters.
 */
module LxcFeatures {
  import opened Js
  import Sorting

  /** A feature the host offers. */
  datatype Available = Available(id: string, name: string, allowed: bool)

  /** A check box of the form; a red one shows a feature set that the user may not change. */
  datatype CheckItem = CheckItem(name: string, fieldLabel: string, checked: bool, red: bool)

  /** The names Ext.Array.each visits for the 'delete' entry: none, the one value, or each of a list. */
  function DeleteNames(del: Value): (r: seq<string>)
    ensures IsNullish(del) ==> r == []
    ensures del.List? ==> r == del.items
    ensures !IsNullish(del) && !del.List? ==> r == [ToStr(del)]
  {
    match del
    case Undefined => []
    case Null => []
    case List(xs) => xs
    case _ => [ToStr(del)]
  }

  /** The names in a list, as a set. */
  function Names(s: seq<string>): (r: set<string>)
    ensures forall k :: k in r <==> k in s
  {
    set k | k in s
  }

  /**
   * The features after a submission: every submitted value but 'delete'
   * written in, then every name listed in 'delete' removed.
   */
  function Merged(features: map<string, Value>, values: Obj): (r: map<string, Value>)
    ensures forall k :: k in DeleteNames(Get(values, "delete")) ==> k !in r
    ensures forall k :: k in values && k != "delete" && k !in DeleteNames(Get(values, "delete")) ==> k in r && r[k] == values[k]
    ensures forall k :: k in features && k !in values && k !in DeleteNames(Get(values, "delete")) ==> k in r && r[k] == features[k]
    ensures forall k :: k in r ==> k in features || (k in values && k != "delete")
  {
    var del := DeleteNames(Get(values, "delete"));
    (features + (values - {"delete"})) - Names(del)
  }

  /** The Ext.Object.each loop of onGetValues: every submitted value is written into the features. */
  method Assigned(features: map<string, Value>, rest: Obj) returns (f: map<string, Value>)
    ensures f == features + rest
  {
    var keys := rest.Keys;
    f := features;
    while keys != {}
      invariant keys <= rest.Keys
      invariant f == features + (rest - keys)
      decreases keys
    {
      var k :| k in keys;
      assert features + (rest - (keys - {k})) == (features + (rest - keys))[k := rest[k]];
      f := f[k := rest[k]];
      keys := keys - {k};
    }
    assert rest - keys == rest;
  }

  /** The Ext.Array.each loop of onGetValues: every listed name is removed from the features. */
  method Deleted(features: map<string, Value>, del: seq<string>) returns (f: map<string, Value>)
    ensures f == features - Names(del)
  {
    f := features;
    var i := 0;
    while i < |del|
      invariant 0 <= i <= |del|
      invariant f == features - Names(del[..i])
    {
      assert Names(del[..i + 1]) == Names(del[..i]) + {del[i]};
      f := f - {del[i]};
      i := i + 1;
    }
    assert del[..i] == del;
  }

  /** Submitting the same values twice leaves the features as once. */
  lemma MergedIdempotent(features: map<string, Value>, values: Obj)
    ensures Merged(Merged(features, values), values) == Merged(features, values)
  {
    var once := Merged(features, values);
    var twice := Merged(once, values);
    assert forall k :: k in twice <==> k in once;
  }

  /** Which options get a check box: those the user may change, and those already set. */
  function Shown(options: seq<Available>, features: map<string, Value>, parseBoolean: Value -> bool): (r: seq<CheckItem>)
    ensures |r| <= |options|
    ensures forall it :: it in r ==> it.checked == parseBoolean(Get(features, it.name))
  {
    if options == [] then []
    else
      var o := options[|options| - 1];
      var rest := Shown(options[..|options| - 1], features, parseBoolean);
      var enabled := parseBoolean(Get(features, o.id));
      if !o.allowed && !enabled then rest
      else rest + [CheckItem(o.id, o.name, enabled, !o.allowed)]
  }

  /** A shown option is red exactly when the user may not change it. */
  lemma {:induction false} ShownRed(options: seq<Available>, features: map<string, Value>, parseBoolean: Value -> bool, i: nat)
    requires i < |options| && (options[i].allowed || parseBoolean(Get(features, options[i].id)))
    ensures var r := Shown(options, features, parseBoolean);
            exists it :: it in r && it.name == options[i].id && it.fieldLabel == options[i].name && it.red == !options[i].allowed
    decreases |options|
  {
    var init := options[..|options| - 1];
    var rest := Shown(init, features, parseBoolean);
    var o := options[|options| - 1];
    var item := CheckItem(o.id, o.name, parseBoolean(Get(features, o.id)), !o.allowed);
    var r := Shown(options, features, parseBoolean);
    ShownLast(options, features, parseBoolean);
    if i < |options| - 1 {
      ShownRed(init, features, parseBoolean, i);
      var it :| it in rest && it.name == init[i].id && it.fieldLabel == init[i].name && it.red == !init[i].allowed;
      assert init[i] == options[i];
      assert r == rest || r == rest + [item];
      assert it in r;
    } else {
      assert r == rest + [item];
      assert item in r;
    }
  }

  /** Every check box belongs to an option that is allowed or already set. */
  lemma {:induction false} ShownSound(options: seq<Available>, features: map<string, Value>, parseBoolean: Value -> bool)
    ensures forall it :: it in Shown(options, features, parseBoolean) ==>
              exists o :: o in options && it.name == o.id && (o.allowed || parseBoolean(Get(features, o.id)))
  {
    if options != [] {
      var init := options[..|options| - 1];
      var last := options[|options| - 1];
      ShownSound(init, features, parseBoolean);
      ShownLast(options, features, parseBoolean);
      forall it | it in Shown(options, features, parseBoolean)
        ensures exists o :: o in options && it.name == o.id && (o.allowed || parseBoolean(Get(features, o.id)))
      {
        if it in Shown(init, features, parseBoolean) {
          var o :| o in init && it.name == o.id && (o.allowed || parseBoolean(Get(features, o.id)));
          assert o in options;
        } else {
          assert it.name == last.id && (last.allowed || parseBoolean(Get(features, last.id)));
          assert last in options;
        }
      }
    }
  }

  /** Shown on a list extends Shown on the list without its last option by that option's check box, if any. */
  lemma ShownLast(options: seq<Available>, features: map<string, Value>, parseBoolean: Value -> bool)
    requires options != []
    ensures var o := options[|options| - 1];
            var enabled := parseBoolean(Get(features, o.id));
            var rest := Shown(options[..|options| - 1], features, parseBoolean);
            Shown(options, features, parseBoolean)
              == if !o.allowed && !enabled then rest else rest + [CheckItem(o.id, o.name, enabled, !o.allowed)]
  {
  }

  /** The sort comparator as written: the boolean a.id < b.id. */
  function IdComparator(a: Available, b: Available): Value
  {
    Bool(Sorting.StrLe(a.id, b.id) && a.id != b.id)
  }

  /** The number Array.prototype.sort reads from a comparator's result. */
  function CompareResult(v: Value): int
  {
    if v.Bool? then (if v.b then 1 else 0) else if v.Num? then v.n else 0
  }

  /**
   * The comparator never answers "a before b": for two options of different
   * ids it answers "after" one way round and "equal" the other, where a
   * consistent comparator answers with opposite signs.
   */
  lemma ComparatorNeverNegative(a: Available, b: Available)
    ensures CompareResult(IdComparator(a, b)) >= 0
    ensures a.id != b.id ==> CompareResult(IdComparator(a, b)) + CompareResult(IdComparator(b, a)) == 1
  {
    if a.id != b.id {
      Sorting.StrLeTotal(a.id, b.id);
      if Sorting.StrLe(a.id, b.id) && Sorting.StrLe(b.id, a.id) {
        StrLeAntisymmetric(a.id, b.id);
      }
    }
  }

  lemma ComparatorInconsistent()
    ensures var a, b := Available("a", "", true), Available("b", "", true);
            CompareResult(IdComparator(a, b)) == 1 && CompareResult(IdComparator(b, a)) == 0
  {
    var a, b := Available("a", "", true), Available("b", "", true);
    assert Sorting.StrLe(a.id, b.id) && !Sorting.StrLe(b.id, a.id);
  }

  lemma {:induction false} StrLeAntisymmetric(x: string, y: string)
    requires Sorting.StrLe(x, y) && Sorting.StrLe(y, x)
    ensures x == y
  {
    if x != [] && y != [] {
      StrLeAntisymmetric(x[1..], y[1..]);
      assert x == [x[0]] + x[1..] && y == [y[0]] + y[1..];
    }
  }

  /** The corrected comparator: negative, zero or positive as a.id sorts before, with or after b.id. */
  function CompareIds(a: Available, b: Available): (r: int)
    ensures r < 0 <==> Sorting.StrLe(a.id, b.id) && a.id != b.id
    ensures r == 0 <==> a.id == b.id
    ensures r > 0 <==> Sorting.StrLe(b.id, a.id) && a.id != b.id
  {
    Sorting.StrLeTotal(a.id, b.id);
    if a.id == b.id then 0
    else if Sorting.StrLe(a.id, b.id) then
      assert !Sorting.StrLe(b.id, a.id) by {
        if Sorting.StrLe(b.id, a.id) { StrLeAntisymmetric(a.id, b.id); }
      }
      -1
    else 1
  }

  /** The corrected comparator answers with opposite signs for the two orders of a pair. */
  lemma CompareIdsAntisymmetric(a: Available, b: Available)
    ensures CompareIds(a, b) == -CompareIds(b, a)
  {
  }

  /** The order the options are meant to be listed in: ascending by id. */
  function ByIdKey(options: seq<Available>): map<Available, Sorting.Key>
  {
    map o | o in options :: Sorting.Text(o.id)
  }

  /** The check boxes fillForm adds, option by option. */
  method CheckItems(options: seq<Available>, features: map<string, Value>, parseBoolean: Value -> bool)
    returns (items: seq<CheckItem>)
    ensures items == Shown(options, features, parseBoolean)
  {
    items := [];
    var i := 0;
    while i < |options|
      invariant 0 <= i <= |options|
      invariant items == Shown(options[..i], features, parseBoolean)
    {
      assert options[..i + 1][..i] == options[..i];
      var option := options[i];
      var enabled := parseBoolean(Get(features, option.id));
      if option.allowed || enabled {
        items := items + [CheckItem(option.id, option.name, enabled, !option.allowed)];
      }
      i := i + 1;
    }
    assert options[..i] == options;
  }

  class FeaturesPanel {
    var features: map<string, Value>
    var items: seq<CheckItem>
    var closed: bool

    constructor()
      ensures features == map[] && items == [] && !closed
    {
      features, items, closed := map[], [], false;
    }

    /**
     * onGetValues: the submitted values are merged into the features, and
     * the result has the one key 'features', their printed form.
     */
    method OnGetValues(values: Obj, printFeatures: map<string, Value> -> string) returns (r: Obj)
      modifies this
      ensures features == Merged(old(features), values)
      ensures r == map["features" := Str(printFeatures(features))]
      ensures items == old(items) && closed == old(closed)
    {
      var del := DeleteNames(Get(values, "delete"));
      var f := Assigned(features, values - {"delete"});
      f := Deleted(f, del);
      features := f;
      r := map["features" := Str(printFeatures(features))];
    }

    /**
     * fillForm over the options in the order given: features that are set
     * replace the current ones (an unparsable value closes the window
     * instead), then each option gets its check box unless the user may not
     * change it and it is not set.
     */
    method FillForm(options: seq<Available>, data: Obj, parseFeatures: Value -> Option<map<string, Value>>,
                    parseBoolean: Value -> bool)
      modifies this
      ensures Defined(data, "features") && parseFeatures(Get(data, "features")).None? ==>
                closed && items == old(items) && features == old(features)
      ensures !(Defined(data, "features") && parseFeatures(Get(data, "features")).None?) ==>
                && closed == old(closed)
                && features == (if Defined(data, "features") then parseFeatures(Get(data, "features")).value else old(features))
                && items == old(items) + Shown(options, features, parseBoolean)
    {
      if Defined(data, "features") {
        var parsed := parseFeatures(Get(data, "features"));
        if parsed.None? {
          closed := true;
          return;
        }
        features := parsed.value;
      }
      var added := CheckItems(options, features, parseBoolean);
      items := items + added;
    }

    /** fillForm with the options in the order meant: ascending by id. */
    method FillFormSorted(options: seq<Available>, data: Obj, parseFeatures: Value -> Option<map<string, Value>>,
                          parseBoolean: Value -> bool)
      modifies this
      ensures !(Defined(data, "features") && parseFeatures(Get(data, "features")).None?) ==>
                items == old(items) + Shown(Sorting.Sort(options, ByIdKey(options)), features, parseBoolean)
      ensures Sorting.SortedBy(Sorting.Sort(options, ByIdKey(options)), ByIdKey(options))
    {
      Sorting.SortSorted(options, ByIdKey(options));
      FillForm(Sorting.Sort(options, ByIdKey(options)), data, parseFeatures, parseBoolean);
    }
  }
}
