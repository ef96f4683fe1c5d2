/**
 * The hotplug feature selector of the VM options (PVE.form.HotplugFeatureSelector):
 * the stored option is '0' (nothing), '1' (the historic default) or a
 * comma-separated list, and the field edits it as a list.
 */
module HotplugFeatureSelector {
  import opened Js

  /** The features the selector offers. */
  const Features: seq<string> := ["disk", "network", "usb", "memory", "cpu"]

  /** What '1' stands for. */
  const DefaultFeatures: seq<string> := ["disk", "network", "usb"]

  /** The selector's defaults: a multi-select field that does not delete an empty value. */
  const MultiSelect: bool := true
  const DeleteEmpty: bool := false

  /** setValue: a string value of a multi-select field becomes the list it stands for. */
  function Expand(multiSelect: bool, value: Value): (r: Value)
    ensures !(multiSelect && value.Str?) ==> r == value
    ensures multiSelect && value == Str("0") ==> r == List([])
    ensures multiSelect && value == Str("1") ==> r == List(DefaultFeatures)
    ensures multiSelect && value.Str? && value.s != "0" && value.s != "1" ==> r == List(Split(value.s, ','))
  {
    if multiSelect && value.Str? then
      if value.s == "0" then List([])
      else if value.s == "1" then List(DefaultFeatures)
      else List(Split(value.s, ','))
    else value
  }

  /** The value a list is submitted as: its items joined by commas, '0' for none. */
  function SubmitText(items: seq<string>): string
  {
    var joined := Join(items, ",");
    if joined == "" then "0" else joined
  }

  /**
   * getSubmitData: nothing (null) from a disabled field or one that does
   * not submit; a list is submitted as text; a value other than null and ''
   * is sent under the field's name; an empty one is deleted only when the
   * field deletes empty values.
   */
  function SubmitData(disabled: bool, submitValue: bool, deleteEmpty: bool, name: string, val: Value): (r: Option<Obj>)
    ensures disabled || !submitValue ==> r.None?
    ensures !disabled && submitValue && val.List? ==> r == Some(map[name := Str(SubmitText(val.items))])
    ensures !disabled && submitValue && !val.List? && val != Null && val != Str("") ==> r == Some(map[name := val])
    ensures !disabled && submitValue && (val == Null || val == Str("")) ==>
      r == (if deleteEmpty then Some(map["delete" := Str(name)]) else None)
    ensures r.Some? ==> |r.value| == 1
    ensures r.Some? && name !in r.value ==> r.value == map["delete" := Str(name)] && deleteEmpty && (val == Null || val == Str(""))
    ensures r.None? && !disabled && submitValue ==> !deleteEmpty && (val == Null || val == Str(""))
  {
    if disabled || !submitValue then None
    else
      var v := if val.List? then Str(SubmitText(val.items)) else val;
      if v != Null && v != Str("") then Some(map[name := v])
      else if deleteEmpty then Some(map["delete" := Str(name)])
      else None
  }

  /** A list of offered features is never submitted as the text '1'. */
  lemma {:induction false} JoinNotOne(xs: seq<string>)
    requires forall i :: 0 <= i < |xs| ==> xs[i] in Features
    ensures Join(xs, ",") != "1" && Join(xs, ",") != "0"
  {
    if |xs| > 1 {
      assert |Join(xs, ",")| >= |xs[0]| + 1;
    }
  }

  /** The text a list of features joins to is never empty. */
  lemma {:induction false} JoinNotEmpty(xs: seq<string>)
    requires xs != [] && forall i :: 0 <= i < |xs| ==> xs[i] in Features
    ensures Join(xs, ",") != ""
  {
    if |xs| == 1 {
      assert xs[0] in Features;
    } else {
      assert Join(xs, ",") == xs[0] + "," + Join(xs[1..], ",");
    }
  }

  /**
   * Any list of offered features, once submitted and set back into the
   * field, is the list it was; the empty list goes through '0'.
   */
  lemma SubmitExpandRoundTrip(name: string, xs: seq<string>)
    requires forall i :: 0 <= i < |xs| ==> xs[i] in Features
    ensures var d := SubmitData(false, true, DeleteEmpty, name, List(xs));
            d.Some? && name in d.value && Expand(MultiSelect, d.value[name]) == List(xs)
  {
    JoinNotOne(xs);
    if xs == [] {
      assert SubmitText(xs) == "0";
    } else {
      JoinNotEmpty(xs);
      assert SubmitText(xs) == Join(xs, ",");
      assert forall i :: 0 <= i < |xs| ==> ',' !in xs[i];
      SplitJoin(xs, ',');
    }
  }

  /** The historic '1' is shown as disk, network and usb and saved back under those names. */
  lemma OneIsDefaults(name: string)
    ensures Expand(MultiSelect, Str("1")) == List(DefaultFeatures)
    ensures SubmitData(false, true, DeleteEmpty, name, List(DefaultFeatures)) == Some(map[name := Str("disk,network,usb")])
  {
    assert Join(DefaultFeatures, ",") == "disk,network,usb";
  }
}
