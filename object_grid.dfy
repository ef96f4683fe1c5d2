/**
 * The key/value grid (PVE.grid.ObjectGrid) the option and resource views
 * build on: a row per configuration key, headed and rendered by the row's
 * definition, starting from the definitions' defaults.
 *
 * The store is modelled as a map from keys to the values of their
 * records; a renderer is a function of the value alone.
 */
module ObjectGrid {
  import opened Js

  const NoUrlError: string := "no url specified"

  /** The editor of a row: an edit window class by name, or a window configuration with its subject and field. */
  datatype Editor = ClassName(name: string) | WindowConfig(subject: string, field: string)

  /** The definition of a row; an undefined default value is Undefined, a missing visible flag too. */
  datatype RowDef = RowDef(header: string, defaultValue: Value, required: bool, visible: Value,
                           editor: Option<Editor>, tdCls: string, renderer: Option<Value -> Value>)

  /** The editor of a row: with its capability, the given editor; without it, none. */
  function Gate(allowed: bool, editor: Editor): (r: Option<Editor>)
    ensures r.Some? <==> allowed
    ensures r.Some? ==> r.value == editor
  {
    if allowed then Some(editor) else None
  }

  /** A row with nothing but its header. */
  function Plain(header: string): RowDef
  {
    RowDef(header, Undefined, false, Undefined, None, "", None)
  }

  /** getObjectValue: the value of the key's record, or the default when there is no record. */
  function ObjectValue(store: map<string, Value>, key: string, defaultValue: Value): (r: Value)
    ensures key in store ==> r == store[key]
    ensures key !in store ==> r == defaultValue
  {
    if key in store then store[key] else defaultValue
  }

  /** The definition of a key, where the grid has row definitions and one for the key. */
  function RowOf(rows: Option<map<string, RowDef>>, key: string): Option<RowDef>
  {
    if rows.Some? && key in rows.value then Some(rows.value[key]) else None
  }

  /** renderKey: the row's header when it has one, the key otherwise. */
  function RenderKey(rows: Option<map<string, RowDef>>, key: string): (r: string)
    ensures RowOf(rows, key).Some? && RowOf(rows, key).value.header != "" ==> r == RowOf(rows, key).value.header
    ensures RowOf(rows, key).None? || RowOf(rows, key).value.header == "" ==> r == key
  {
    match RowOf(rows, key)
    case Some(d) => if d.header != "" then d.header else key
    case None => key
  }

  /** renderValue: the row's renderer applied when it has one, the value unchanged otherwise. */
  function RenderValue(rows: Option<map<string, RowDef>>, key: string, value: Value): (r: Value)
    ensures RowOf(rows, key).Some? && RowOf(rows, key).value.renderer.Some? ==> r == RowOf(rows, key).value.renderer.value(value)
    ensures RowOf(rows, key).None? || RowOf(rows, key).value.renderer.None? ==> r == value
  {
    match RowOf(rows, key)
    case Some(d) => if d.renderer.Some? then d.renderer.value(value) else value
    case None => value
  }

  /** The grid loads from its own store, or from a URL; with neither it throws. */
  function Source(hasRstore: bool, url: Value): (r: Result<bool>)
    ensures r.Err? <==> !hasRstore && !Truthy(url)
    ensures r.Err? ==> r.msg == NoUrlError
    ensures r.Ok? ==> (r.value <==> !hasRstore)
  {
    if hasRstore then Ok(false)
    else if !Truthy(url) then Err(NoUrlError)
    else Ok(true)
  }

  /** A row the grid starts with: one with a default value, or a required one. */
  predicate Preset(d: RowDef)
  {
    d.defaultValue != Undefined || d.required
  }

  /**
   * The records the grid starts with: a row with a default value starts
   * with it, a required row without one starts undefined, any other row
   * starts absent.
   */
  function Defaults(rows: map<string, RowDef>): (r: map<string, Value>)
    ensures forall k :: k in r <==> k in rows && Preset(rows[k])
    ensures forall k :: k in r ==> r[k] == (if rows[k].defaultValue != Undefined then rows[k].defaultValue else Undefined)
  {
    map k | k in rows && Preset(rows[k]) :: rows[k].defaultValue
  }

  /** The filter: with row definitions, only keys with one that is not marked invisible are shown; without, all are. */
  predicate Shown(rows: Option<map<string, RowDef>>, key: string)
  {
    RowOf(rows, key).Some? ==> !StrictEq(RowOf(rows, key).value.visible, Bool(false))
  }

  predicate Visible(rows: Option<map<string, RowDef>>, key: string)
  {
    rows.None? || (RowOf(rows, key).Some? && Shown(rows, key))
  }

  /**
   * Before anything is loaded, reading a key of the grid gives the row's
   * default, undefined for a required row, and the caller's default for a
   * key without a preset row.
   */
  lemma InitialValue(rows: map<string, RowDef>, key: string, dflt: Value)
    ensures key in rows && rows[key].defaultValue != Undefined ==> ObjectValue(Defaults(rows), key, dflt) == rows[key].defaultValue
    ensures key in rows && rows[key].defaultValue == Undefined && rows[key].required ==> ObjectValue(Defaults(rows), key, dflt) == Undefined
    ensures !(key in rows && Preset(rows[key])) ==> ObjectValue(Defaults(rows), key, dflt) == dflt
  {
  }

  /** With row definitions a key without one is hidden, and a key with one is hidden exactly when marked invisible. */
  lemma VisibleRows(rows: map<string, RowDef>, key: string)
    ensures key !in rows ==> !Visible(Some(rows), key)
    ensures key in rows ==> (Visible(Some(rows), key) <==> rows[key].visible != Bool(false))
    ensures forall k :: Visible(None, k)
  {
  }

  class ObjectGridPanel {
    const rows: Option<map<string, RowDef>>
    /** The records by key. */
    var store: map<string, Value>

    /** initComponent: the records of the preset rows are added, row by row. */
    constructor(rows: Option<map<string, RowDef>>)
      ensures this.rows == rows
      ensures rows.Some? ==> store == Defaults(rows.value)
      ensures rows.None? ==> store == map[]
    {
      this.rows := rows;
      var s: map<string, Value> := map[];
      if rows.Some? {
        var defs := rows.value;
        var keys := defs.Keys;
        while keys != {}
          invariant keys <= defs.Keys
          invariant s == map k | k in defs && k !in keys && Preset(defs[k]) :: defs[k].defaultValue
          decreases keys
        {
          var k :| k in keys;
          if defs[k].defaultValue != Undefined {
            s := s[k := defs[k].defaultValue];
          } else if defs[k].required {
            s := s[k := Undefined];
          }
          keys := keys - {k};
        }
      }
      store := s;
    }

    /** getObjectValue on the grid's records. */
    function GetObjectValue(key: string, defaultValue: Value): Value
      reads this
    {
      ObjectValue(store, key, defaultValue)
    }
  }
}
