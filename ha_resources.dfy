/**
 * The list of HA resources (PVE.ha.ResourcesView): how a row opens its
 * editor, how its state and group cells render, and what the buttons need.
 *
 * The user's node capabilities (caps.nodes) are the set of those granted;
 * Ext.htmlEncode is not part of this model and is a parameter.
 */
module HaResources {
  import opened Js
  import Common
  import HaResourceEdit

  const ResourcesPath: string := "/cluster/ha/resources/"

  /**
   * run_editor: the selected row's service id must match "type:id"; a vm
   * or ct resource opens the editor with the id, any other type does
   * nothing, and an id that does not match fails on the missing match.
   */
  function RunEditor(rec: Obj): (r: Result<Option<Value>>)
    ensures r.Err? <==> HaResourceEdit.SplitSid(ToStr(Get(rec, "sid"))).None?
    ensures r.Err? ==> r.msg == TypeError
    ensures r.Ok? && r.value.Some? <==>
              HaResourceEdit.SplitSid(ToStr(Get(rec, "sid"))).Some? && HaResourceEdit.IsGuestType(HaResourceEdit.SplitSid(ToStr(Get(rec, "sid"))).value.0)
    ensures r.Ok? && r.value.Some? ==> r.value.value == Str(HaResourceEdit.SplitSid(ToStr(Get(rec, "sid"))).value.1)
  {
    match HaResourceEdit.SplitSid(ToStr(Get(rec, "sid")))
    case None => Err(TypeError)
    case Some((typ, id)) =>
      if !HaResourceEdit.IsGuestType(typ) then Ok(None) else Ok(Some(Str(id)))
  }

  /**
   * A guest's row opens an editor of the existing resource (never a new
   * one), which puts to the resource of that guest id.
   */
  lemma EditorOfGuest(typ: string, id: string, rec: Obj)
    requires HaResourceEdit.IsGuestType(typ) && id != [] && NoSpace(id) && ':' !in id
    requires Get(rec, "sid") == Str(typ + ":" + id)
    ensures RunEditor(rec) == Ok(Some(Str(id)))
    ensures var w := Common.OpenEdit(HaResourceEdit.ResourcesUrl, Str(id));
            !w.create && w.verb == "PUT" && w.url == HaResourceEdit.ResourcesUrl + "/" + id
  {
    assert NoSpace(typ);
    HaResourceEdit.SplitSidOf(typ, id);
    HaResourceEdit.ResourceWindow(Str(id));
  }

  /** The state cell: an empty state reads as 'enabled'. */
  function StateText(v: Value): (r: string)
    ensures !Truthy(v) ==> r == "enabled"
    ensures Truthy(v) ==> r == ToStr(v)
  {
    if Truthy(v) then ToStr(v) else "enabled"
  }

  /** Every '"' replaced by &quot;, as replace(/"/g, '&quot;') does. */
  function EscapeQuotes(s: string): (r: string)
    ensures '"' !in r
    ensures '"' !in s ==> r == s
    ensures |r| >= |s|
  {
    if s == [] then []
    else (if s[0] == '"' then "&quot;" else [s[0]]) + EscapeQuotes(s[1..])
  }

  /** The mark on a cell with an error: its class and its tool tip. */
  datatype CellMark = CellMark(tdCls: string, tdAttr: string)

  /**
   * render_error: a row whose errors name this column gets the invalid
   * mark and a tool tip holding the encoded message with its quotes
   * escaped; the value itself is shown unchanged.
   */
  function RenderError(dataIndex: string, errors: Value, errorMap: Obj, htmlEncode: string -> string): (r: Option<CellMark>)
    ensures r.Some? <==> Truthy(errors) && Truthy(Get(errorMap, dataIndex))
    ensures r.Some? ==> r.value.tdCls == "x-form-invalid-field"
    ensures r.Some? ==> r.value.tdAttr == "data-qwidth=600 data-qtitle=\"ERROR\" data-qtip=\""
                                        + EscapeQuotes("<p>" + htmlEncode(ToStr(Get(errorMap, dataIndex))) + "</p>") + "\""
  {
    if Truthy(errors) && Truthy(Get(errorMap, dataIndex)) then
      var html := "<p>" + htmlEncode(ToStr(Get(errorMap, dataIndex))) + "</p>";
      Some(CellMark("x-form-invalid-field", "data-qwidth=600 data-qtitle=\"ERROR\" data-qtip=\"" + EscapeQuotes(html) + "\""))
    else None
  }

  /** The tool tip attribute closes exactly at its final quote: the message inside it holds none. */
  lemma ToolTipQuoted(dataIndex: string, errors: Value, errorMap: Obj, htmlEncode: string -> string)
    requires RenderError(dataIndex, errors, errorMap, htmlEncode).Some?
    ensures var a := RenderError(dataIndex, errors, errorMap, htmlEncode).value.tdAttr;
            var prefix := "data-qwidth=600 data-qtitle=\"ERROR\" data-qtip=\"";
            IsPrefix(prefix, a) && a[|a| - 1] == '"' && '"' !in a[|prefix|..|a| - 1]
  {
    var a := RenderError(dataIndex, errors, errorMap, htmlEncode).value.tdAttr;
    var prefix := "data-qwidth=600 data-qtitle=\"ERROR\" data-qtip=\"";
    var html := "<p>" + htmlEncode(ToStr(Get(errorMap, dataIndex))) + "</p>";
    assert a == prefix + EscapeQuotes(html) + "\"";
    assert a[|prefix|..|a| - 1] == EscapeQuotes(html);
  }

  /** What the tool bar and the selection allow: Add and selecting rows need Sys.Console. */
  datatype Access = Access(addDisabled: bool, canSelect: bool)

  function AccessOf(nodeCaps: set<string>): (r: Access)
    ensures r.addDisabled <==> "Sys.Console" !in nodeCaps
    ensures r.canSelect <==> !r.addDisabled
  {
    Access("Sys.Console" !in nodeCaps, "Sys.Console" in nodeCaps)
  }

  /** Remove deletes the resource under its service id. */
  function RemoveUrl(sid: Value): (r: string)
    ensures IsPrefix(ResourcesPath, r) && r[|ResourcesPath|..] == ToStr(sid)
  {
    var r := ResourcesPath + ToStr(sid);
    assert r[..|ResourcesPath|] == ResourcesPath;
    r
  }
}
