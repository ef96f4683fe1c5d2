/**
 * The options view of a container (PVE.lxc.Options): an object grid whose
 * rows get an editor only with the VM.Config.Options capability, and the
 * TTY count editor, which submits its default as a deletion.
 *
 * PVE.Utils.format_boolean, render_kvm_startup and unknownText are not part
 * of this model: they are parameters.
 */
module LxcOptions {
  import opened Js
  import Common
  import ObjectGrid

  const TtyMin: int := 0
  const TtyMax: int := 6
  const TtyDefault: int := 2

  /** A row with a default and, possibly, an editor and a renderer. */
  function Row(header: string, defaultValue: Value, editor: Option<ObjectGrid.Editor>, renderer: Option<Value -> Value>): ObjectGrid.RowDef
  {
    ObjectGrid.RowDef(header, defaultValue, false, Undefined, editor, "", renderer)
  }

  /** The option rows, their defaults, and the editors the user's VM and node capabilities allow. */
  function Rows(vmCaps: set<string>, nodeCaps: set<string>, formatBoolean: Value -> Value, renderStartup: Value -> Value,
                unknownText: string): (r: map<string, ObjectGrid.RowDef>)
    ensures r.Keys == {"onboot", "startup", "ostype", "arch", "console", "tty", "cmode", "protection"}
  {
    var options := "VM.Config.Options" in vmCaps;
    map[
      "onboot" := Row("Start at boot", Str(""), ObjectGrid.Gate(options, ObjectGrid.WindowConfig("Start at boot", "onboot")), Some(formatBoolean)),
      "startup" := Row("Start/Shutdown order", Str(""), ObjectGrid.Gate(options && "Sys.Modify" in nodeCaps, ObjectGrid.ClassName("PVE.qemu.StartupEdit")),
                       Some(renderStartup)),
      "ostype" := Row("OS Type", Str(unknownText), None, None),
      "arch" := Row("Architecture", Str(unknownText), None, None),
      "console" := Row("Enable /dev/console", Num(1), ObjectGrid.Gate(options, ObjectGrid.WindowConfig("Enable /dev/console", "console")),
                       Some(formatBoolean)),
      "tty" := Row("TTY count", Num(TtyDefault), ObjectGrid.Gate(options, ObjectGrid.WindowConfig("TTY count", "tty")), None),
      "cmode" := Row("Console mode", Str("tty"), ObjectGrid.Gate(options, ObjectGrid.WindowConfig("Console mode", "cmode")), None),
      "protection" := Row("CT protection", Bool(false), ObjectGrid.Gate(options, ObjectGrid.WindowConfig("CT protection", "protection")),
                          Some(formatBoolean))
    ]
  }

  /**
   * No row has an editor without VM.Config.Options; the start order needs
   * Sys.Modify on the node as well; OS type and architecture have none;
   * every other row has one exactly with VM.Config.Options.
   */
  lemma EditorsNeedCaps(vmCaps: set<string>, nodeCaps: set<string>, formatBoolean: Value -> Value,
                        renderStartup: Value -> Value, unknownText: string, key: string)
    requires key in Rows(vmCaps, nodeCaps, formatBoolean, renderStartup, unknownText)
    ensures var d := Rows(vmCaps, nodeCaps, formatBoolean, renderStartup, unknownText)[key];
            && (d.editor.Some? ==> "VM.Config.Options" in vmCaps)
            && (key == "startup" ==> (d.editor.Some? <==> "VM.Config.Options" in vmCaps && "Sys.Modify" in nodeCaps))
            && (key in {"ostype", "arch"} ==> d.editor.None?)
            && (key !in {"startup", "ostype", "arch"} ==> (d.editor.Some? <==> "VM.Config.Options" in vmCaps))
  {
  }

  /** The window run_editor opens: its editor, the key it edits and the config URL; a configured window loads itself. */
  datatype Opened = Opened(editor: ObjectGrid.Editor, confid: string, url: string, loads: bool)

  /**
   * run_editor: nothing without a selection or for a row without an
   * editor; otherwise the row's editor is opened on the configuration.
   */
  function RunEditor(rows: map<string, ObjectGrid.RowDef>, sel: Option<string>, baseurl: string): (r: Result<Option<Opened>>)
    ensures sel.None? ==> r == Ok(None)
    ensures sel.Some? && sel.value !in rows ==> r == Err(TypeError)
    ensures sel.Some? && sel.value in rows ==> r.Ok? && (r.value.Some? <==> rows[sel.value].editor.Some?)
    ensures r.Ok? && r.value.Some? ==>
              && r.value.value.editor == rows[sel.value].editor.value
              && r.value.value.confid == sel.value
              && r.value.value.url == "/api2/extjs/" + baseurl
              && (r.value.value.loads <==> r.value.value.editor.WindowConfig?)
  {
    match sel
    case None => Ok(None)
    case Some(key) =>
      if key !in rows then Err(TypeError)
      else match rows[key].editor
        case None => Ok(None)
        case Some(e) => Ok(Some(Opened(e, key, "/api2/extjs/" + baseurl, e.WindowConfig?)))
  }

  /** enableFn of the Edit button: a selected row with an editor. */
  function EditEnabled(rows: map<string, ObjectGrid.RowDef>, key: string): (r: Result<bool>)
    ensures key !in rows <==> r == Err(TypeError)
    ensures r.Ok? ==> (r.value <==> rows[key].editor.Some?)
  {
    if key !in rows then Err(TypeError) else Ok(rows[key].editor.Some?)
  }

  /** Edit is enabled on a row exactly when running the editor there opens a window. */
  lemma EditEnabledOpens(rows: map<string, ObjectGrid.RowDef>, key: string, baseurl: string)
    requires key in rows
    ensures EditEnabled(rows, key) == Ok(RunEditor(rows, Some(key), baseurl).value.Some?)
  {
  }

  /** The config the options view loads and edits. */
  function ConfigUrl(selNode: Obj): (r: Result<string>)
    ensures r.Err? <==> Common.GuestIds(selNode).Err?
    ensures r.Ok? ==> r.value == "nodes/" + ToStr(Get(selNode, "node")) + "/lxc/" + ToStr(Get(selNode, "vmid")) + "/config"
  {
    match Common.GuestIds(selNode)
    case Err(msg) => Err(msg)
    case Ok((node, vmid)) => Ok("nodes/" + ToStr(node) + "/lxc/" + ToStr(vmid) + "/config")
  }

  /**
   * getSubmitData of the TTY count: a value other than null, empty and
   * '2' is submitted; otherwise tty is deleted.
   */
  function TtySubmit(val: Option<string>): (r: Obj)
    ensures val.Some? && val.value != "" && val.value != "2" ==> r == map["tty" := Str(val.value)]
    ensures !(val.Some? && val.value != "" && val.value != "2") ==> r == map["delete" := Str("tty")]
  {
    if val.Some? && val.value != "" && val.value != "2" then map["tty" := Str(val.value)]
    else map["delete" := Str("tty")]
  }

  /** The counts the field accepts: 0 to 6. */
  predicate TtyAccepts(v: int)
  {
    TtyMin <= v <= TtyMax
  }

  lemma NatToStringTwo(v: nat)
    ensures NatToString(v) == "2" <==> v == 2
  {
    if v >= 10 {
      assert |NatToString(v)| >= 2 by {
        assert NatToString(v) == NatToString(v / 10) + NatToString(v % 10);
      }
    }
  }

  /**
   * A count the field accepts survives submission: one other than 2 is
   * stored as itself, and 2 is deleted, which the grid shows as its
   * default of 2.
   */
  lemma TtyRoundTrip(v: nat, vmCaps: set<string>, nodeCaps: set<string>, formatBoolean: Value -> Value,
                     renderStartup: Value -> Value, unknownText: string)
    requires TtyAccepts(v)
    ensures var r := TtySubmit(Some(NatToString(v)));
            && ("tty" in r <==> v != TtyDefault)
            && ("tty" in r ==> ParseInt(ToStr(r["tty"])) == Some(v))
            && ("tty" !in r ==> Rows(vmCaps, nodeCaps, formatBoolean, renderStartup, unknownText)["tty"].defaultValue == Num(v))
  {
    NatToStringTwo(v);
    ParseIntOfNatString(v);
  }
}
