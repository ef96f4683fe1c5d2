/**
 * The resources view of a container (PVE.lxc.RessourceView): an object grid
 * with rows for memory, swap, CPU limit, CPU units, the root disk and ten
 * mount points, an Edit button gated by the row's editor and a Resize button
 * for the disk rows.
 *
 * PVE.Utils.format_size and noneText are not part of this model: they are
 * parameters, format_size taking the byte count or None for NaN.
 */
module LxcResources {
  import opened Js
  import Common
  import ObjectGrid
  import LxcMountPoint

  const StorageCls: string := "pve-itype-icon-storage"
  /** The mount point rows: mp0 to mp9. */
  const MpRowCount: nat := 10
  const MiB: int := 1024 * 1024

  /** A value read as mebibytes, in bytes: NaN (None) stays NaN. */
  function MiBBytes(v: Value): (r: Option<int>)
    ensures r.Some? <==> ToNumber(v).Some?
    ensures r.Some? ==> r.value == ToNumber(v).value * MiB
  {
    match ToNumber(v)
    case None => None
    case Some(n) => Some(n * MiB)
  }

  /** The renderer of the CPU limit: a falsy limit shows as unlimited, any other value as it is. */
  function CpuLimitText(v: Value, unlimited: string): (r: Value)
    ensures Truthy(v) ==> r == v
    ensures !Truthy(v) ==> r == Str(unlimited)
  {
    if Truthy(v) then v else Str(unlimited)
  }

  /** The renderer of memory and swap: the size of the value taken as mebibytes. */
  function MiBRenderer(formatSize: Option<int> -> Value): Value -> Value
  {
    v => formatSize(MiBBytes(v))
  }

  function CpuLimitRenderer(unlimited: string): Value -> Value
  {
    v => CpuLimitText(v, unlimited)
  }

  /** The row of a setting with an editor the capability allows, a default and an icon. */
  function Setting(header: string, dflt: int, editor: Option<ObjectGrid.Editor>, cls: string,
                   renderer: Option<Value -> Value>): ObjectGrid.RowDef
  {
    ObjectGrid.RowDef(header, Num(dflt), false, Undefined, editor, cls, renderer)
  }

  /** The five fixed rows. */
  function BaseRows(vmCaps: set<string>, formatSize: Option<int> -> Value, noneText: string, unlimited: string)
    : (r: map<string, ObjectGrid.RowDef>)
    ensures r.Keys == {"memory", "swap", "cpulimit", "cpuunits", "rootfs"}
  {
    var memory := ObjectGrid.Gate("VM.Config.Memory" in vmCaps, ObjectGrid.ClassName("PVE.lxc.MemoryEdit"));
    var cpu := ObjectGrid.Gate("VM.Config.CPU" in vmCaps, ObjectGrid.ClassName("PVE.lxc.CPUEdit"));
    map[
      "memory" := Setting("Memory", 512, memory, "pve-itype-icon-memory", Some(MiBRenderer(formatSize))),
      "swap" := Setting("Swap", 512, memory, "pve-itype-icon-swap", Some(MiBRenderer(formatSize))),
      "cpulimit" := Setting("CPU limit", 1, cpu, "pve-itype-icon-processor", Some(CpuLimitRenderer(unlimited))),
      "cpuunits" := Setting("CPU units", 1024, cpu, "pve-itype-icon-processor", None),
      "rootfs" := ObjectGrid.RowDef("Root Disk", Str(noneText), false, Undefined, None, StorageCls, None)
    ]
  }

  /** A row the Resize button acts on. */
  predicate IsDisk(d: ObjectGrid.RowDef)
  {
    d.tdCls == StorageCls
  }

  /** The row of mount point i: a storage row without editor or default. */
  function MpRow(i: nat): ObjectGrid.RowDef
  {
    ObjectGrid.RowDef("Mount Point (" + LxcMountPoint.MpName(i) + ")", Undefined, false, Undefined, None, StorageCls, None)
  }

  /** Distinct mount points have distinct keys. */
  lemma MpNamesInjective()
    ensures forall i: nat, j: nat :: LxcMountPoint.MpName(i) == LxcMountPoint.MpName(j) ==> i == j
  {
    forall i: nat, j: nat | LxcMountPoint.MpName(i) == LxcMountPoint.MpName(j)
      ensures i == j
    {
      var a := LxcMountPoint.MpName(i);
      assert a[2..] == NatToString(i);
      assert LxcMountPoint.MpName(j)[2..] == NatToString(j);
    }
  }

  /** A key starting with "mp", as every mount point's does. */
  predicate IsMpKey(k: string)
  {
    |k| >= 2 && k[0] == 'm' && k[1] == 'p'
  }

  lemma MpKeyOf(i: nat)
    ensures IsMpKey(LxcMountPoint.MpName(i))
  {
  }

  lemma MpNameDistinct(i: nat, j: nat)
    requires i != j
    ensures LxcMountPoint.MpName(i) != LxcMountPoint.MpName(j)
  {
    MpNamesInjective();
  }

  /** The first n mount point rows. */
  function MpRows(n: nat): (r: map<string, ObjectGrid.RowDef>)
    ensures forall i :: 0 <= i < n ==> LxcMountPoint.MpName(i) in r && r[LxcMountPoint.MpName(i)] == MpRow(i)
    ensures forall k :: k in r ==> IsMpKey(k) && IsDisk(r[k]) && r[k].editor.None?
  {
    MpNamesInjective();
    forall i | 0 <= i < n
      ensures IsMpKey(LxcMountPoint.MpName(i))
    {
      MpKeyOf(i);
    }
    map i | 0 <= i < n :: LxcMountPoint.MpName(i) := MpRow(i)
  }

  /** One more mount point row. */
  lemma MpRowsNext(n: nat)
    ensures MpRows(n + 1) == MpRows(n)[LxcMountPoint.MpName(n) := MpRow(n)]
  {
    var a, b := MpRows(n + 1), MpRows(n)[LxcMountPoint.MpName(n) := MpRow(n)];
    forall k | k in a
      ensures k in b && a[k] == b[k]
    {
      MpRowsGrow(n, k);
    }
    MpRowsOld(n);
    assert a.Keys == b.Keys;
  }

  lemma MpRowsGrow(n: nat, k: string)
    requires k in MpRows(n + 1)
    ensures k in MpRows(n)[LxcMountPoint.MpName(n) := MpRow(n)]
    ensures MpRows(n + 1)[k] == MpRows(n)[LxcMountPoint.MpName(n) := MpRow(n)][k]
  {
    var i :| 0 <= i < n + 1 && k == LxcMountPoint.MpName(i);
    if i < n {
      MpNameDistinct(i, n);
      assert k in MpRows(n) && MpRows(n)[k] == MpRow(i);
    }
  }

  lemma MpRowsOld(n: nat)
    ensures forall k :: k in MpRows(n) ==> k in MpRows(n + 1)
  {
    forall k | k in MpRows(n)
      ensures k in MpRows(n + 1)
    {
      var i :| 0 <= i < n && k == LxcMountPoint.MpName(i);
      assert MpRows(n + 1)[LxcMountPoint.MpName(i)] == MpRow(i);
    }
  }

  lemma UpdateUnion<K, V>(b: map<K, V>, m: map<K, V>, k: K, v: V)
    ensures (b + m)[k := v] == b + m[k := v]
  {
  }

  /** The rows of the view: the fixed rows and mp0 to mp9. */
  function Table(vmCaps: set<string>, formatSize: Option<int> -> Value, noneText: string, unlimited: string)
    : map<string, ObjectGrid.RowDef>
  {
    BaseRows(vmCaps, formatSize, noneText, unlimited) + MpRows(MpRowCount)
  }

  /** initComponent's row table: the fixed rows, then a row per mount point, added one by one. */
  method Rows(vmCaps: set<string>, formatSize: Option<int> -> Value, noneText: string, unlimited: string)
    returns (rows: map<string, ObjectGrid.RowDef>)
    ensures rows == Table(vmCaps, formatSize, noneText, unlimited)
  {
    var base := BaseRows(vmCaps, formatSize, noneText, unlimited);
    rows := base;
    assert MpRows(0) == map[];
    assert rows == base + MpRows(0);
    for i := 0 to MpRowCount
      invariant rows == base + MpRows(i)
    {
      UpdateUnion(base, MpRows(i), LxcMountPoint.MpName(i), MpRow(i));
      MpRowsNext(i);
      rows := rows[LxcMountPoint.MpName(i) := MpRow(i)];
    }
  }

  /** On a fixed row's key the table holds the fixed row. */
  lemma TableAtBase(vmCaps: set<string>, formatSize: Option<int> -> Value, noneText: string, unlimited: string, k: string)
    requires k in BaseRows(vmCaps, formatSize, noneText, unlimited)
    ensures k in Table(vmCaps, formatSize, noneText, unlimited)
    ensures Table(vmCaps, formatSize, noneText, unlimited)[k] == BaseRows(vmCaps, formatSize, noneText, unlimited)[k]
    ensures k !in MpRows(MpRowCount)
  {
    if k in MpRows(MpRowCount) {
      assert false;
    }
  }

  /** The table holds the fixed rows and the mount points, and nothing else. */
  lemma TableKeys(vmCaps: set<string>, formatSize: Option<int> -> Value, noneText: string, unlimited: string, k: string)
    ensures k in Table(vmCaps, formatSize, noneText, unlimited) <==>
              k in {"memory", "swap", "cpulimit", "cpuunits", "rootfs"} || exists i :: 0 <= i < MpRowCount && k == LxcMountPoint.MpName(i)
  {
  }

  /** Memory and swap are edited only with VM.Config.Memory, the CPU rows only with VM.Config.CPU; none of them is a disk. */
  lemma TableEditors(vmCaps: set<string>, formatSize: Option<int> -> Value, noneText: string, unlimited: string, k: string)
    requires k in {"memory", "swap", "cpulimit", "cpuunits"}
    ensures var t := Table(vmCaps, formatSize, noneText, unlimited);
            && k in t && !IsDisk(t[k])
            && (k in {"memory", "swap"} ==> (t[k].editor.Some? <==> "VM.Config.Memory" in vmCaps))
            && (k in {"cpulimit", "cpuunits"} ==> (t[k].editor.Some? <==> "VM.Config.CPU" in vmCaps))
  {
    TableAtBase(vmCaps, formatSize, noneText, unlimited, k);
    BaseEditors(vmCaps, formatSize, noneText, unlimited, k);
  }

  lemma BaseEditors(vmCaps: set<string>, formatSize: Option<int> -> Value, noneText: string, unlimited: string, k: string)
    requires k in {"memory", "swap", "cpulimit", "cpuunits"}
    ensures var d := BaseRows(vmCaps, formatSize, noneText, unlimited)[k];
            && !IsDisk(d)
            && (k in {"memory", "swap"} ==> (d.editor.Some? <==> "VM.Config.Memory" in vmCaps))
            && (k in {"cpulimit", "cpuunits"} ==> (d.editor.Some? <==> "VM.Config.CPU" in vmCaps))
  {
  }

  /** The root disk and the mount points are the disks, and none of them has an editor. */
  lemma TableDisks(vmCaps: set<string>, formatSize: Option<int> -> Value, noneText: string, unlimited: string, k: string)
    requires k in Table(vmCaps, formatSize, noneText, unlimited)
    ensures var t := Table(vmCaps, formatSize, noneText, unlimited);
            && (IsDisk(t[k]) <==> k == "rootfs" || k in MpRows(MpRowCount))
            && (IsDisk(t[k]) ==> t[k].editor.None?)
  {
    if k in BaseRows(vmCaps, formatSize, noneText, unlimited) {
      TableAtBase(vmCaps, formatSize, noneText, unlimited, k);
      BaseDisk(vmCaps, formatSize, noneText, unlimited, k);
    } else {
      TableAtMp(vmCaps, formatSize, noneText, unlimited, k);
    }
  }

  /** Among the fixed rows only the root disk is a disk, and it has no editor. */
  lemma BaseDisk(vmCaps: set<string>, formatSize: Option<int> -> Value, noneText: string, unlimited: string, k: string)
    requires k in BaseRows(vmCaps, formatSize, noneText, unlimited)
    ensures var d := BaseRows(vmCaps, formatSize, noneText, unlimited)[k];
            (IsDisk(d) <==> k == "rootfs") && (IsDisk(d) ==> d.editor.None?)
  {
    if k == "rootfs" {
      RootfsRow(vmCaps, formatSize, noneText, unlimited);
    } else {
      BaseEditors(vmCaps, formatSize, noneText, unlimited, k);
    }
  }

  /** A key outside the fixed rows is a mount point's disk row. */
  lemma TableAtMp(vmCaps: set<string>, formatSize: Option<int> -> Value, noneText: string, unlimited: string, k: string)
    requires k in Table(vmCaps, formatSize, noneText, unlimited)
    requires k !in BaseRows(vmCaps, formatSize, noneText, unlimited)
    ensures var d := Table(vmCaps, formatSize, noneText, unlimited)[k];
            && k in MpRows(MpRowCount) && k != "rootfs" && IsDisk(d) && d.editor.None?
  {
    var m := MpRows(MpRowCount);
    assert k in m;
    assert IsMpKey(k);
  }

  /** The root disk row is a disk without an editor. */
  lemma RootfsRow(vmCaps: set<string>, formatSize: Option<int> -> Value, noneText: string, unlimited: string)
    ensures var d := BaseRows(vmCaps, formatSize, noneText, unlimited)["rootfs"];
            IsDisk(d) && d.editor.None?
  {
  }

  /** The mebibyte renderer on a number and on undefined. */
  lemma MiBRendered(formatSize: Option<int> -> Value, n: int)
    ensures MiBRenderer(formatSize)(Num(n)) == formatSize(Some(n * MiB))
    ensures MiBRenderer(formatSize)(Undefined) == formatSize(None)
  {
    assert MiBRenderer(formatSize)(Num(n)) == formatSize(MiBBytes(Num(n)));
    assert MiBRenderer(formatSize)(Undefined) == formatSize(MiBBytes(Undefined));
  }

  /** Memory and swap are rendered in mebibytes. */
  lemma BaseMiBRows(vmCaps: set<string>, formatSize: Option<int> -> Value, noneText: string, unlimited: string)
    ensures var base := BaseRows(vmCaps, formatSize, noneText, unlimited);
            && base["memory"].renderer == Some(MiBRenderer(formatSize))
            && base["swap"].renderer == Some(MiBRenderer(formatSize))
  {
  }

  /** Memory and swap show the size of their value in mebibytes. */
  lemma MemoryRendered(vmCaps: set<string>, formatSize: Option<int> -> Value, noneText: string, unlimited: string, n: int)
    ensures var t := Table(vmCaps, formatSize, noneText, unlimited);
            && ObjectGrid.RenderValue(Some(t), "memory", Num(n)) == formatSize(Some(n * MiB))
            && ObjectGrid.RenderValue(Some(t), "swap", Num(n)) == formatSize(Some(n * MiB))
            && ObjectGrid.RenderValue(Some(t), "memory", Undefined) == formatSize(None)
  {
    var t, base := Table(vmCaps, formatSize, noneText, unlimited), BaseRows(vmCaps, formatSize, noneText, unlimited);
    TableAtBase(vmCaps, formatSize, noneText, unlimited, "memory");
    TableAtBase(vmCaps, formatSize, noneText, unlimited, "swap");
    BaseMiBRows(vmCaps, formatSize, noneText, unlimited);
    MiBRendered(formatSize, n);
    assert ObjectGrid.RowOf(Some(t), "memory") == Some(base["memory"]);
    assert ObjectGrid.RowOf(Some(t), "swap") == Some(base["swap"]);
  }

  /**
   * The CPU limit shows 'unlimited' for no limit (0 or empty) and the value
   * otherwise; the text "0" is truthy and shows as itself.
   */
  lemma CpuLimitRendered(unlimited: string, n: int)
    ensures CpuLimitText(Num(n), unlimited) == (if n == 0 then Str(unlimited) else Num(n))
    ensures CpuLimitText(Str(""), unlimited) == Str(unlimited)
    ensures CpuLimitText(Str("0"), unlimited) == Str("0")
  {
  }

  /** The selected record: its key, and whether it is pending deletion. */
  datatype Selected = Selected(key: string, pendingDelete: Value)

  /** Whether Edit and Resize are disabled. */
  datatype Buttons = Buttons(editDisabled: bool, resizeDisabled: bool)

  /**
   * set_button_status: without a selection both buttons are disabled;
   * otherwise Edit is disabled for a row pending deletion or without an
   * editor, and Resize for every row but a disk. A key without a row throws.
   */
  function ButtonStatus(rows: map<string, ObjectGrid.RowDef>, sel: Option<Selected>): (r: Result<Buttons>)
    ensures sel.None? ==> r == Ok(Buttons(true, true))
    ensures sel.Some? ==> (r.Err? <==> sel.value.key !in rows)
    ensures r.Err? ==> r.msg == TypeError
    ensures sel.Some? && r.Ok? ==>
              && (r.value.editDisabled <==> Truthy(sel.value.pendingDelete) || rows[sel.value.key].editor.None?)
              && (r.value.resizeDisabled <==> !IsDisk(rows[sel.value.key]))
  {
    match sel
    case None => Ok(Buttons(true, true))
    case Some(s) =>
      if s.key !in rows then Err(TypeError)
      else Ok(Buttons(Truthy(s.pendingDelete) || rows[s.key].editor.None?, !IsDisk(rows[s.key])))
  }

  /** The Edit button's own enableFn: a selected row with an editor. */
  function EditEnabled(rows: map<string, ObjectGrid.RowDef>, sel: Option<Selected>): (r: Result<bool>)
    ensures sel.None? ==> r == Ok(false)
    ensures sel.Some? ==> (r.Err? <==> sel.value.key !in rows)
    ensures r.Err? ==> r.msg == TypeError
    ensures sel.Some? && r.Ok? ==> (r.value <==> rows[sel.value.key].editor.Some?)
  {
    match sel
    case None => Ok(false)
    case Some(s) => if s.key !in rows then Err(TypeError) else Ok(rows[s.key].editor.Some?)
  }

  /**
   * The Edit button's enableFn and set_button_status agree on every row not
   * pending deletion; on a row pending deletion only the latter disables it.
   */
  lemma EditAgrees(rows: map<string, ObjectGrid.RowDef>, sel: Option<Selected>)
    ensures ButtonStatus(rows, sel).Ok? <==> EditEnabled(rows, sel).Ok?
    ensures ButtonStatus(rows, sel).Ok? && (sel.None? || !Truthy(sel.value.pendingDelete)) ==>
              ButtonStatus(rows, sel).value.editDisabled == !EditEnabled(rows, sel).value
  {
  }

  /**
   * On the view's own rows: a disk can be resized but not edited; memory
   * and CPU rows can be edited (with the capability) but not resized.
   */
  lemma DiskButtons(vmCaps: set<string>, formatSize: Option<int> -> Value, noneText: string, unlimited: string, key: string)
    requires key in Table(vmCaps, formatSize, noneText, unlimited)
    ensures var b := ButtonStatus(Table(vmCaps, formatSize, noneText, unlimited), Some(Selected(key, Undefined)));
            && b.Ok?
            && (!b.value.resizeDisabled ==> b.value.editDisabled)
            && (key in {"memory", "swap"} ==> b.value.resizeDisabled && (b.value.editDisabled <==> "VM.Config.Memory" !in vmCaps))
            && (key in {"cpulimit", "cpuunits"} ==> b.value.resizeDisabled && (b.value.editDisabled <==> "VM.Config.CPU" !in vmCaps))
  {
    if key in {"memory", "swap", "cpulimit", "cpuunits"} {
      TableEditors(vmCaps, formatSize, noneText, unlimited, key);
    }
    TableDisks(vmCaps, formatSize, noneText, unlimited, key);
  }

  /** The edit window run_editor opens: the row's editor class on the key, with the config URL. */
  datatype Editing = Editing(editor: ObjectGrid.Editor, confid: string, url: string)

  /**
   * run_editor: nothing without a selection or for a row without an
   * editor; otherwise the row's editor is created on the configuration.
   * A key without a row throws.
   */
  function RunEditor(rows: map<string, ObjectGrid.RowDef>, sel: Option<Selected>, baseurl: string): (r: Result<Option<Editing>>)
    ensures sel.None? ==> r == Ok(None)
    ensures sel.Some? ==> (r.Err? <==> sel.value.key !in rows)
    ensures r.Err? ==> r.msg == TypeError
    ensures sel.Some? && r.Ok? ==> (r.value.Some? <==> rows[sel.value.key].editor.Some?)
    ensures r.Ok? && r.value.Some? ==>
              && r.value.value.editor == rows[sel.value.key].editor.value
              && r.value.value.confid == sel.value.key
              && r.value.value.url == "/api2/extjs/" + baseurl
  {
    match sel
    case None => Ok(None)
    case Some(s) =>
      if s.key !in rows then Err(TypeError)
      else match rows[s.key].editor
        case None => Ok(None)
        case Some(e) => Ok(Some(Editing(e, s.key, "/api2/extjs/" + baseurl)))
  }

  /**
   * On a selected row not pending deletion, set_button_status enables Edit
   * exactly when running the editor opens a window.
   */
  lemma EditButtonOpens(rows: map<string, ObjectGrid.RowDef>, key: string, pendingDelete: Value, baseurl: string)
    requires key in rows && !Truthy(pendingDelete)
    ensures var b := ButtonStatus(rows, Some(Selected(key, pendingDelete)));
            var w := RunEditor(rows, Some(Selected(key, pendingDelete)), baseurl);
            b.Ok? && w.Ok? && (!b.value.editDisabled <==> w.value.Some?)
  {
  }

  /** The Resize window: the selected disk on the container. */
  datatype Resize = Resize(disk: string, nodename: Value, vmid: Value)

  /** run_resize: nothing without a selection, otherwise a resize window for the selected key. */
  function RunResize(sel: Option<Selected>, nodename: Value, vmid: Value): (r: Option<Resize>)
    ensures r.Some? <==> sel.Some?
    ensures r.Some? ==> r.value.disk == sel.value.key && r.value.nodename == nodename && r.value.vmid == vmid
  {
    match sel
    case None => None
    case Some(s) => Some(Resize(s.key, nodename, vmid))
  }

  /** The view needs a node name and a container id; it loads its rows from the container's configuration. */
  function Url(selNode: Obj): (r: Result<string>)
    ensures r.Err? <==> Common.GuestIds(selNode).Err?
    ensures r.Err? ==> r == Err(Common.GuestIds(selNode).msg)
    ensures r.Ok? ==> r.value == "/api2/json/nodes/" + ToStr(Get(selNode, "node")) + "/lxc/" + ToStr(Get(selNode, "vmid")) + "/config"
  {
    match Common.GuestIds(selNode)
    case Err(msg) => Err(msg)
    case Ok((node, vmid)) => Ok("/api2/json/nodes/" + ToStr(node) + "/lxc/" + ToStr(vmid) + "/config")
  }

  /** renderKey: the row's header (or the key), and the row's icon class when it has one. */
  function KeyCell(rows: map<string, ObjectGrid.RowDef>, key: string): (r: (string, Option<string>))
    ensures r.0 == ObjectGrid.RenderKey(Some(rows), key)
    ensures r.1.Some? <==> key in rows && rows[key].tdCls != ""
    ensures r.1.Some? ==> r.1.value == rows[key].tdCls
  {
    (ObjectGrid.RenderKey(Some(rows), key), if key in rows && rows[key].tdCls != "" then Some(rows[key].tdCls) else None)
  }
}
