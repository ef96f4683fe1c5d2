/**
 * The editors of LVM, ZFS pool and BTRFS storages (PVE.storage.LVMEdit,
 * PVE.storage.ZFSPoolEdit, PVE.storage.BTRFSEdit and their input panels):
 * the form keeps an Enable box that the storage configuration stores
 * inverted as `disable`, and lists that the configuration stores as
 * comma-separated text.
 */
module StorageEdit {
  import opened Js
  import Common

  const StorageBase: string := "/api2/extjs/storage"
  const ExistingGroupsText: string := "Existing volume groups"

  datatype Kind = LVM | ZFSPool | BTRFS

  /** The storage type a new storage of each editor gets. */
  function TypeName(kind: Kind): string
  {
    match kind
    case LVM => "lvm"
    case ZFSPool => "zfspool"
    case BTRFS => "btrfs"
  }

  /**
   * onGetValues: a new storage gets its type (and, for LVM, the content
   * 'images'); an existing one drops its storage id.  The Enable box is
   * stored inverted as disable.
   */
  method OnGetValues(kind: Kind, create: bool, values: Obj) returns (r: Obj)
    ensures create ==> Get(r, "type") == Str(TypeName(kind))
    ensures create && kind == LVM ==> Get(r, "content") == Str("images")
    ensures !create ==> "storage" !in r
    ensures Get(r, "disable") == Num(if Truthy(Get(values, "enable")) then 0 else 1)
    ensures "enable" !in r
    ensures forall k :: k in values && k !in {"type", "content", "storage", "disable", "enable"} ==> k in r && r[k] == values[k]
    ensures forall k :: k in r ==> k in values || k in {"type", "content", "disable"}
    ensures !create ==> forall k :: k in values && k !in {"storage", "disable", "enable"} ==> k in r && r[k] == values[k]
    ensures !create ==> forall k :: k in r ==> k in values || k == "disable"
    ensures !(create && kind == LVM) ==> Get(r, "content") == Get(values, "content")
    ensures create ==> Get(r, "storage") == Get(values, "storage")
  {
    r := values;
    if create {
      r := r["type" := Str(TypeName(kind))];
      if kind == LVM {
        r := r["content" := Str("images")];
      }
    } else {
      r := r - {"storage"};
    }
    r := r["disable" := Num(if Truthy(Get(r, "enable")) then 0 else 1)];
    r := r - {"enable"};
  }

  /**
   * The load callback of an existing storage: the ZFS pool and BTRFS
   * editors split content on commas (none giving one empty entry), all
   * split a set nodes list, and Enable is the inverse of disable.
   */
  method LoadValues(kind: Kind, values: Obj) returns (r: Obj)
    ensures kind != LVM ==> Get(r, "content") == List(Split(if Truthy(Get(values, "content")) then ToStr(values["content"]) else "", ','))
    ensures kind == LVM ==> Get(r, "content") == Get(values, "content")
    ensures Truthy(Get(values, "nodes")) ==> Get(r, "nodes") == List(Split(ToStr(values["nodes"]), ','))
    ensures !Truthy(Get(values, "nodes")) ==> Get(r, "nodes") == Get(values, "nodes")
    ensures Get(r, "enable") == Num(if Truthy(Get(values, "disable")) then 0 else 1)
    ensures forall k :: k in values && k !in {"content", "nodes", "enable"} ==> k in r && r[k] == values[k]
    ensures forall k :: k in r ==> k in values || k in {"content", "nodes", "enable"}
  {
    r := values;
    if kind != LVM {
      var ctypes := if Truthy(Get(r, "content")) then ToStr(r["content"]) else "";
      r := r["content" := List(Split(ctypes, ','))];
    }
    if Truthy(Get(r, "nodes")) {
      r := r["nodes" := List(Split(ToStr(r["nodes"]), ','))];
    }
    r := r["enable" := Num(if Truthy(Get(r, "disable")) then 0 else 1)];
  }

  /**
   * Loading a storage and submitting the form unchanged: the form reads back
   * only its own fields, so of the loaded options exactly those with a field
   * are sent again. It keeps whether the storage is disabled (through the
   * Enable box), gives back its nodes list joined as before, and sends every
   * other option of a field as it was loaded.
   */
  method LoadThenSubmit(kind: Kind, values: Obj, fields: set<string>) returns (r: Obj)
    ensures "enable" in fields ==> Get(r, "disable") == Num(if Truthy(Get(values, "disable")) then 1 else 0)
    ensures "storage" !in r && "enable" !in r
    ensures Truthy(Get(values, "nodes")) && "nodes" in fields ==>
              Get(r, "nodes") == List(Split(ToStr(values["nodes"]), ',')) && Join(Get(r, "nodes").items, ",") == ToStr(values["nodes"])
    ensures forall k :: k in values && k in fields && k !in {"content", "nodes", "enable", "disable", "storage"} ==> k in r && r[k] == values[k]
    ensures forall k :: k in r ==> k in fields || k == "disable"
  {
    var loaded := LoadValues(kind, values);
    r := OnGetValues(kind, false, FormValues(loaded, fields));
    if Truthy(Get(values, "nodes")) {
      JoinSplit(ToStr(values["nodes"]), ',');
    }
  }

  /** A content list loaded by the ZFS pool or BTRFS editor joins back to the stored text. */
  lemma ContentRoundTrip(kind: Kind, values: Obj, loaded: Obj)
    requires kind != LVM
    requires Get(loaded, "content") == List(Split(if Truthy(Get(values, "content")) then ToStr(values["content"]) else "", ','))
    ensures Join(Get(loaded, "content").items, ",") == if Truthy(Get(values, "content")) then ToStr(values["content"]) else ""
  {
    JoinSplit(if Truthy(Get(values, "content")) then ToStr(values["content"]) else "", ',');
  }

  /** The edit window of a storage: created with POST to the collection without an id, PUT to the storage otherwise. */
  lemma StorageWindow(storageId: Value)
    ensures var w := Common.OpenEdit(StorageBase, storageId);
            (w.create <==> !Truthy(storageId))
            && (w.create ==> w.verb == "POST" && w.url == "/api2/extjs/storage")
            && (!w.create ==> w.verb == "PUT" && w.url == "/api2/extjs/storage/" + ToStr(storageId))
  {
    var w := Common.OpenEdit(StorageBase, storageId);
    if !w.create {
      assert w.url == w.url[..|StorageBase| + 1] + w.url[|StorageBase| + 1..];
    }
  }

  /** The field that shows the ZFS pool: a pool selector on create, a display field otherwise. */
  function PoolField(create: bool): string
  {
    if create then "PVE.storage.ZFSPoolSelector" else "displayfield"
  }

  /** The second column of the ZFS pool panel: Nodes first unless the storage edited is 'local', then Enable and Thin provision. */
  method ZfsColumn2(create: bool, storageId: Value) returns (cols: seq<string>)
    ensures "nodes" in cols <==> create || !StrictEq(storageId, Str("local"))
    ensures |cols| >= 2 && cols[|cols| - 2..] == ["enable", "sparse"]
    ensures "nodes" in cols ==> cols[0] == "nodes"
  {
    cols := ["enable", "sparse"];
    if create || !StrictEq(storageId, Str("local")) {
      cols := ["nodes"] + cols;
    }
  }

  /** The text of an entry of the base storage selector: an iSCSI storage by name, the placeholder as existing groups. */
  function BaseText(storage: Value): string
  {
    if Truthy(storage) then ToStr(storage) + " (iSCSI)" else ExistingGroupsText
  }

  /**
   * The placeholder entry the selector starts with, with an empty storage,
   * reads as the existing volume groups, and no storage reads like it or
   * like another storage.
   */
  lemma PlaceholderText()
    ensures BaseText(Str("")) == ExistingGroupsText
    ensures forall s :: s != "" ==> BaseText(Str(s)) != ExistingGroupsText
    ensures forall a, b :: a != "" && b != "" && BaseText(Str(a)) == BaseText(Str(b)) ==> a == b
  {
    forall s | s != "" ensures BaseText(Str(s)) != ExistingGroupsText {
      var t := BaseText(Str(s));
      assert t[|t| - 1] == ')';
    }
    forall a, b | a != "" && b != "" && BaseText(Str(a)) == BaseText(Str(b)) ensures a == b {
      var t := BaseText(Str(a));
      assert t[..|t| - 8] == a;
      assert BaseText(Str(b))[..|t| - 8] == b;
    }
  }

  /** The LVM input panel of a new storage, with the three fields the base storage selector switches. */
  class LvmPanel {
    /** The volume group as text, used on top of a base volume. */
    var vgnameVisible: bool
    var vgnameDisabled: bool
    /** The volume group selector, used for an existing volume group. */
    var vgVisible: bool
    var vgDisabled: bool
    var baseVisible: bool
    var baseDisabled: bool
    /** The storage the base volume selector lists. */
    var baseStorage: Value

    /** Each field shows exactly when it is enabled, and exactly one of the two volume group fields is. */
    ghost predicate Valid()
      reads this
    {
      && vgnameVisible == !vgnameDisabled && vgVisible == !vgDisabled && baseVisible == !baseDisabled
      && vgnameDisabled != vgDisabled
      && baseDisabled == vgnameDisabled
    }

    constructor()
      ensures Valid()
      ensures vgnameDisabled && !vgDisabled && baseDisabled && baseStorage == Undefined
    {
      vgnameVisible, vgnameDisabled := false, true;
      vgVisible, vgDisabled := true, false;
      baseVisible, baseDisabled := false, true;
      baseStorage := Undefined;
    }

    /**
     * The change listener of the base storage selector: with a base
     * storage the volume group is typed and a base volume chosen; without
     * one the volume group is selected.
     */
    method OnBaseselChange(value: Value)
      modifies this
      ensures Valid()
      ensures Truthy(value) <==> !vgnameDisabled
      ensures Truthy(value) <==> vgDisabled
      ensures Truthy(value) <==> !baseDisabled
      ensures baseStorage == value
    {
      if Truthy(value) {
        vgnameVisible, vgnameDisabled := true, false;
        vgVisible, vgDisabled := false, true;
        baseVisible, baseDisabled := true, false;
      } else {
        vgnameVisible, vgnameDisabled := false, true;
        vgVisible, vgDisabled := true, false;
        baseVisible, baseDisabled := false, true;
      }
      baseStorage := value;
    }
  }
}
