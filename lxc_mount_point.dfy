/**
 * The container mount point editor (PVE.lxc.MountPointEdit and
 * PVE.lxc.MountPointInputPanel): it adds a new mount point, attaches an
 * unused disk image, or edits an existing mount point (or the root file
 * system), and prints the result back into one config option.
 *
 * PVE.Parser.parseLxcMountPoint and PVE.Parser.printLxcMountPoint are not
 * part of this model: they are parameters.
 */
module LxcMountPoint {
  import opened Js

  const InUseError: string := "Mount point is already in use."
  const ParseError: string := "Unable to parse mount point options"

  /** The number of mount points the selector offers, mp0 to mp7. */
  const MpCount: nat := 8

  /** A config key of the form unused<digits>: a disk image no longer attached. */
  predicate IsUnusedKey(k: string)
  {
    IsPrefix("unused", k) && |k| > 6 && AllDigits(k[6..])
  }

  function MpName(i: nat): string
  {
    "mp" + NatToString(i)
  }

  /** The names the mount point selector offers. */
  function MpNames(): (r: seq<string>)
    ensures |r| == MpCount && forall i :: 0 <= i < MpCount ==> r[i] == MpName(i)
  {
    seq(MpCount, i requires 0 <= i => MpName(i))
  }

  /** What the window edits, from the option it was opened for. */
  datatype Kind = Kind(unused: bool, create: bool, subject: string)

  /**
   * An option of the form unusedN is an unused disk; the window creates
   * when it has no option or an unused one, and otherwise edits the one it
   * names, which its title shows.
   */
  function WindowKind(confid: Value): (k: Kind)
    ensures k.unused <==> Truthy(confid) && IsUnusedKey(ToStr(confid))
    ensures k.create <==> !Truthy(confid) || k.unused
    ensures k.subject == if k.unused then "Unused Disk" else if k.create then "Mount Point" else "Mount Point (" + ToStr(confid) + ")"
  {
    var unused := Truthy(confid) && IsUnusedKey(ToStr(confid));
    var create := if Truthy(confid) then unused else true;
    Kind(unused, create,
         if unused then "Unused Disk" else if create then "Mount Point" else "Mount Point (" + ToStr(confid) + ")")
  }

  /** The lowest mpN from i on that the configuration does not define. */
  function FreeMp(vmconfig: Obj, i: nat): (r: Option<nat>)
    requires i <= MpCount
    ensures r.Some? ==> i <= r.value < MpCount && !Defined(vmconfig, MpName(r.value))
                        && forall j :: i <= j < r.value ==> Defined(vmconfig, MpName(j))
    ensures r.None? ==> forall j :: i <= j < MpCount ==> Defined(vmconfig, MpName(j))
    decreases MpCount - i
  {
    if i == MpCount then None
    else if !Defined(vmconfig, MpName(i)) then Some(i)
    else FreeMp(vmconfig, i + 1)
  }

  /** The mount point selector's validator: a name the configuration already defines is refused. */
  function MpselError(vmconfig: Obj, value: Value): (r: Option<string>)
    ensures r.Some? <==> Defined(vmconfig, ToStr(value))
    ensures r.Some? ==> r.value == InUseError
  {
    if Defined(vmconfig, ToStr(value)) then Some(InUseError) else None
  }

  /** The unused disk images of a configuration, which the disk image selector offers. */
  function UnusedDisks(vmconfig: Obj): (r: map<string, Value>)
    ensures forall k :: k in r <==> k in vmconfig && IsUnusedKey(k)
    ensures forall k :: k in r ==> r[k] == vmconfig[k]
  {
    map k | k in vmconfig && IsUnusedKey(k) :: vmconfig[k]
  }

  /** An option of the mount point data: None when it is absent. */
  function Lookup(d: Obj, k: string): (r: Option<Value>)
    ensures r.Some? <==> k in d
    ensures r.Some? ==> r.value == d[k]
  {
    if k in d then Some(d[k]) else None
  }

  /** Two objects that agree on every option are the same object. */
  lemma LookupExt(a: Obj, b: Obj)
    requires forall k :: Lookup(a, k) == Lookup(b, k)
    ensures a == b
  {
    assert forall k :: k in a <==> k in b by {
      forall k ensures k in a <==> k in b {
        assert Lookup(a, k).Some? == Lookup(b, k).Some?;
      }
    }
    forall k | k in a ensures a[k] == b[k] {
      assert Lookup(a, k) == Lookup(b, k);
    }
  }

  /** A flag option: 1 when the box is ticked, absent otherwise. */
  function FlagSlot(on: bool): Option<Value>
  {
    if on then Some(Num(1)) else None
  }

  function SetFlag(d: Obj, name: string, on: bool): (r: Obj)
    ensures Lookup(r, name) == FlagSlot(on)
    ensures forall k :: k != name ==> Lookup(r, k) == Lookup(d, k)
  {
    if on then d[name := Num(1)] else d - {name}
  }

  /** The options of the mount point data the submit sets from the form. */
  const Edited: set<string> := {"file", "mp", "ro", "quota", "acl", "backup"}

  /** The disk image a submit sets: the chosen unused image, a new volume of the given size, or the one kept. */
  function FileSlot(d: Obj, vmconfig: Obj, values: Obj, unused: bool, isCreate: bool): Option<Value>
  {
    if unused then Some(Get(vmconfig, ToStr(Get(values, "unusedId"))))
    else if isCreate then Some(Str(ToStr(Get(values, "storage")) + ":" + ToStr(Get(values, "disksize"))))
    else Lookup(d, "file")
  }

  function WithFile(d: Obj, vmconfig: Obj, values: Obj, unused: bool, isCreate: bool): (r: Obj)
    ensures Lookup(r, "file") == FileSlot(d, vmconfig, values, unused, isCreate)
    ensures forall k :: k != "file" ==> Lookup(r, k) == Lookup(d, k)
  {
    if unused then d["file" := Get(vmconfig, ToStr(Get(values, "unusedId")))]
    else if isCreate then d["file" := Str(ToStr(Get(values, "storage")) + ":" + ToStr(Get(values, "disksize")))]
    else d
  }

  /** The mount path a submit sets: the form's, except for the root file system, which has none. */
  function PathSlot(d: Obj, values: Obj, target: string): Option<Value>
  {
    if target != "rootfs" then Some(Get(values, "mp")) else Lookup(d, "mp")
  }

  function WithPath(d: Obj, values: Obj, target: string): (r: Obj)
    ensures Lookup(r, "mp") == PathSlot(d, values, target)
    ensures forall k :: k != "mp" ==> Lookup(r, k) == Lookup(d, k)
  {
    if target != "rootfs" then d["mp" := Get(values, "mp")] else d
  }

  /** The ACL option a submit sets: 'Default' removes it. */
  function AclSlot(acl: Value): Option<Value>
  {
    if StrictEq(acl, Str("Default")) then None else Some(acl)
  }

  function WithAcl(d: Obj, acl: Value): (r: Obj)
    ensures Lookup(r, "acl") == AclSlot(acl)
    ensures forall k :: k != "acl" ==> Lookup(r, k) == Lookup(d, k)
  {
    if StrictEq(acl, Str("Default")) then d - {"acl"} else d["acl" := acl]
  }

  /** The options a submit sets are six different keys. */
  lemma EditedKeysDistinct()
    ensures "file" != "mp" && "file" != "ro" && "file" != "quota" && "file" != "acl" && "file" != "backup"
    ensures "mp" != "ro" && "mp" != "quota" && "mp" != "acl" && "mp" != "backup"
    ensures "ro" != "quota" && "ro" != "acl" && "ro" != "backup"
    ensures "quota" != "acl" && "quota" != "backup" && "acl" != "backup"
  {
    assert "file"[0] == 'f' && "mp"[0] == 'm' && "ro"[0] == 'r';
    assert "quota"[0] == 'q' && "acl"[0] == 'a' && "backup"[0] == 'b';
  }

  /**
   * The mount point data after a submit, built the way the panel builds it:
   * disk image, path, the ro and quota flags, the ACL, the backup flag.
   */
  function SubmittedMp(d: Obj, vmconfig: Obj, values: Obj, unused: bool, isCreate: bool, target: string): Obj
  {
    var d1 := WithFile(d, vmconfig, values, unused, isCreate);
    var d2 := WithPath(d1, values, target);
    var d3 := SetFlag(d2, "ro", Truthy(Get(values, "ro")));
    var d4 := SetFlag(d3, "quota", Truthy(Get(values, "quota")));
    var d5 := WithAcl(d4, Get(values, "acl"));
    SetFlag(d5, "backup", Truthy(Get(values, "backup")))
  }

  /**
   * Option by option, what a submit leaves in the mount point data: the
   * disk image and path as chosen, a flag set to 1 exactly when its box is
   * ticked, the ACL unless it is 'Default', and every other option as it was.
   */
  function SubmittedSlot(d: Obj, vmconfig: Obj, values: Obj, unused: bool, isCreate: bool, target: string, k: string): Option<Value>
  {
    if k == "file" then FileSlot(d, vmconfig, values, unused, isCreate)
    else if k == "mp" then PathSlot(d, values, target)
    else if k == "ro" || k == "quota" || k == "backup" then FlagSlot(Truthy(Get(values, k)))
    else if k == "acl" then AclSlot(Get(values, "acl"))
    else Lookup(d, k)
  }

  /** The submitted mount point data has, in every option, what SubmittedSlot says. */
  lemma SubmittedSlots(d: Obj, vmconfig: Obj, values: Obj, unused: bool, isCreate: bool, target: string, k: string)
    ensures Lookup(SubmittedMp(d, vmconfig, values, unused, isCreate, target), k)
            == SubmittedSlot(d, vmconfig, values, unused, isCreate, target, k)
  {
    EditedKeysDistinct();
    hide WithFile, WithPath, SetFlag, WithAcl;
    var d1 := WithFile(d, vmconfig, values, unused, isCreate);
    var d2 := WithPath(d1, values, target);
    var d3 := SetFlag(d2, "ro", Truthy(Get(values, "ro")));
    var d4 := SetFlag(d3, "quota", Truthy(Get(values, "quota")));
    var d5 := WithAcl(d4, Get(values, "acl"));
    if k == "file" {
      assert Lookup(d5, k) == Lookup(d1, k);
    } else if k == "mp" {
      assert Lookup(d5, k) == Lookup(d2, k);
    } else if k == "ro" {
      assert Lookup(d5, k) == Lookup(d3, k);
    } else if k == "quota" {
      assert Lookup(d5, k) == Lookup(d4, k);
    } else if k != "acl" && k != "backup" {
      assert Lookup(d5, k) == Lookup(d, k);
    }
  }

  /** Submitting the same form twice gives the same mount point data as submitting it once. */
  lemma SubmitIdempotent(d: Obj, vmconfig: Obj, values: Obj, unused: bool, isCreate: bool, target: string)
    ensures var once := SubmittedMp(d, vmconfig, values, unused, isCreate, target);
            SubmittedMp(once, vmconfig, values, unused, isCreate, target) == once
  {
    hide SubmittedMp;
    var once := SubmittedMp(d, vmconfig, values, unused, isCreate, target);
    var twice := SubmittedMp(once, vmconfig, values, unused, isCreate, target);
    forall k ensures Lookup(twice, k) == Lookup(once, k) {
      SubmittedSlots(d, vmconfig, values, unused, isCreate, target, k);
      SubmittedSlots(once, vmconfig, values, unused, isCreate, target, k);
    }
    LookupExt(twice, once);
  }

  /**
   * The values the panel's fields start with: ACLs 'Default', an empty path
   * for any option but the root file system, and a disk size of 8 GB when a
   * new volume is created.
   */
  function PresetForm(confid: Value, unused: bool, isCreate: bool): (r: Obj)
    ensures r.Keys == {"acl"} + (if StrictEq(confid, Str("rootfs")) then {} else {"mp"}) + (if isCreate && !unused then {"disksize"} else {})
    ensures r["acl"] == Str("Default")
    ensures "mp" in r ==> r["mp"] == Str("")
    ensures "disksize" in r ==> r["disksize"] == Num(8)
  {
    var withPath := if StrictEq(confid, Str("rootfs")) then map["acl" := Str("Default")] else map["acl" := Str("Default"), "mp" := Str("")];
    if isCreate && !unused then withPath["disksize" := Num(8)] else withPath
  }

  /** The input panel. */
  class MountPointPanel {
    const confid: Value
    const unused: bool
    const isCreate: bool
    /** Whether the panel has the mount point selector (new mount point or unused disk). */
    const hasMpsel: bool
    var mpdata: Obj
    var vmconfig: Obj
    /** The values shown in the form's fields. */
    var form: Obj
    var unusedDisks: map<string, Value>
    var quotaDisabled: bool
    var aclDisabled: bool
    var backupDisabled: bool
    var storageDisabled: bool

    constructor(confid: Value, unused: bool, isCreate: bool)
      ensures this.confid == confid && this.unused == unused && this.isCreate == isCreate
      ensures hasMpsel <==> !Truthy(confid) || unused
      ensures mpdata == map[] && vmconfig == map[] && unusedDisks == map[]
      ensures form == PresetForm(confid, unused, isCreate)
      ensures !quotaDisabled && !aclDisabled && !backupDisabled && !storageDisabled
    {
      this.confid, this.unused, this.isCreate := confid, unused, isCreate;
      hasMpsel := !Truthy(confid) || unused;
      mpdata, vmconfig, unusedDisks := map[], map[], map[];
      form := PresetForm(confid, unused, isCreate);
      quotaDisabled, aclDisabled, backupDisabled, storageDisabled := false, false, false, false;
    }

    /** The option the submit writes: the edited one, or the chosen mount point for a new or unused disk. */
    function TargetKey(values: Obj): string
      reads this
    {
      if unused || !Truthy(confid) then ToStr(Get(values, "mpsel")) else ToStr(confid)
    }

    /** onGetValues: the mount point data is updated from the form and printed into exactly one option. */
    method OnGetValues(values: Obj, printMp: Obj -> string) returns (res: Obj)
      modifies this
      ensures mpdata == SubmittedMp(old(mpdata), vmconfig, values, unused, isCreate, TargetKey(values))
      ensures res == map[TargetKey(values) := Str(printMp(mpdata))]
      ensures vmconfig == old(vmconfig) && form == old(form)
    {
      var target := TargetKey(values);
      mpdata := SubmittedMp(mpdata, vmconfig, values, unused, isCreate, target);
      res := map[target := Str(printMp(mpdata))];
    }

    /**
     * setMountPoint: the parsed options become the mount point data, with
     * an ACL of 'Default' when none is set; a bind mount locks quota, ACL,
     * backup and storage.  The form then shows the data.
     */
    method SetMountPoint(mp: Obj)
      modifies this
      ensures mpdata == if Defined(mp, "acl") then mp else mp["acl" := Str("Default")]
      ensures StrictEq(Get(mp, "type"), Str("bind")) ==>
                && quotaDisabled && aclDisabled && backupDisabled && storageDisabled
                && form == old(form)["quota" := Bool(false)]["acl" := Str("Default")] + mpdata
      ensures !StrictEq(Get(mp, "type"), Str("bind")) ==>
                && quotaDisabled == old(quotaDisabled) && aclDisabled == old(aclDisabled)
                && backupDisabled == old(backupDisabled) && storageDisabled == old(storageDisabled)
                && form == old(form) + mpdata
      ensures vmconfig == old(vmconfig) && unusedDisks == old(unusedDisks)
    {
      var data := mp;
      if !Defined(data, "acl") {
        data := data["acl" := Str("Default")];
      }
      var shown := form;
      if StrictEq(Get(mp, "type"), Str("bind")) {
        quotaDisabled, aclDisabled, backupDisabled, storageDisabled := true, true, true, true;
        shown := shown["quota" := Bool(false)]["acl" := Str("Default")];
      }
      mpdata, form := data, shown + data;
    }

    /**
     * setVMConfig: the selector, when there is one, moves to the lowest free
     * mount point (and stays where it was when all eight are taken); the
     * disk image selector, for an unused disk, offers exactly the unused
     * images and selects the one the window was opened for.
     */
    method SetVMConfig(config: Obj)
      modifies this
      ensures vmconfig == config
      ensures hasMpsel && FreeMp(config, 0).Some? ==> Get(form, "mpsel") == Str(MpName(FreeMp(config, 0).value))
      ensures !(hasMpsel && FreeMp(config, 0).Some?) ==> Get(form, "mpsel") == Get(old(form), "mpsel")
      ensures unused ==> unusedDisks == UnusedDisks(config) && Get(form, "unusedId") == confid
      ensures !unused ==> unusedDisks == old(unusedDisks) && Get(form, "unusedId") == Get(old(form), "unusedId")
      ensures forall k :: k != "mpsel" && k != "unusedId" ==> Get(form, k) == Get(old(form), k)
      ensures mpdata == old(mpdata)
    {
      vmconfig := config;
      var shown := form;
      if hasMpsel {
        var free := FirstFreeMp(config);
        if free.Some? {
          shown := shown["mpsel" := Str(MpName(free.value))];
        }
      }
      if unused {
        unusedDisks := UnusedDisks(config);
        shown := shown["unusedId" := confid];
      }
      form := shown;
    }
  }

  /** The loop of setVMConfig over mp0..mp7: the first name the config leaves undefined. */
  method FirstFreeMp(config: Obj) returns (r: Option<nat>)
    ensures r == FreeMp(config, 0)
  {
    var i := 0;
    while i != MpCount
      invariant 0 <= i <= MpCount
      invariant FreeMp(config, i) == FreeMp(config, 0)
    {
      if !Defined(config, MpName(i)) {
        return Some(i);
      }
      i := i + 1;
    }
    return None;
  }

  /** The mount point setVMConfig selects is one the selector offers and its validator accepts. */
  lemma ChosenMpAccepted(config: Obj)
    requires FreeMp(config, 0).Some?
    ensures var name := MpName(FreeMp(config, 0).value);
            name in MpNames() && MpselError(config, Str(name)).None?
  {
    var i := FreeMp(config, 0).value;
    assert MpNames()[i] == MpName(i);
  }

  /** The editor window. */
  class MountPointEdit {
    const confid: Value
    const kind: Kind
    const ipanel: MountPointPanel
    var closed: bool
    var alert: Option<string>

    constructor(confid: Value)
      ensures this.confid == confid && kind == WindowKind(confid)
      ensures fresh(ipanel) && ipanel.confid == confid && ipanel.unused == kind.unused && ipanel.isCreate == kind.create
      ensures ipanel.mpdata == map[] && ipanel.form == PresetForm(confid, kind.unused, kind.create)
      ensures !closed && alert == None
    {
      this.confid := confid;
      kind := WindowKind(confid);
      ipanel := new MountPointPanel(confid, WindowKind(confid).unused, WindowKind(confid).create);
      closed := false;
      alert := None;
    }

    /**
     * The load callback: the panel gets the configuration; an edited
     * option is parsed into the panel, or the window closes with an error
     * when it cannot be parsed.
     */
    method OnLoad(config: Obj, parseMp: Value -> Option<Obj>)
      modifies this, ipanel
      ensures ipanel.vmconfig == config
      ensures Truthy(confid) && parseMp(Get(config, ToStr(confid))).None? ==> closed && alert == Some(ParseError)
      ensures Truthy(confid) && parseMp(Get(config, ToStr(confid))).Some? ==>
                var mp := parseMp(Get(config, ToStr(confid))).value;
                ipanel.mpdata == (if Defined(mp, "acl") then mp else mp["acl" := Str("Default")]) && closed == old(closed)
      ensures !Truthy(confid) ==> ipanel.mpdata == old(ipanel.mpdata) && closed == old(closed) && alert == old(alert)
    {
      ipanel.SetVMConfig(config);
      if Truthy(confid) {
        var mp := parseMp(Get(config, ToStr(confid)));
        if mp.None? {
          alert := Some(ParseError);
          closed := true;
          return;
        }
        ipanel.SetMountPoint(mp.value);
      }
    }
  }
}
