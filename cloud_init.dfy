/**
 * The cloud-init grid of a VM (PVE.qemu.CloudInit): it finds the drive that
 * holds the cloud-init image, keeps one ipconfigN row per network device
 * netN, and decides what the toolbar buttons allow.
 *
 * PVE.Utils.forEachBus is not part of this model: the order in which it
 * visits the drive keys is a parameter, and PVE.Parser.parseVolume is one
 * too.
 */
module CloudInit {
  import opened Js
  import Common
  import CloudInitCreator

  /** The number of network devices a VM can have, net0 to net31. */
  const NetCount: nat := 32

  const CommitError: string := "internal error: cannot commit"

  /** A record of the pending-config store: key, value, pending deletion, pending change. */
  datatype Row = Row(key: string, value: string, delete: Value, pending: bool)

  function IpKey(i: nat): string { "ipconfig" + NatToString(i) }
  function NetKey(i: nat): string { "net" + NatToString(i) }

  lemma IpKeyInjective(a: nat, b: nat)
    requires IpKey(a) == IpKey(b)
    ensures a == b
  {
    assert IpKey(a)[8..] == NatToString(a);
    assert IpKey(b)[8..] == NatToString(b);
  }

  lemma IpKeyNotNetKey(a: nat, b: nat)
    ensures IpKey(a) != NetKey(b)
  {
    assert IpKey(a)[0] == 'i' && NetKey(b)[0] == 'n';
  }

  function Keys(store: seq<Row>): set<string>
  {
    set r | r in store :: r.key
  }

  /** The store's records are identified by their key. */
  predicate UniqueKeys(store: seq<Row>)
  {
    forall i, j :: 0 <= i < j < |store| ==> store[i].key != store[j].key
  }

  /** getById: the record with the given key. */
  function Find(store: seq<Row>, key: string): (r: Option<Row>)
    ensures r.Some? <==> key in Keys(store)
    ensures r.Some? ==> r.value in store && r.value.key == key
  {
    if store == [] then None
    else if store[0].key == key then Some(store[0])
    else
      var r := Find(store[1..], key);
      assert Keys(store) == {store[0].key} + Keys(store[1..]);
      r
  }

  /**
   * The value names a cloud-init image: it contains "vm-", a run of digits
   * and "-cloudinit" (the expression is not anchored).
   */
  predicate CloudinitAt(t: string)
  {
    IsPrefix("vm-", t) && var k := DigitRun(t[3..]); k > 0 && IsPrefix("-cloudinit", t[3 + k..])
  }

  predicate IsCloudinitVolume(v: string)
  {
    exists i :: 0 <= i <= |v| && CloudinitAt(v[i..])
  }

  /** The image the server gives a VM's cloud-init drive is recognised, whatever storage it is on. */
  lemma CloudinitVolumeOf(storage: string, vmid: nat)
    ensures IsCloudinitVolume(storage + ":vm-" + NatToString(vmid) + "-cloudinit")
  {
    var v := storage + ":vm-" + NatToString(vmid) + "-cloudinit";
    var t := v[|storage| + 1..];
    assert t == "vm-" + NatToString(vmid) + "-cloudinit";
    var d := NatToString(vmid);
    assert t[3..] == d + "-cloudinit";
    assert DigitRun(t[3..]) == |d| by {
      DigitRunOf(d, "-cloudinit");
    }
    assert t[3 + |d|..] == "-cloudinit";
    assert CloudinitAt(v[|storage| + 1..]);
  }

  /**
   * The drive update_data settles on: the first key, in bus order, whose
   * record holds a cloud-init image.
   */
  function CloudinitDrive(store: seq<Row>, buses: seq<string>): (r: Option<Row>)
    ensures r.Some? ==> r.value in store && r.value.key in buses && IsCloudinitVolume(r.value.value)
    ensures r.None? <==> forall j :: 0 <= j < |buses| ==> !Qualifies(store, buses[j])
  {
    if buses == [] then None
    else if Qualifies(store, buses[0]) then Find(store, buses[0])
    else
      var r := CloudinitDrive(store, buses[1..]);
      assert r.None? ==> forall j :: 0 <= j < |buses| ==> !Qualifies(store, buses[j]) by {
        if r.None? {
          forall j | 0 <= j < |buses| ensures !Qualifies(store, buses[j]) {
            if j > 0 { assert buses[j] == buses[1..][j - 1]; }
          }
        }
      }
      r
  }

  /** The drive found is the record of the first drive key, in bus order, that holds a cloud-init image. */
  lemma {:induction false} CloudinitDriveFirst(store: seq<Row>, buses: seq<string>)
    requires CloudinitDrive(store, buses).Some?
    ensures exists k :: 0 <= k < |buses| && Find(store, buses[k]) == CloudinitDrive(store, buses)
                        && forall j :: 0 <= j < k ==> !Qualifies(store, buses[j])
  {
    var r := CloudinitDrive(store, buses);
    if Qualifies(store, buses[0]) {
      assert Find(store, buses[0]) == r;
    } else {
      CloudinitDriveFirst(store, buses[1..]);
      var k :| 0 <= k < |buses[1..]| && Find(store, buses[1..][k]) == r
               && forall j :: 0 <= j < k ==> !Qualifies(store, buses[1..][j]);
      assert buses[k + 1] == buses[1..][k];
      forall j | 0 <= j < k + 1 ensures !Qualifies(store, buses[j]) {
        if j > 0 { assert buses[j] == buses[1..][j - 1]; }
      }
    }
  }

  predicate Qualifies(store: seq<Row>, key: string)
  {
    Find(store, key).Some? && IsCloudinitVolume(Find(store, key).value.value)
  }

  /** The cloud-init checkbox is ticked when there is a drive and it is not pending deletion. */
  function Enabled(drive: Option<Row>): bool
  {
    drive.Some? && !Truthy(drive.value.delete)
  }

  /** The ipconfig rows without a network device, in index order, among the first n. */
  function Removed(store: seq<Row>, n: nat): (r: seq<string>)
    ensures forall j :: 0 <= j < n ==> (IpKey(j) in r <==> NetKey(j) !in Keys(store) && IpKey(j) in Keys(store))
    ensures forall k :: k in r ==> exists j :: 0 <= j < n && k == IpKey(j)
  {
    if n == 0 then []
    else
      var prev := Removed(store, n - 1);
      var r := prev + if NetKey(n - 1) !in Keys(store) && IpKey(n - 1) in Keys(store) then [IpKey(n - 1)] else [];
      assert IpKey(n - 1) !in prev by {
        if IpKey(n - 1) in prev {
          var j :| 0 <= j < n - 1 && IpKey(n - 1) == IpKey(j);
          IpKeyInjective(n - 1, j);
        }
      }
      forall j | 0 <= j < n - 1
        ensures IpKey(j) != IpKey(n - 1)
      {
        if IpKey(j) == IpKey(n - 1) { IpKeyInjective(j, n - 1); }
      }
      r
  }

  /** The ipconfig rows to add, one per network device that has none, in index order, among the first n. */
  function Added(store: seq<Row>, n: nat): (r: seq<string>)
    ensures forall j :: 0 <= j < n ==> (IpKey(j) in r <==> NetKey(j) in Keys(store) && IpKey(j) !in Keys(store))
    ensures forall k :: k in r ==> exists j :: 0 <= j < n && k == IpKey(j)
    ensures forall i, j :: 0 <= i < j < |r| ==> r[i] != r[j]
  {
    if n == 0 then []
    else
      var prev := Added(store, n - 1);
      var r := prev + if NetKey(n - 1) in Keys(store) && IpKey(n - 1) !in Keys(store) then [IpKey(n - 1)] else [];
      assert IpKey(n - 1) !in prev by {
        if IpKey(n - 1) in prev {
          var j :| 0 <= j < n - 1 && IpKey(n - 1) == IpKey(j);
          IpKeyInjective(n - 1, j);
        }
      }
      forall j | 0 <= j < n - 1
        ensures IpKey(j) != IpKey(n - 1)
      {
        if IpKey(j) == IpKey(n - 1) { IpKeyInjective(j, n - 1); }
      }
      r
  }

  /** The store without the records whose key is in ks, in the same order. */
  function Without(store: seq<Row>, ks: set<string>): (r: seq<Row>)
    ensures forall x :: x in r <==> x in store && x.key !in ks
  {
    if store == [] then []
    else if store[0].key in ks then Without(store[1..], ks)
    else [store[0]] + Without(store[1..], ks)
  }

  lemma WithoutKeys(store: seq<Row>, ks: set<string>)
    ensures Keys(Without(store, ks)) == Keys(store) - ks
  {
    var r := Without(store, ks);
    forall k | k in Keys(store) - ks ensures k in Keys(r) {
      var x :| x in store && x.key == k;
      assert x in r;
    }
  }

  lemma {:induction false} WithoutUnique(store: seq<Row>, ks: set<string>)
    requires UniqueKeys(store)
    ensures UniqueKeys(Without(store, ks))
  {
    if store != [] {
      var rest := Without(store[1..], ks);
      assert UniqueKeys(store[1..]) by {
        forall i, j | 0 <= i < j < |store[1..]| ensures store[1..][i].key != store[1..][j].key {
          assert store[1..][i] == store[i + 1] && store[1..][j] == store[j + 1];
        }
      }
      WithoutUnique(store[1..], ks);
      if store[0].key !in ks {
        var r := [store[0]] + rest;
        forall i, j | 0 <= i < j < |r| ensures r[i].key != r[j].key {
          if i == 0 {
            assert r[j] in store[1..];
            var m :| 0 <= m < |store[1..]| && store[1..][m] == r[j];
            assert store[m + 1] == r[j];
          } else {
            assert r[i] == rest[i - 1] && r[j] == rest[j - 1];
          }
        }
      }
    }
  }

  lemma {:induction false} WithoutNothing(store: seq<Row>, ks: set<string>)
    requires forall x :: x in store ==> x.key !in ks
    ensures Without(store, ks) == store
  {
    if store != [] {
      WithoutNothing(store[1..], ks);
      assert store == [store[0]] + store[1..];
    }
  }

  /** The new records for keys: empty value, no pending change. */
  function NewRows(keys: seq<string>): (r: seq<Row>)
    ensures |r| == |keys| && forall i :: 0 <= i < |r| ==> r[i] == Row(keys[i], "", Undefined, false)
    ensures Keys(r) == set k | k in keys
  {
    var r := seq(|keys|, i requires 0 <= i < |keys| => Row(keys[i], "", Undefined, false));
    assert forall x :: x in r ==> x.key in keys;
    assert forall k :: k in keys ==> k in Keys(r) by {
      forall k | k in keys ensures k in Keys(r) {
        var i :| 0 <= i < |keys| && keys[i] == k;
        assert r[i] in r;
      }
    }
    r
  }

  /** update_data's effect on the store: one batch of removals, then one batch of additions at the end. */
  function Reconciled(store: seq<Row>): seq<Row>
  {
    Applied(store, Removed(store, NetCount), Added(store, NetCount))
  }

  /** The store after removing the records of toRemove and appending new records for toAdd. */
  function Applied(store: seq<Row>, toRemove: seq<string>, toAdd: seq<string>): seq<Row>
  {
    Without(store, set k | k in toRemove) + NewRows(toAdd)
  }

  lemma KeysOfReconciled(store: seq<Row>)
    ensures Keys(Reconciled(store)) == (Keys(store) - set k | k in Removed(store, NetCount)) + set k | k in Added(store, NetCount)
  {
    var a := Without(store, set k | k in Removed(store, NetCount));
    var b := NewRows(Added(store, NetCount));
    WithoutKeys(store, set k | k in Removed(store, NetCount));
    assert Keys(a + b) == Keys(a) + Keys(b) by {
      assert forall x :: x in a + b <==> x in a || x in b;
    }
  }

  /** After update_data there is an ipconfigN row exactly for each network device netN, and the devices are untouched. */
  lemma ReconciledPairs(store: seq<Row>, i: nat)
    requires i < NetCount
    ensures IpKey(i) in Keys(Reconciled(store)) <==> NetKey(i) in Keys(Reconciled(store))
    ensures NetKey(i) in Keys(Reconciled(store)) <==> NetKey(i) in Keys(store)
  {
    KeysOfReconciled(store);
    var rem := Removed(store, NetCount);
    var add := Added(store, NetCount);
    assert NetKey(i) !in rem && NetKey(i) !in add by {
      if NetKey(i) in rem {
        var j :| 0 <= j < NetCount && NetKey(i) == IpKey(j);
        IpKeyNotNetKey(j, i);
      }
      if NetKey(i) in add {
        var j :| 0 <= j < NetCount && NetKey(i) == IpKey(j);
        IpKeyNotNetKey(j, i);
      }
    }
  }

  /** The new rows keep the store's records identified by their key. */
  lemma ReconciledUnique(store: seq<Row>)
    requires UniqueKeys(store)
    ensures UniqueKeys(Reconciled(store))
  {
    var add := Added(store, NetCount);
    forall k | k in add ensures k !in Keys(store) {
      var j :| 0 <= j < NetCount && k == IpKey(j);
    }
    AppliedUnique(store, Removed(store, NetCount), add);
  }

  lemma AppliedUnique(store: seq<Row>, toRemove: seq<string>, toAdd: seq<string>)
    requires UniqueKeys(store)
    requires forall i, j :: 0 <= i < j < |toAdd| ==> toAdd[i] != toAdd[j]
    requires forall k :: k in toAdd ==> k !in Keys(store)
    ensures UniqueKeys(Applied(store, toRemove, toAdd))
  {
    var rem := set k | k in toRemove;
    var a := Without(store, rem);
    var b := NewRows(toAdd);
    WithoutUnique(store, rem);
    var ab: seq<Row> := a + b;
    forall i, j | 0 <= i < j < |ab|
      ensures ab[i].key != ab[j].key
    {
      if i >= |a| {
        assert ab[i] == b[i - |a|] && ab[j] == b[j - |a|];
      } else if j >= |a| {
        assert ab[j].key == toAdd[j - |a|] && toAdd[j - |a|] in toAdd;
        assert ab[i] == a[i] && a[i] in a;
        assert ab[i].key in Keys(store);
      } else {
        assert ab[i] == a[i] && ab[j] == a[j];
      }
    }
  }

  lemma AddedFresh(store: seq<Row>, k: string, n: string)
    requires k in Keys(store) && n in Added(store, NetCount)
    ensures k != n
  {
    var j :| 0 <= j < NetCount && n == IpKey(j);
  }

  /** Every network device has its ipconfig row and every ipconfig row its device. */
  predicate Paired(s: seq<Row>)
  {
    forall j :: 0 <= j < NetCount ==> (IpKey(j) in Keys(s) <==> NetKey(j) in Keys(s))
  }

  lemma ReconciledPaired(store: seq<Row>)
    ensures Paired(Reconciled(store))
  {
    forall j | 0 <= j < NetCount
      ensures IpKey(j) in Keys(Reconciled(store)) <==> NetKey(j) in Keys(Reconciled(store))
    {
      ReconciledPairs(store, j);
    }
  }

  lemma {:induction false} PairedNoneRemoved(s: seq<Row>, n: nat)
    requires n <= NetCount && Paired(s)
    ensures Removed(s, n) == []
  {
    if n > 0 { PairedNoneRemoved(s, n - 1); }
  }

  lemma {:induction false} PairedNoneAdded(s: seq<Row>, n: nat)
    requires n <= NetCount && Paired(s)
    ensures Added(s, n) == []
  {
    if n > 0 { PairedNoneAdded(s, n - 1); }
  }

  /** A paired store is left as it is. */
  lemma PairedFixed(s: seq<Row>)
    requires Paired(s)
    ensures Reconciled(s) == s
  {
    PairedNoneRemoved(s, NetCount);
    PairedNoneAdded(s, NetCount);
    AppliedNothing(s);
  }

  /** Removing and adding nothing leaves the store as it is. */
  lemma AppliedNothing(s: seq<Row>)
    ensures Applied(s, [], []) == s
  {
    var none: seq<string> := [];
    assert (set k | k in none) == {};
    WithoutNothing(s, {});
    assert NewRows([]) == [];
    assert s + [] == s;
  }

  /** A second update_data changes nothing. */
  lemma ReconciledIdempotent(store: seq<Row>)
    ensures Reconciled(Reconciled(store)) == Reconciled(store)
  {
    ReconciledPaired(store);
    PairedFixed(Reconciled(store));
  }

  /** The ipconfig rows update_data makes visible among the first n: one per network device. */
  function Shown(store: seq<Row>, n: nat): (r: set<string>)
    ensures forall j :: 0 <= j < n ==> (NetKey(j) in Keys(store) ==> IpKey(j) in r)
    ensures forall k :: k in r ==> exists j :: 0 <= j < n && k == IpKey(j) && NetKey(j) in Keys(store)
  {
    if n == 0 then {}
    else Shown(store, n - 1) + if NetKey(n - 1) in Keys(store) then {IpKey(n - 1)} else {}
  }

  /** The config URL of the VM the grid is opened for; a node and a VM id are required. */
  function BaseUrl(selNode: Obj): (r: Result<string>)
    ensures !Truthy(Get(selNode, "node")) ==> r == Err(Common.NoNodeError)
    ensures Truthy(Get(selNode, "node")) && !Truthy(Get(selNode, "vmid")) ==> r == Err(Common.NoVmidError)
    ensures r.Ok? ==> r.value == "nodes/" + ToStr(Get(selNode, "node")) + "/qemu/" + ToStr(Get(selNode, "vmid")) + "/config"
  {
    match Common.GuestIds(selNode)
    case Err(m) => Err(m)
    case Ok((node, vmid)) => Ok("nodes/" + ToStr(node) + "/qemu/" + ToStr(vmid) + "/config")
  }

  const DnsEditor: string := "PVE.qemu.DNSEdit"
  const SshKeyEditor: string := "PVE.qemu.SSHKeyEdit"
  const IpConfigEditor: string := "PVE.qemu.IPConfigEdit"

  /** A row definition of the grid: the editor that opens it, whether it may be deleted, whether it shows. */
  datatype RowDef = RowDef(editor: Option<string>, neverDelete: bool, hidden: bool)

  predicate IsIpKey(key: string) { exists j :: 0 <= j < NetCount && key == IpKey(j) }
  predicate IsNetKey(key: string) { exists j :: 0 <= j < NetCount && key == NetKey(j) }

  /**
   * The row definitions: the DNS, SSH key and ipconfig rows get their
   * editor only with the VM.Config.Network capability, and may be deleted
   * only with it; the network devices and the drives are hidden rows (the
   * drive rows, assigned last, take precedence).
   */
  function RowDefOf(key: string, network: bool, buses: seq<string>): (r: Option<RowDef>)
    ensures r.Some? && r.value.editor.Some? ==> network && !r.value.neverDelete && !r.value.hidden
    ensures r.Some? && !r.value.hidden ==> r.value.neverDelete == !network
    ensures r.None? <==> key !in buses && !IsIpKey(key) && !IsNetKey(key) && key !in {"hostname", "searchdomain", "nameserver", "sshkey"}
    ensures key !in buses && key in {"hostname", "searchdomain", "nameserver"} ==>
      r.Some? && !r.value.hidden && r.value.editor == (if network then Some(DnsEditor) else None)
    ensures key !in buses && key == "sshkey" ==>
      r.Some? && !r.value.hidden && r.value.editor == (if network then Some(SshKeyEditor) else None)
    ensures key !in buses && IsIpKey(key) ==>
      r.Some? && !r.value.hidden && r.value.editor == (if network then Some(IpConfigEditor) else None)
    ensures key !in buses && IsNetKey(key) ==> r.Some? && r.value.hidden && r.value.editor.None? && r.value.neverDelete == !network
    ensures key in buses ==> r.Some? && r.value.hidden && r.value.editor.None? && !r.value.neverDelete
  {
    if key in buses then Some(RowDef(None, false, true))
    else if key in {"hostname", "searchdomain", "nameserver"} then
      NamedNotNumbered(key);
      Some(RowDef(if network then Some(DnsEditor) else None, !network, false))
    else if key == "sshkey" then
      NamedNotNumbered(key);
      Some(RowDef(if network then Some(SshKeyEditor) else None, !network, false))
    else if IsIpKey(key) then
      IpNotNet(key);
      Some(RowDef(if network then Some(IpConfigEditor) else None, !network, false))
    else if IsNetKey(key) then Some(RowDef(None, !network, true))
    else None
  }

  /** The named rows are neither ipconfigN nor netN rows. */
  lemma NamedNotNumbered(key: string)
    requires key in {"hostname", "searchdomain", "nameserver", "sshkey"}
    ensures !IsIpKey(key) && !IsNetKey(key)
  {
    forall j: nat ensures IpKey(j) != key && NetKey(j) != key {
      assert IpKey(j)[0] == 'i';
      assert NetKey(j)[..3] == "net";
    }
  }

  /** No ipconfigN row is also a netM row. */
  lemma IpNotNet(key: string)
    requires IsIpKey(key)
    ensures !IsNetKey(key)
  {
    var a :| 0 <= a < NetCount && key == IpKey(a);
    forall b | 0 <= b < NetCount ensures key != NetKey(b) {
      IpKeyNotNetKey(a, b);
    }
  }

  /** Button states: Edit and Revert disabled, or an error when the selected row has no definition. */
  datatype Buttons = Buttons(editDisabled: bool, revertDisabled: bool)

  /**
   * set_button_status: without a selection both buttons are disabled; Edit
   * is disabled for a row pending deletion or without an editor, Revert for
   * a row without a pending change.
   */
  function ButtonStatus(sel: Option<Row>, network: bool, buses: seq<string>): (r: Option<Buttons>)
    ensures sel.None? ==> r == Some(Buttons(true, true))
    ensures sel.Some? ==> (r.None? <==> RowDefOf(sel.value.key, network, buses).None?)
    ensures r.Some? && !r.value.editDisabled ==>
              sel.Some? && network && !Truthy(sel.value.delete) && RowDefOf(sel.value.key, network, buses).value.editor.Some?
    ensures r.Some? && sel.Some? ==> (r.value.revertDisabled <==> !Truthy(sel.value.delete) && !sel.value.pending)
  {
    if sel.None? then Some(Buttons(true, true))
    else
      var rec := sel.value;
      match RowDefOf(rec.key, network, buses)
      case None => None
      case Some(def) => Some(Buttons(Truthy(rec.delete) || def.editor.None?, !(Truthy(rec.delete) || rec.pending)))
  }

  /** A request the grid sends. */
  datatype Request = Request(verb: string, url: string, params: map<string, Value>)

  /** What run_editor opens: the row's editor on its key and the config URL. */
  datatype EditorWindow = EditorWindow(editor: string, confid: string, url: string)

  function RunEditor(sel: Option<Row>, network: bool, buses: seq<string>, baseurl: string): (r: Option<EditorWindow>)
    ensures r.Some? <==> sel.Some? && RowDefOf(sel.value.key, network, buses).Some? && RowDefOf(sel.value.key, network, buses).value.editor.Some?
    ensures r.Some? ==> r.value.confid == sel.value.key && r.value.url == "/api2/extjs/" + baseurl && network
  {
    if sel.None? then None
    else match RowDefOf(sel.value.key, network, buses)
      case None => None
      case Some(def) => if def.editor.None? then None else Some(EditorWindow(def.editor.value, sel.value.key, "/api2/extjs/" + baseurl))
  }

  /** What ticking or clearing the Enable box does. */
  datatype StatusAction = OpenCreator(busId: Value) | Send(req: Request)

  /** Ticking opens the drive creator; clearing deletes the cloud-init drive, forced. */
  function SetCloudinitStatus(enabled: bool, drive: Option<Row>, baseurl: string): (a: StatusAction)
    ensures enabled <==> a.OpenCreator?
    ensures a.Send? ==> a.req.verb == "PUT" && a.req.params.Keys == {"force", "delete"} && a.req.params["force"] == Num(1)
                        && (drive.Some? ==> a.req.params["delete"] == Str(drive.value.key))
  {
    var busId := if drive.Some? then Str(drive.value.key) else Undefined;
    if enabled then OpenCreator(busId)
    else Send(Request("PUT", "/api2/extjs/" + baseurl, map["force" := Num(1), "delete" := busId]))
  }

  /**
   * run_commit: without a known drive, or with a drive string the parser
   * rejects, an error; otherwise the drive is first ejected and then
   * replaced by a new cloud-init image on the same storage.
   */
  function Commit(drive: Option<Row>, parseVolume: (string, string) -> Option<Obj>, baseurl: string): (r: Result<seq<Request>>)
    ensures drive.None? ==> r == Err(CommitError)
    ensures drive.Some? && parseVolume(drive.value.key, drive.value.value).None? ==> r == Err("bad volume string: " + drive.value.value)
    ensures r.Ok? ==> drive.Some? && |r.value| == 2
                      && r.value[0] == Request("PUT", "/api2/extjs/" + baseurl, map[drive.value.key := Str("none,media=cdrom")])
                      && r.value[1].verb == "PUT" && r.value[1].params.Keys == {drive.value.key}
  {
    if drive.None? then Err(CommitError)
    else
      var confid := drive.value.key;
      match parseVolume(confid, drive.value.value)
      case None => Err("bad volume string: " + drive.value.value)
      case Some(d) =>
        Ok([Request("PUT", "/api2/extjs/" + baseurl, map[confid := Str("none,media=cdrom")]),
            Request("PUT", "/api2/extjs/" + baseurl, map[confid := Str(ToStr(Get(d, "storage")) + ":cloudinit")])])
  }

  /** The second step of a commit puts the drive back the way the drive creator makes it, on the parsed storage. */
  lemma CommitRecreates(drive: Row, parseVolume: (string, string) -> Option<Obj>, baseurl: string)
    requires drive.key != "" && parseVolume(drive.key, drive.value).Some?
    ensures var r := Commit(Some(drive), parseVolume, baseurl);
            var storage := Get(parseVolume(drive.key, drive.value).value, "storage");
            var created := CloudInitCreator.CreateValues(Str(drive.key), map["cdstorage" := storage]);
            r.Ok? && drive.key in created && r.value[1].params[drive.key] == Str(created[drive.key])
  {
  }

  /** The revert request: the row's multiKey list, or its key alone, joined by commas. */
  function RevertParams(multiKey: Option<seq<string>>, key: string): (r: map<string, Value>)
    ensures r.Keys == {"revert"}
    ensures multiKey.None? ==> r["revert"] == Str(key)
  {
    var keys := if multiKey.Some? then multiKey.value else [key];
    assert multiKey.None? ==> Join(keys, ",") == key;
    map["revert" := Str(Join(keys, ","))]
  }

  /** The forEachBus walk of update_data, which stops at the first drive holding a cloud-init image. */
  method FindDrive(s: seq<Row>, buses: seq<string>) returns (drive: Option<Row>)
    ensures drive == CloudinitDrive(s, buses)
  {
    drive := None;
    var k := 0;
    while k < |buses|
      invariant 0 <= k <= |buses|
      invariant CloudinitDrive(s, buses) == CloudinitDrive(s, buses[k..])
    {
      assert buses[k..][1..] == buses[k + 1..];
      var entry := Find(s, buses[k]);
      if entry.Some? && IsCloudinitVolume(entry.value.value) {
        drive := entry;
        return;
      }
      k := k + 1;
    }
  }

  /** One round of the update_data loop: what net i and ipconfig i add to the three results. */
  lemma PlanStep(s: seq<Row>, i: nat)
    ensures Removed(s, i + 1) == Removed(s, i) + (if NetKey(i) !in Keys(s) && IpKey(i) in Keys(s) then [IpKey(i)] else [])
    ensures Added(s, i + 1) == Added(s, i) + (if NetKey(i) in Keys(s) && IpKey(i) !in Keys(s) then [IpKey(i)] else [])
    ensures Shown(s, i + 1) == Shown(s, i) + (if NetKey(i) in Keys(s) then {IpKey(i)} else {})
  {
  }

  /** Before the loop nothing is planned. */
  lemma PlanStart(s: seq<Row>)
    ensures Removed(s, 0) == [] && Added(s, 0) == [] && Shown(s, 0) == {}
  {
  }

  /** The loop of update_data over net0..net31: the rows to remove, the rows to add, the rows to show. */
  method PlanRows(s: seq<Row>) returns (toRemove: seq<string>, toAdd: seq<string>, shown: set<string>)
    ensures toRemove == Removed(s, NetCount) && toAdd == Added(s, NetCount) && shown == Shown(s, NetCount)
  {
    PlanStart(s);
    hide Removed, Added, Shown;
    toRemove, toAdd, shown := [], [], {};
    for i := 0 to NetCount
      invariant toRemove == Removed(s, i) && toAdd == Added(s, i) && shown == Shown(s, i)
    {
      var cid := IpKey(i);
      var dev := Find(s, NetKey(i));
      var conf := Find(s, cid);
      PlanStep(s, i);
      assert dev.Some? <==> NetKey(i) in Keys(s);
      assert conf.Some? <==> cid in Keys(s);
      if dev.None? {
        if conf.Some? {
          toRemove := toRemove + [cid];
        }
        continue;
      }
      if conf.None? {
        toAdd := toAdd + [cid];
        shown := shown + {cid};
      } else {
        assert conf.value.key == cid;
        shown := shown + {conf.value.key};
      }
    }
  }

  /**
   * What update_data leaves: the drive found in bus order, the store
   * reconciled with the network devices (still keyed uniquely, and paired),
   * and the ipconfig rows of the devices made visible.
   */
  ghost predicate Updated(s: seq<Row>, shown: set<string>, buses: seq<string>, drive: Option<Row>, s': seq<Row>, shown': set<string>)
  {
    && drive == CloudinitDrive(s, buses)
    && s' == Reconciled(s) && UniqueKeys(s') && Paired(s')
    && shown' == shown + Shown(s, NetCount)
  }

  /** update_data on a store. */
  method Update(s: seq<Row>, shown: set<string>, buses: seq<string>) returns (drive: Option<Row>, s': seq<Row>, shown': set<string>)
    requires UniqueKeys(s)
    ensures Updated(s, shown, buses, drive, s', shown')
  {
    drive := FindDrive(s, buses);
    var toRemove, toAdd, more := PlanRows(s);
    ReconciledUnique(s);
    ReconciledPaired(s);
    s' := Applied(s, toRemove, toAdd);
    shown' := shown + more;
  }

  /** The cloud-init grid with its store and toolbar. */
  class CloudInitGrid {
    /** The VM.Config.Network capability. */
    const network: bool
    /** The drive keys in the order PVE.Utils.forEachBus visits them. */
    const buses: seq<string>
    var store: seq<Row>
    /** The ipconfig rows made visible. */
    var shown: set<string>
    /** pveBusId, pveDiskInfo and pveDiskDeleted, as the record of the drive. */
    var drive: Option<Row>
    var enableChecked: bool
    var commitDisabled: bool

    ghost predicate Valid()
      reads this
    {
      UniqueKeys(store)
    }

    constructor(network: bool, buses: seq<string>)
      ensures Valid() && this.network == network && this.buses == buses
      ensures store == [] && shown == {} && drive == None && !enableChecked && commitDisabled
    {
      this.network, this.buses := network, buses;
      store, shown, drive := [], {}, None;
      enableChecked, commitDisabled := false, true;
    }

    /**
     * update_data: the cloud-init drive is looked up, the Enable box and
     * Commit follow it, and the ipconfig rows are brought in line with the
     * network devices.
     */
    method UpdateData()
      requires Valid()
      modifies this
      ensures Updated(old(store), old(shown), buses, drive, store, shown)
      ensures enableChecked == Enabled(drive) && commitDisabled == !enableChecked
      ensures Valid()
    {
      var d, s', sh := Update(store, shown, buses);
      var on := Enabled(d);
      drive, store, shown := d, s', sh;
      enableChecked, commitDisabled := on, !on;
    }
  }
}
