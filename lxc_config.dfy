/**
 * The configuration panel of a container (PVE.lxc.Config): its title, the
 * tabs the user's capabilities allow, and the power buttons, which follow
 * the container's status.
 *
 * The user's VM capabilities (caps.vms) are modelled as the set of those
 * that are granted.
 */
module LxcConfig {
  import opened Js
  import Common
  import ConfigPanel
  import Sorting

  const HStateId: string := "lxctab"

  /** The tabs of a container panel. */
  datatype Tab = Summary | Resources | Network | DNS | Options | Tasks | Backup | Console | Snapshot | Firewall | Permissions

  /** The item id of each tab. */
  function ItemId(t: Tab): string
  {
    match t
    case Summary => "summary"
    case Resources => "resources"
    case Network => "network"
    case DNS => "dns"
    case Options => "options"
    case Tasks => "tasks"
    case Backup => "backup"
    case Console => "console"
    case Snapshot => "snapshot"
    case Firewall => "firewall"
    case Permissions => "permissions"
  }

  /** The tabs every container panel has, in order. */
  const BaseTabs: seq<Tab> := [Summary, Resources, Network, DNS, Options, Tasks]

  /** A tab that needs a capability: present exactly when it is granted. */
  function Gated(tab: Tab, cap: string, caps: set<string>): (r: seq<Tab>)
    ensures tab in r <==> cap in caps
    ensures |r| <= 1 && forall t :: t in r ==> t == tab
  {
    if cap in caps then [tab] else []
  }

  /** The base tabs, then Backup, Console, Snapshots, Firewall and Permissions, in that order, each with its capability. */
  function Tabs(caps: set<string>): seq<Tab>
  {
    BaseTabs + Gated(Backup, "VM.Backup", caps) + Gated(Console, "VM.Console", caps) + Gated(Snapshot, "VM.Snapshot", caps)
    + Gated(Firewall, "VM.Console", caps) + Gated(Permissions, "Permissions.Modify", caps)
  }

  /**
   * The tab list: the six tabs every container has, then Backup, Console,
   * Snapshots, Firewall and Permissions, each only with its capability.
   */
  method TabList(caps: set<string>) returns (items: seq<Tab>)
    ensures items == Tabs(caps)
  {
    items := BaseTabs;
    ghost var prev := items;
    if "VM.Backup" in caps {
      items := items + [Backup];
    }
    assert items == prev + Gated(Backup, "VM.Backup", caps);
    prev := items;
    if "VM.Console" in caps {
      items := items + [Console];
    }
    assert items == prev + Gated(Console, "VM.Console", caps);
    prev := items;
    if "VM.Snapshot" in caps {
      items := items + [Snapshot];
    }
    assert items == prev + Gated(Snapshot, "VM.Snapshot", caps);
    prev := items;
    if "VM.Console" in caps {
      items := items + [Firewall];
    }
    assert items == prev + Gated(Firewall, "VM.Console", caps);
    prev := items;
    if "Permissions.Modify" in caps {
      items := items + [Permissions];
    }
    assert items == prev + Gated(Permissions, "Permissions.Modify", caps);
  }

  /**
   * Distinct tabs have distinct item ids, each made of lower-case letters,
   * so a name the panel's saved state can restore.
   */
  lemma ItemIds(t: Tab, u: Tab)
    ensures ConfigPanel.IsTabName(ItemId(t))
    ensures t != u ==> ItemId(t) != ItemId(u)
  {
    var s := ItemId(t);
    assert forall k :: 0 <= k < |s| ==> 'a' <= s[k] <= 'z';
  }

  /** Which tabs the panel has: Summary first, the base tabs always, and a gated tab exactly with its capability. */
  lemma TabsOf(caps: set<string>)
    ensures var items := Tabs(caps);
            && items[0] == Summary
            && (forall t :: t in BaseTabs ==> t in items)
            && (Backup in items <==> "VM.Backup" in caps)
            && (Console in items <==> "VM.Console" in caps)
            && (Snapshot in items <==> "VM.Snapshot" in caps)
            && (Firewall in items <==> "VM.Console" in caps)
            && (Permissions in items <==> "Permissions.Modify" in caps)
  {
    TabsMember(caps, Backup);
    TabsMember(caps, Console);
    TabsMember(caps, Snapshot);
    TabsMember(caps, Firewall);
    TabsMember(caps, Permissions);
  }

  /** A tab is in the list when it is a base tab or its gate is open. */
  lemma TabsMember(caps: set<string>, t: Tab)
    ensures t in Tabs(caps) <==>
              || t in BaseTabs
              || t in Gated(Backup, "VM.Backup", caps)
              || t in Gated(Console, "VM.Console", caps)
              || t in Gated(Snapshot, "VM.Snapshot", caps)
              || t in Gated(Firewall, "VM.Console", caps)
              || t in Gated(Permissions, "Permissions.Modify", caps)
  {
  }

  /** No tab is added twice. */
  lemma TabsDistinct(caps: set<string>)
    ensures Sorting.Distinct(Tabs(caps))
  {
    var b := Gated(Backup, "VM.Backup", caps);
    var c := Gated(Console, "VM.Console", caps);
    var sn := Gated(Snapshot, "VM.Snapshot", caps);
    var f := Gated(Firewall, "VM.Console", caps);
    var pm := Gated(Permissions, "Permissions.Modify", caps);
    Sorting.DistinctConcat(BaseTabs, b);
    Sorting.DistinctConcat(BaseTabs + b, c);
    Sorting.DistinctConcat(BaseTabs + b + c, sn);
    Sorting.DistinctConcat(BaseTabs + b + c + sn, f);
    Sorting.DistinctConcat(BaseTabs + b + c + sn + f, pm);
  }

  /** The Firewall tab keeps its own state under the panel's state id; a state naming one of its sub-tabs still opens it. */
  lemma FirewallStateOpensFirewall(sub: string)
    requires sub != [] && NoSpace(sub)
    ensures ConfigPanel.HStateTab(ItemId(Firewall) + "-" + sub) == Some(ItemId(Firewall))
  {
    ItemIds(Firewall, Firewall);
    ConfigPanel.HStateTabOf(ItemId(Firewall), sub);
  }

  /**
   * The description in the title: the id, then in parentheses the quoted
   * name followed by a space, or 'CT id' when there is no name.
   */
  function Description(vmid: Value, vmname: Value): (r: string)
    ensures Truthy(vmname) ==> r == ToStr(vmid) + " ('" + ToStr(vmname) + "' )"
    ensures !Truthy(vmname) ==> r == ToStr(vmid) + " ('CT " + ToStr(vmid) + "')"
  {
    ToStr(vmid) + " (" + (if Truthy(vmname) then "'" + ToStr(vmname) + "' " else "'CT " + ToStr(vmid) + "'") + ")"
  }

  /** What the panel is set up with. */
  datatype Setup = Setup(title: string, baseUrl: string, descr: string)

  /**
   * The panel needs a node name and a container id, and throws without
   * either, the node checked first.
   */
  function Init(selNode: Obj): (r: Result<Setup>)
    ensures !Truthy(Get(selNode, "node")) ==> r == Err(Common.NoNodeError)
    ensures Truthy(Get(selNode, "node")) && !Truthy(Get(selNode, "vmid")) ==> r == Err(Common.NoVmidError)
    ensures r.Ok? <==> Truthy(Get(selNode, "node")) && Truthy(Get(selNode, "vmid"))
    ensures r.Ok? ==> r.value.baseUrl == "/nodes/" + ToStr(Get(selNode, "node")) + "/lxc/" + ToStr(Get(selNode, "vmid"))
    ensures r.Ok? ==> r.value.descr == Description(Get(selNode, "vmid"), Get(selNode, "name"))
    ensures r.Ok? ==> r.value.title == "Container " + r.value.descr + " on node '" + ToStr(Get(selNode, "node")) + "'"
  {
    match Common.GuestIds(selNode)
    case Err(msg) => Err(msg)
    case Ok((node, vmid)) =>
      var descr := Description(vmid, Get(selNode, "name"));
      Ok(Setup("Container " + descr + " on node '" + ToStr(node) + "'",
               "/nodes/" + ToStr(node) + "/lxc/" + ToStr(vmid), descr))
  }

  /** The status shown: 'unknown' when loading failed or returned no status, else the status loaded. */
  function Status(success: bool, rec: Option<Value>): (r: Value)
    ensures !success || rec.None? ==> r == Str("unknown")
    ensures success && rec.Some? ==> r == rec.value
  {
    if !success then Str("unknown")
    else if rec.Some? then rec.value else Str("unknown")
  }

  class LxcConfig {
    const caps: set<string>
    var startDisabled: bool
    var shutdownDisabled: bool
    var stopDisabled: bool
    var stopVisible: bool
    var removeDisabled: bool
    var umountDisabled: bool
    var umountVisible: bool

    /** The buttons before any status is loaded: power buttons by capability, Unmount off and hidden. */
    constructor(caps: set<string>)
      ensures this.caps == caps
      ensures startDisabled == ("VM.PowerMgmt" !in caps) && shutdownDisabled == ("VM.PowerMgmt" !in caps)
      ensures stopDisabled == ("VM.PowerMgmt" !in caps) && stopVisible
      ensures removeDisabled == ("VM.Allocate" !in caps)
      ensures umountDisabled && !umountVisible
    {
      this.caps := caps;
      startDisabled := "VM.PowerMgmt" !in caps;
      shutdownDisabled := "VM.PowerMgmt" !in caps;
      stopDisabled := "VM.PowerMgmt" !in caps;
      stopVisible := true;
      removeDisabled := "VM.Allocate" !in caps;
      umountDisabled, umountVisible := true, false;
    }

    /** Unmount is offered in place of Stop, and only then. */
    ghost predicate Valid()
      reads this
    {
      umountVisible == !umountDisabled && stopVisible == !umountVisible
    }

    /**
     * The load listener of the status store: each button follows the
     * capability it needs and the status loaded.
     */
    method OnStatusLoad(success: bool, rec: Option<Value>)
      modifies this
      ensures var status := Status(success, rec);
              && startDisabled == ("VM.PowerMgmt" !in caps || StrictEq(status, Str("running")))
              && shutdownDisabled == ("VM.PowerMgmt" !in caps || !StrictEq(status, Str("running")))
              && stopDisabled == ("VM.PowerMgmt" !in caps || StrictEq(status, Str("stopped")))
              && removeDisabled == ("VM.Allocate" !in caps || !StrictEq(status, Str("stopped")))
              && (umountVisible <==> StrictEq(status, Str("mounted")))
      ensures Valid()
    {
      var status := Status(success, rec);
      startDisabled := "VM.PowerMgmt" !in caps || StrictEq(status, Str("running"));
      shutdownDisabled := "VM.PowerMgmt" !in caps || !StrictEq(status, Str("running"));
      stopDisabled := "VM.PowerMgmt" !in caps || StrictEq(status, Str("stopped"));
      removeDisabled := "VM.Allocate" !in caps || !StrictEq(status, Str("stopped"));
      if StrictEq(status, Str("mounted")) {
        umountDisabled := false;
        umountVisible := true;
        stopVisible := false;
      } else {
        umountDisabled := true;
        umountVisible := false;
        stopVisible := true;
      }
    }
  }

  /**
   * After a status load, with power management granted exactly one of Start
   * and Shutdown is enabled; with power management and allocation granted
   * exactly one of Stop and Remove is; with a failed load only Stop is.
   */
  method StatusButtons(caps: set<string>, success: bool, rec: Option<Value>) returns (p: LxcConfig)
    ensures fresh(p) && p.Valid()
    ensures "VM.PowerMgmt" in caps ==> p.startDisabled != p.shutdownDisabled
    ensures "VM.PowerMgmt" in caps && "VM.Allocate" in caps ==> p.stopDisabled != p.removeDisabled
    ensures !success ==> p.shutdownDisabled && p.removeDisabled && !p.umountVisible && p.stopVisible
    ensures !success && "VM.PowerMgmt" in caps ==> !p.startDisabled && !p.stopDisabled
  {
    p := new LxcConfig(caps);
    p.OnStatusLoad(success, rec);
  }
}
