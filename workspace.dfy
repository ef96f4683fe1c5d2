/**
 * The console's viewports (PVE.Workspace and its two kinds): the login
 * state the workspace keeps, the ticket renewal it schedules, the console
 * a console workspace shows, and the panel a standard workspace shows for
 * the node selected in the resource tree.
 *
 * PVE.Utils.authOK and PVE.Utils.authClear are not part of this model: they
 * are modelled as reading and clearing the ticket cookie that
 * updateLoginData sets. The timer is modelled as a method that runs one
 * tick; the requests are recorded, not sent.
 */
module Workspace {
  import opened Js

  const TicketUrl: string := "/api2/json/access/ticket"
  /** The renewal interval: 15 minutes, in milliseconds. */
  const RenewInterval: int := 15 * 60 * 1000

  /** A request to the API. */
  datatype Request = Request(url: string, verb: string, params: Obj)

  class Workspace {
    /** The data of the last login; None once the login window is shown. */
    var loginData: Option<Obj>
    /** PVE.CSRFPreventionToken and PVE.UserName. */
    var csrfToken: Value
    var userName: Value
    /** The ticket cookie (PVEAuthCookie). */
    var ticket: Value
    /** The capabilities saved in the state manager (GuiCap). */
    var guiCap: Value
    /** Whether a login window exists (me.login), whether it is shown, and how many were created. */
    var hasLoginWindow: bool
    var loginShown: bool
    var windowsCreated: nat
    /** The arguments onLogin was called with, in order; None for null. */
    var logins: seq<Option<Obj>>
    /** The renewal requests sent. */
    var requests: seq<Request>

    constructor(ticket: Value)
      ensures this.ticket == ticket && loginData.None? && userName == Null && csrfToken == Undefined
      ensures !hasLoginWindow && !loginShown && windowsCreated == 0 && logins == [] && requests == []
      ensures guiCap == Undefined
    {
      this.ticket := ticket;
      loginData := None;
      userName, csrfToken, guiCap := Null, Undefined, Undefined;
      hasLoginWindow, loginShown, windowsCreated := false, false, 0;
      logins, requests := [], [];
    }

    /**
     * updateLoginData: the data is kept, the token, user name and ticket
     * taken from it, the capabilities saved when there are any, and onLogin
     * called with it.
     */
    method UpdateLoginData(data: Obj)
      modifies this
      ensures loginData == Some(data)
      ensures csrfToken == Get(data, "CSRFPreventionToken") && userName == Get(data, "username") && ticket == Get(data, "ticket")
      ensures guiCap == (if Truthy(Get(data, "cap")) then Get(data, "cap") else old(guiCap))
      ensures logins == old(logins) + [Some(data)]
      ensures hasLoginWindow == old(hasLoginWindow) && loginShown == old(loginShown) && windowsCreated == old(windowsCreated)
      ensures requests == old(requests)
    {
      loginData := Some(data);
      csrfToken := Get(data, "CSRFPreventionToken");
      userName := Get(data, "username");
      if Truthy(Get(data, "cap")) {
        guiCap := Get(data, "cap");
      }
      ticket := Get(data, "ticket");
      logins := logins + [Some(data)];
    }

    /**
     * showLogin: the ticket, the user name and the login data are cleared, a
     * login window is created unless one exists, onLogin is called with null
     * and the window shown.
     */
    method ShowLogin()
      modifies this
      ensures ticket == Null && userName == Null && loginData.None?
      ensures hasLoginWindow && loginShown
      ensures windowsCreated == old(windowsCreated) + (if old(hasLoginWindow) then 0 else 1)
      ensures logins == old(logins) + [None]
      ensures csrfToken == old(csrfToken) && guiCap == old(guiCap) && requests == old(requests)
    {
      ticket := Null;
      userName := Null;
      loginData := None;
      if !hasLoginWindow {
        hasLoginWindow := true;
        windowsCreated := windowsCreated + 1;
      }
      logins := logins + [None];
      loginShown := true;
    }

    /** The login window's handler: the window is forgotten and the new login data taken over. */
    method OnLoginWindowDone(data: Obj)
      modifies this
      ensures !hasLoginWindow && loginData == Some(data) && userName == Get(data, "username") && ticket == Get(data, "ticket")
      ensures logins == old(logins) + [Some(data)] && windowsCreated == old(windowsCreated)
      ensures requests == old(requests)
    {
      hasLoginWindow := false;
      UpdateLoginData(data);
    }

    /** The listener on failed requests: an authentication failure (401) shows the login window, nothing else does anything. */
    method OnRequestException(status: int)
      modifies this
      ensures status == 401 ==> ticket == Null && userName == Null && loginData.None? && loginShown
      ensures status != 401 ==> ticket == old(ticket) && userName == old(userName) && loginData == old(loginData)
                                && loginShown == old(loginShown) && logins == old(logins)
      ensures status == 401 ==> hasLoginWindow && windowsCreated == old(windowsCreated) + (if old(hasLoginWindow) then 0 else 1)
      ensures status != 401 ==> hasLoginWindow == old(hasLoginWindow) && windowsCreated == old(windowsCreated)
      ensures requests == old(requests)
    {
      if status == 401 {
        ShowLogin();
      }
    }

    /**
     * initComponent's login check: without a ticket the login window is
     * shown; with one, onLogin is called with the login data when there is
     * any.
     */
    method Init()
      modifies this
      ensures !Truthy(old(ticket)) ==> loginShown && loginData.None? && logins == old(logins) + [None]
      ensures Truthy(old(ticket)) ==> ticket == old(ticket) && loginData == old(loginData) && loginShown == old(loginShown)
      ensures Truthy(old(ticket)) && old(loginData).Some? ==> logins == old(logins) + [old(loginData)]
      ensures Truthy(old(ticket)) && old(loginData).None? ==> logins == old(logins)
      ensures requests == old(requests)
    {
      if !Truthy(ticket) {
        ShowLogin();
      } else if loginData.Some? {
        logins := logins + [loginData];
      }
    }

    /**
     * One run of the renewal task: nothing without both a ticket and a user
     * name; otherwise the ticket is posted as the password of the user.
     */
    method RenewTick()
      modifies this
      ensures !Truthy(old(ticket)) || !Truthy(old(userName)) ==> requests == old(requests)
      ensures Truthy(old(ticket)) && Truthy(old(userName)) ==>
                requests == old(requests) + [Request(TicketUrl, "POST", map["username" := userName, "password" := ticket])]
      ensures ticket == old(ticket) && userName == old(userName) && loginData == old(loginData) && logins == old(logins)
      ensures loginShown == old(loginShown) && hasLoginWindow == old(hasLoginWindow) && windowsCreated == old(windowsCreated)
    {
      if !Truthy(ticket) || !Truthy(userName) {
        return;
      }
      requests := requests + [Request(TicketUrl, "POST", map["username" := userName, "password" := ticket])];
    }
  }

  /** After an authentication failure the renewal sends nothing until someone logs in again. */
  method NoRenewalAfterAuthFailure(w: Workspace)
    modifies w
    ensures w.requests == old(w.requests) && w.loginShown
  {
    w.OnRequestException(401);
    w.RenewTick();
  }

  /** Failing authentication again and again creates one login window at most. */
  method RepeatedFailures(w: Workspace, statuses: seq<int>)
    modifies w
    requires !w.hasLoginWindow
    ensures w.windowsCreated <= old(w.windowsCreated) + 1
    ensures 401 in statuses ==> w.hasLoginWindow && w.windowsCreated == old(w.windowsCreated) + 1
  {
    var i := 0;
    while i < |statuses|
      invariant 0 <= i <= |statuses|
      invariant w.hasLoginWindow <==> 401 in statuses[..i]
      invariant w.windowsCreated == old(w.windowsCreated) + (if w.hasLoginWindow then 1 else 0)
    {
      w.OnRequestException(statuses[i]);
      assert statuses[..i + 1] == statuses[..i] + [statuses[i]];
      i := i + 1;
    }
    assert statuses[..i] == statuses;
  }

  /** A login followed by a renewal tick renews that user's ticket, when the login gave both. */
  method LoginThenRenew(w: Workspace, data: Obj)
    modifies w
    requires Truthy(Get(data, "ticket")) && Truthy(Get(data, "username"))
    ensures w.requests == old(w.requests) + [Request(TicketUrl, "POST", map["username" := data["username"], "password" := data["ticket"]])]
  {
    w.UpdateLoginData(data);
    w.RenewTick();
  }

  /** The query parameter novnc: on only for the text '1'. */
  function NoVnc(param: Value): (r: bool)
    ensures r <==> param == Str("1")
  {
    StrictEq(param, Str("1"))
  }

  /** The content of a console workspace. */
  datatype Console =
    | KvmConsole(novnc: bool, vmid: Value, nodename: Value, vmname: Value)
    | LxcConsole(novnc: bool, vmid: Value, nodename: Value, vmname: Value)
    | Shell(novnc: bool, nodename: Value, upgrade: bool)
    | ErrorPanel(html: string)

  const ConsoleTitle: string := "Console"
  const NoConsoleText: string := "Error: No such console type"

  /** The title's suffix naming the guest, when a name is given. */
  function NameSuffix(vmname: Value): string
  {
    if Truthy(vmname) then " ('" + ToStr(vmname) + "')" else ""
  }

  /**
   * ConsoleWorkspace's initComponent: the console type is the configured one
   * or the query's; a VM, a container, a node's shell and its system upgrade
   * each get their console and title, any other type an error panel under
   * the default title.
   */
  method ConsoleFor(consoleType: Value, param: Obj) returns (title: string, content: Console)
    ensures var t := if Truthy(consoleType) then consoleType else Get(param, "console");
            && (t == Str("kvm") <==> content.KvmConsole?)
            && (t == Str("lxc") <==> content.LxcConsole?)
            && (t == Str("shell") <==> content.Shell? && !content.upgrade)
            && (t == Str("upgrade") <==> content.Shell? && content.upgrade)
            && (content.ErrorPanel? ==> content.html == NoConsoleText && title == ConsoleTitle)
    ensures content.KvmConsole? ==> title == "VM " + ToStr(Get(param, "vmid")) + NameSuffix(Get(param, "vmname"))
    ensures content.LxcConsole? ==> title == "CT " + ToStr(Get(param, "vmid")) + NameSuffix(Get(param, "vmname"))
    ensures content.Shell? && !content.upgrade ==> title == "node '" + ToStr(Get(param, "node")) + "'"
    ensures content.Shell? && content.upgrade ==> title == "System upgrade on node '" + ToStr(Get(param, "node")) + "'"
    ensures !content.ErrorPanel? ==> content.novnc == NoVnc(Get(param, "novnc")) && content.nodename == Get(param, "node")
    ensures content.KvmConsole? || content.LxcConsole? ==> content.vmid == Get(param, "vmid") && content.vmname == Get(param, "vmname")
  {
    var t := if Truthy(consoleType) then consoleType else Get(param, "console");
    var novnc := NoVnc(Get(param, "novnc"));
    ConsoleTypesDistinct();
    title := ConsoleTitle;
    if StrictEq(t, Str("kvm")) {
      title := "VM " + ToStr(Get(param, "vmid"));
      if Truthy(Get(param, "vmname")) {
        title := title + " ('" + ToStr(Get(param, "vmname")) + "')";
      }
      content := KvmConsole(novnc, Get(param, "vmid"), Get(param, "node"), Get(param, "vmname"));
    } else if StrictEq(t, Str("lxc")) {
      title := "CT " + ToStr(Get(param, "vmid"));
      if Truthy(Get(param, "vmname")) {
        title := title + " ('" + ToStr(Get(param, "vmname")) + "')";
      }
      content := LxcConsole(novnc, Get(param, "vmid"), Get(param, "node"), Get(param, "vmname"));
    } else if StrictEq(t, Str("shell")) {
      title := "node '" + ToStr(Get(param, "node")) + "'";
      content := Shell(novnc, Get(param, "node"), false);
    } else if StrictEq(t, Str("upgrade")) {
      title := "System upgrade on node '" + ToStr(Get(param, "node")) + "'";
      content := Shell(novnc, Get(param, "node"), true);
    } else {
      content := ErrorPanel(NoConsoleText);
    }
  }

  /** The four console types are four different strings. */
  lemma ConsoleTypesDistinct()
    ensures Str("kvm") != Str("lxc") && Str("kvm") != Str("shell") && Str("kvm") != Str("upgrade")
    ensures Str("lxc") != Str("shell") && Str("lxc") != Str("upgrade") && Str("shell") != Str("upgrade")
  {
    assert "kvm"[0] != "lxc"[0];
    assert |"kvm"| != |"shell"| && |"kvm"| != |"upgrade"| && |"shell"| != |"upgrade"|;
  }

  /** A guest's console title names the guest exactly when a name is given. */
  lemma NamedTitle(prefix: string, vmid: string, vmname: Value)
    ensures Truthy(vmname) ==> |NameSuffix(vmname)| > 0
    ensures !Truthy(vmname) ==> prefix + vmid + NameSuffix(vmname) == prefix + vmid
  {
  }

  /** A node of the resource tree, as the selection hands it over. */
  datatype TreeNode = TreeNode(typ: Value, id: Value, groupbyid: Value)

  /** The panel a standard workspace shows for a selected node. */
  datatype Panel = Panel(xtype: string, showSearch: bool, selNode: TreeNode)

  /** The panel class of each node type. */
  const PanelOfType: map<string, string> := map[
    "root" := "PVE.dc.Config",
    "node" := "PVE.node.Config",
    "qemu" := "PVE.qemu.Config",
    "lxc" := "PVE.lxc.Config",
    "storage" := "PVE.storage.Browser",
    "pool" := "pvePoolConfig"]

  const DefaultPanel: string := "pvePanelConfig"

  /** The panel class of a node: by its type, the data center's for a node without one, pvePanelConfig for an unknown type. */
  function PanelClass(typ: Value): (r: string)
    ensures !Truthy(typ) ==> r == PanelOfType["root"]
    ensures Truthy(typ) && ToStr(typ) in PanelOfType ==> r == PanelOfType[ToStr(typ)]
    ensures Truthy(typ) && ToStr(typ) !in PanelOfType ==> r == DefaultPanel
  {
    var key := if Truthy(typ) then ToStr(typ) else "root";
    if key in PanelOfType then PanelOfType[key] else DefaultPanel
  }

  /** Every node is shown with one of the seven panel classes. */
  lemma PanelClassKnown(typ: Value)
    ensures PanelClass(typ) in PanelOfType.Values || PanelClass(typ) == DefaultPanel
    ensures typ == Str("qemu") ==> PanelClass(typ) == "PVE.qemu.Config"
    ensures typ == Str("lxc") ==> PanelClass(typ) == "PVE.lxc.Config"
  {
    assert ToStr(Str("qemu")) == "qemu" && ToStr(Str("lxc")) == "lxc";
  }

  /** The search box is shown on the root node and on the nodes that group others. */
  predicate ShowSearch(n: TreeNode)
  {
    StrictEq(n.id, Str("root")) || n.groupbyid != Undefined
  }

  class StdWorkspace {
    var content: Option<Panel>
    /** PVE.curSelectedNode */
    var curSelected: Option<TreeNode>

    constructor()
      ensures content.None? && curSelected.None?
    {
      content, curSelected := None, None;
    }

    /**
     * The tree's selectionchange listener: the first selected node's panel
     * replaces the content, and becomes the current node; without a
     * selection the content is emptied and the current node kept.
     */
    method OnSelectionChange(selected: seq<TreeNode>)
      modifies this
      ensures selected == [] ==> content.None? && curSelected == old(curSelected)
      ensures selected != [] ==> curSelected == Some(selected[0]) && content.Some?
                                 && content.value == Panel(PanelClass(selected[0].typ), ShowSearch(selected[0]), selected[0])
    {
      if |selected| > 0 {
        var n := selected[0];
        var comp := Panel(PanelClass(n.typ), ShowSearch(n), n);
        curSelected := Some(n);
        content := Some(comp);
      } else {
        content := None;
      }
    }
  }

  /** updateUserInfo: the user logged in, quoted, or nothing without one. */
  function UserInfo(userName: Value): (r: string)
    ensures !Truthy(userName) <==> r == ""
    ensures Truthy(userName) ==> r == "You are logged in as '" + ToStr(userName) + "'"
  {
    if Truthy(userName) then "You are logged in as '" + ToStr(userName) + "'" else ""
  }

  /** updateVersionInfo: version-release/repoid of the version information, when there is any. */
  function VersionText(info: Option<Obj>): (r: Option<string>)
    ensures r.Some? <==> info.Some?
    ensures r.Some? ==> r.value == ToStr(Get(info.value, "version")) + "-" + ToStr(Get(info.value, "release")) + "/" + ToStr(Get(info.value, "repoid"))
  {
    match info
    case None => None
    case Some(v) => Some(ToStr(Get(v, "version")) + "-" + ToStr(Get(v, "release")) + "/" + ToStr(Get(v, "repoid")))
  }
}
