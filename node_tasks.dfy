/**
 * The list of tasks of a node (PVE.node.Tasks): the user and error filters,
 * which reach the server as extra parameters of the store's proxy once the
 * delayed reload runs, the marking and rendering of failed tasks, and the
 * View button.
 *
 * The delayed task (Ext.util.DelayedTask) is modelled as a pending flag and
 * a method that runs it; the buffered store's paging is not modelled.
 */
module NodeTasks {
  import opened Js
  import Common

  const InvalidCls: string := "x-form-invalid-field"
  /** The status of a task that succeeded. */
  const OkStatus: string := "OK"

  /** The view needs a node name; it lists that node's tasks. */
  function StoreUrl(selNode: Obj): (r: Result<string>)
    ensures r.Err? <==> !Truthy(Get(selNode, "node"))
    ensures r.Err? ==> r.msg == Common.NoNodeError
    ensures r.Ok? ==> r.value == "/api2/json/nodes/" + ToStr(Get(selNode, "node")) + "/tasks"
  {
    match Common.NodeName(selNode)
    case Err(msg) => Err(msg)
    case Ok(node) => Ok("/api2/json/nodes/" + ToStr(node) + "/tasks")
  }

  /**
   * updateProxyParams: errors always; the user filter only when it is not
   * empty; the guest id only when the view is restricted to one.
   */
  function Params(userfilter: string, errors: int, vmidFilter: Value): (r: Obj)
    ensures "errors" in r && r["errors"] == Num(errors)
    ensures "userfilter" in r <==> userfilter != ""
    ensures "userfilter" in r ==> r["userfilter"] == Str(userfilter)
    ensures "vmid" in r <==> Truthy(vmidFilter)
    ensures "vmid" in r ==> r["vmid"] == vmidFilter
    ensures forall k :: k in r ==> k in {"errors", "userfilter", "vmid"}
  {
    var p := map["errors" := Num(errors)];
    var p := if userfilter != "" then p["userfilter" := Str(userfilter)] else p;
    if Truthy(vmidFilter) then p["vmid" := vmidFilter] else p
  }

  /** getRowClass: a task is marked invalid when it has a status and that status is not OK. */
  function RowClass(status: Value): (r: Option<string>)
    ensures r.Some? <==> Truthy(status) && !LooseEq(status, Str(OkStatus))
    ensures r.Some? ==> r.value == InvalidCls
  {
    if Truthy(status) && !LooseEq(status, Str(OkStatus)) then Some(InvalidCls) else None
  }

  /** The status renderer: OK as it is, anything else as an error. */
  function StatusText(status: Value): (r: string)
    ensures LooseEq(status, Str(OkStatus)) ==> r == OkStatus
    ensures !LooseEq(status, Str(OkStatus)) ==> r == "ERROR: " + ToStr(status)
  {
    if LooseEq(status, Str(OkStatus)) then OkStatus else "ERROR: " + ToStr(status)
  }

  /**
   * A task with a status is marked exactly when its status is shown as an
   * error; a task without one (still running) is not marked, yet its empty
   * status is shown as an error.
   */
  lemma MarkedIffError(status: Value)
    ensures Truthy(status) ==> (RowClass(status).Some? <==> IsPrefix("ERROR: ", StatusText(status)))
    ensures !Truthy(status) ==> RowClass(status).None? && IsPrefix("ERROR: ", StatusText(status))
  {
    if !Truthy(status) {
      FalsyNotOk(status);
    }
    ErrorShown(status);
  }

  /** A status without a value is never the OK status: OK is not a number. */
  lemma FalsyNotOk(status: Value)
    requires !Truthy(status)
    ensures !LooseEq(status, Str(OkStatus))
  {
    NotANumber(OkStatus);
    FalsyNotLooseEqNaN(status, OkStatus);
  }

  /** The text shown is an error exactly when the status is not OK. */
  lemma ErrorShown(status: Value)
    ensures IsPrefix("ERROR: ", StatusText(status)) <==> !LooseEq(status, Str(OkStatus))
  {
    var t := StatusText(status);
    if !LooseEq(status, Str(OkStatus)) {
      var e := ToStr(status);
      assert ("ERROR: " + e)[..7] == "ERROR: ";
    }
  }

  class TaskView {
    /** The guest the view is restricted to; 0 for none. */
    const vmidFilter: Value
    var userfilter: string
    var filterErrors: int
    /** The extra parameters of the store's proxy. */
    var extraParams: Obj
    var reloadPending: bool
    var viewDisabled: bool

    /** The view starts without filters, their parameters already set, and View disabled. */
    constructor(vmidFilter: Value)
      ensures this.vmidFilter == vmidFilter
      ensures userfilter == "" && filterErrors == 0 && !reloadPending && viewDisabled
      ensures extraParams == Params(userfilter, filterErrors, vmidFilter)
    {
      this.vmidFilter := vmidFilter;
      userfilter, filterErrors := "", 0;
      extraParams := Params("", 0, vmidFilter);
      reloadPending, viewDisabled := false, true;
    }

    /** Typing a user name: the filter follows the field, and a reload is scheduled. */
    method OnUserKeyup(value: string)
      modifies this
      ensures userfilter == value && reloadPending
      ensures filterErrors == old(filterErrors) && extraParams == old(extraParams) && viewDisabled == old(viewDisabled)
    {
      userfilter := value;
      reloadPending := true;
    }

    /** The "Only Errors" box: errors becomes 1 when checked and 0 otherwise, and a reload is scheduled. */
    method OnErrorsChange(checked: bool)
      modifies this
      ensures filterErrors == (if checked then 1 else 0) && reloadPending
      ensures userfilter == old(userfilter) && extraParams == old(extraParams) && viewDisabled == old(viewDisabled)
    {
      filterErrors := if checked then 1 else 0;
      reloadPending := true;
    }

    /** The delayed reload: the parameters are rebuilt from the filters, and the store filtered again. */
    method RunReload()
      modifies this
      ensures extraParams == Params(userfilter, filterErrors, vmidFilter) && !reloadPending
      ensures userfilter == old(userfilter) && filterErrors == old(filterErrors) && viewDisabled == old(viewDisabled)
    {
      extraParams := Params(userfilter, filterErrors, vmidFilter);
      reloadPending := false;
    }

    /** View is enabled exactly when a task is selected. */
    method OnSelectionChange(selections: seq<string>)
      modifies this
      ensures viewDisabled == (selections == [])
      ensures userfilter == old(userfilter) && filterErrors == old(filterErrors) && extraParams == old(extraParams)
      ensures reloadPending == old(reloadPending)
    {
      viewDisabled := selections == [];
    }
  }

  /** run_task_viewer: nothing without a selection, otherwise the viewer of the first selected task. */
  function TaskViewer(selections: seq<string>): (r: Option<string>)
    ensures r.Some? <==> selections != []
    ensures r.Some? ==> r.value == selections[0]
  {
    if selections == [] then None else Some(selections[0])
  }

  /**
   * Filtering by a user and errors only: once the reload runs, the server is
   * asked for exactly those, and for the view's guest when it has one.
   */
  method FilterErrorsOfUser(vmidFilter: Value, user: string) returns (params: Obj)
    requires user != ""
    ensures "errors" in params && params["errors"] == Num(1) && "userfilter" in params && params["userfilter"] == Str(user)
    ensures "vmid" in params <==> Truthy(vmidFilter)
  {
    var v := new TaskView(vmidFilter);
    v.OnUserKeyup(user);
    v.OnErrorsChange(true);
    v.RunReload();
    params := v.extraParams;
  }
}
