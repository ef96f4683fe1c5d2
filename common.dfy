/**
 * Conventions the edit windows and panels of the console share: the node
 * a window is opened for, and whether an edit window creates an object
 * (POST to the collection) or changes one (PUT to the object).
 */
module Common {
  import opened Js

  const NoNodeError: string := "no node name specified"
  const NoVmidError: string := "no VM ID specified"

  /** A window opened for a tree node needs the node's name; without one it throws. */
  function NodeName(selNode: Obj): (r: Result<Value>)
    ensures r.Err? <==> !Truthy(Get(selNode, "node"))
    ensures r.Err? ==> r.msg == NoNodeError
    ensures r.Ok? ==> r.value == Get(selNode, "node") && Truthy(r.value)
  {
    if !Truthy(Get(selNode, "node")) then Err(NoNodeError) else Ok(Get(selNode, "node"))
  }

  /** A guest's panel needs the node's name and the guest's id, and throws without either, the node checked first. */
  function GuestIds(selNode: Obj): (r: Result<(Value, Value)>)
    ensures !Truthy(Get(selNode, "node")) ==> r == Err(NoNodeError)
    ensures Truthy(Get(selNode, "node")) && !Truthy(Get(selNode, "vmid")) ==> r == Err(NoVmidError)
    ensures r.Ok? <==> Truthy(Get(selNode, "node")) && Truthy(Get(selNode, "vmid"))
    ensures r.Ok? ==> r.value == (Get(selNode, "node"), Get(selNode, "vmid"))
  {
    match NodeName(selNode)
    case Err(msg) => Err(msg)
    case Ok(node) =>
      if !Truthy(Get(selNode, "vmid")) then Err(NoVmidError) else Ok((node, Get(selNode, "vmid")))
  }

  /** What an edit window submits to. */
  datatype EditWindow = EditWindow(create: bool, verb: string, url: string)

  /**
   * An edit window creates when it has no id of the object to edit: it then
   * posts to the collection; otherwise it puts to the object's own URL.
   */
  function OpenEdit(base: string, id: Value): (w: EditWindow)
    ensures w.create <==> !Truthy(id)
    ensures w.create ==> w.verb == "POST" && w.url == base
    ensures !w.create ==> w.verb == "PUT" && IsPrefix(base + "/", w.url) && w.url[|base| + 1..] == ToStr(id)
  {
    if !Truthy(id) then EditWindow(true, "POST", base)
    else
      var url := base + "/" + ToStr(id);
      assert url[..|base| + 1] == base + "/" && url[|base| + 1..] == ToStr(id);
      EditWindow(false, "PUT", url)
  }
}
