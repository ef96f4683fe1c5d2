/**
 * The destroy confirmation window (PVE.window.SafeDestroy): the user types
 * the guest's id into a number field, and only then can Remove be pressed
 * (or Enter hit) to send the DELETE request.
 *
 * PVE.Utils.format_task_description is not part of this model: it is a
 * parameter.
 */
module SafeDestroy {
  import opened Js

  const NoIdError: string := "no ID specified"
  const NoTypeError: string := "no VM type specified"
  const UnknownTypeError: string := "unknown VM type specified"

  /** The destroy task of a guest type: qmdestroy for a VM, vzdestroy for a container, none for anything else. */
  function DestroyTask(typ: Value): (r: Option<string>)
    ensures StrictEq(typ, Str("VM")) <==> r == Some("qmdestroy")
    ensures StrictEq(typ, Str("CT")) <==> r == Some("vzdestroy")
    ensures r.None? <==> !StrictEq(typ, Str("VM")) && !StrictEq(typ, Str("CT"))
  {
    if StrictEq(typ, Str("VM")) then Some("qmdestroy")
    else if StrictEq(typ, Str("CT")) then Some("vzdestroy")
    else None
  }

  /** The window's texts: the message describing the destroy task, and the confirm field's label. */
  datatype Texts = Texts(message: string, fieldLabel: string)

  /**
   * initComponent: the item needs an id and a type, checked in that order;
   * a type other than VM and CT throws. The label asks for the id, shown in
   * parentheses.
   */
  function Init(item: Obj, formatTask: (string, Value) -> string): (r: Result<Texts>)
    ensures !Defined(item, "id") ==> r == Err(NoIdError)
    ensures Defined(item, "id") && !Defined(item, "type") ==> r == Err(NoTypeError)
    ensures Defined(item, "id") && Defined(item, "type") && DestroyTask(item["type"]).None? ==> r == Err(UnknownTypeError)
    ensures r.Ok? <==> Defined(item, "id") && Defined(item, "type") && DestroyTask(item["type"]).Some?
    ensures r.Ok? ==> r.value.message == formatTask(DestroyTask(item["type"]).value, item["id"])
    ensures r.Ok? ==> r.value.fieldLabel == "Please enter the ID to confirm (" + ToStr(item["id"]) + ")"
  {
    if !Defined(item, "id") then Err(NoIdError)
    else if !Defined(item, "type") then Err(NoTypeError)
    else match DestroyTask(item["type"])
      case None => Err(UnknownTypeError)
      case Some(task) => Ok(Texts(formatTask(task, item["id"]), "Please enter the ID to confirm (" + ToStr(item["id"]) + ")"))
  }

  class SafeDestroyWindow {
    const id: Value
    const url: string
    var removeDisabled: bool
    /** The DELETE requests sent, by URL. */
    var requests: seq<string>

    /** The window opens with Remove disabled and nothing sent. */
    constructor(id: Value, url: string)
      ensures this.id == id && this.url == url
      ensures removeDisabled && requests == []
    {
      this.id := id;
      this.url := url;
      removeDisabled := true;
      requests := [];
    }

    /** The change listener of the confirm field: Remove is enabled exactly when the value is the item's id. */
    method OnConfirmChange(value: Value)
      modifies this
      ensures removeDisabled == !StrictEq(value, id)
      ensures requests == old(requests)
    {
      if StrictEq(value, id) {
        removeDisabled := false;
      } else {
        removeDisabled := true;
      }
    }

    /** A click on Remove: the DELETE request on the window's URL. */
    method OnRemoveClick()
      modifies this
      ensures requests == old(requests) + [url]
      ensures removeDisabled == old(removeDisabled)
    {
      requests := requests + [url];
    }

    /** A special key in the confirm field: Enter clicks Remove, but only while it is enabled. */
    method OnSpecialKey(isEnter: bool)
      modifies this
      ensures requests == old(requests) + (if !old(removeDisabled) && isEnter then [url] else [])
      ensures removeDisabled == old(removeDisabled)
    {
      if !removeDisabled && isEnter {
        OnRemoveClick();
      }
    }
  }

  /**
   * Whatever the user types, hitting Enter afterwards sends the DELETE
   * request exactly when the last value entered is the id itself.
   */
  method ConfirmThenEnter(id: Value, url: string, typed: seq<Value>) returns (sent: seq<string>)
    ensures typed == [] ==> sent == []
    ensures typed != [] ==> (sent == [url] <==> StrictEq(typed[|typed| - 1], id))
    ensures typed != [] && !StrictEq(typed[|typed| - 1], id) ==> sent == []
  {
    var w := new SafeDestroyWindow(id, url);
    var i := 0;
    while i < |typed|
      invariant 0 <= i <= |typed|
      invariant w.requests == [] && w.url == url && w.id == id
      invariant i == 0 ==> w.removeDisabled
      invariant i > 0 ==> w.removeDisabled == !StrictEq(typed[i - 1], id)
    {
      w.OnConfirmChange(typed[i]);
      i := i + 1;
    }
    w.OnSpecialKey(true);
    sent := w.requests;
  }

  /**
   * The confirm field is a number field, so what it reports is a number (or
   * null when blank): an id given as text is never matched, and Remove
   * stays disabled.
   */
  lemma TextIdNeverConfirmed(s: string, value: Value)
    requires value.Num? || value.Null?
    ensures !StrictEq(value, Str(s))
  {
  }
}
