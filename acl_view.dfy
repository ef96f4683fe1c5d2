/**
 * The permission views of the data center (PVE.dc.ACLAdd and PVE.dc.ACLView):
 * the form that adds a group or user permission, the grid of access control
 * entries, possibly fixed to one path, and the request that removes one.
 */
module AclView {
  import opened Js

  const AclUrl: string := "/access/acl"
  const UnknownAclTypeError: string := "unknown ACL type"
  const UnknownDataTypeError: string := "unknown data type"
  const DefaultRole: string := "NoAccess"

  /** The fields of the add form. */
  datatype FormItem =
    | PathField(hidden: bool, value: Value)
    | GroupSelector
    | UserSelector
    | RoleSelector(role: string)
    | PropagateBox(checked: bool)

  /** The add form: its subject and its fields. */
  datatype AddForm = AddForm(subject: string, items: seq<FormItem>)

  /**
   * ACLAdd's initComponent: the path field (hidden when the view has a fixed
   * path), the group or user selector, the role selector preset to NoAccess,
   * and, without a fixed path, the Propagate box, checked. Any other type
   * throws.
   */
  method AclAdd(path: Value, aclType: Value) returns (r: Result<AddForm>)
    ensures r.Err? <==> !StrictEq(aclType, Str("group")) && !StrictEq(aclType, Str("user"))
    ensures r.Err? ==> r.msg == UnknownAclTypeError
    ensures r.Ok? ==> var items := r.value.items;
              && |items| == (if Truthy(path) then 3 else 4)
              && items[0] == PathField(Truthy(path), path)
              && (StrictEq(aclType, Str("group")) ==> items[1] == GroupSelector && r.value.subject == "Group Permission")
              && (StrictEq(aclType, Str("user")) ==> items[1] == UserSelector && r.value.subject == "User Permission")
              && items[2] == RoleSelector(DefaultRole)
              && (!Truthy(path) ==> items[3] == PropagateBox(true))
  {
    var items := [PathField(Truthy(path), path)];
    var subject: string;
    if StrictEq(aclType, Str("group")) {
      subject := "Group Permission";
      items := items + [GroupSelector];
    } else if StrictEq(aclType, Str("user")) {
      subject := "User Permission";
      items := items + [UserSelector];
    } else {
      return Err(UnknownAclTypeError);
    }
    items := items + [RoleSelector(DefaultRole)];
    if !Truthy(path) {
      items := items + [PropagateBox(true)];
    }
    r := Ok(AddForm(subject, items));
  }

  /** An access control entry as the grid lists it. */
  datatype Acl = Acl(path: Value, typ: Value, ugid: Value, roleid: Value, propagate: bool)

  /** The entries the grid lists: with a fixed path, those on exactly that path; otherwise all. */
  function Listed(entries: seq<Acl>, path: Value): (r: seq<Acl>)
    ensures |r| <= |entries|
    ensures forall e :: e in r <==> e in entries && (!Truthy(path) || StrictEq(e.path, path))
    ensures !Truthy(path) ==> r == entries
  {
    if entries == [] then []
    else
      var rest := Listed(entries[1..], path);
      assert forall e :: e in entries <==> e == entries[0] || e in entries[1..];
      assert entries == [entries[0]] + entries[1..];
      if !Truthy(path) || StrictEq(entries[0].path, path) then [entries[0]] + rest else rest
  }

  /** A fixed path shows no entry of another path, not even one of a path below it. */
  lemma FixedPathExact(entries: seq<Acl>, path: string, e: Acl)
    requires path != "" && e in entries
    ensures e in Listed(entries, Str(path)) <==> e.path == Str(path)
  {
  }

  /** render_ugid: a group is shown with an '@' before its id; a user as it is. */
  function RenderUgid(ugid: Value, typ: Value): (r: Value)
    ensures LooseEq(typ, Str("group")) ==> r == Str("@" + ToStr(ugid))
    ensures !LooseEq(typ, Str("group")) ==> r == ugid
  {
    if LooseEq(typ, Str("group")) then Str("@" + ToStr(ugid)) else ugid
  }

  /** The renderer marks exactly the groups: user ids never start with '@' on its account. */
  lemma GroupsMarked(ugid: string)
    ensures RenderUgid(Str(ugid), Str("group")) == Str("@" + ugid)
    ensures RenderUgid(Str(ugid), Str("user")) == Str(ugid)
  {
  }

  /**
   * The grid's columns, by data index: user/group and role, with Path added
   * in front and Propagate at the end when no path is fixed.
   */
  method Columns(path: Value) returns (cols: seq<string>)
    ensures Truthy(path) ==> cols == ["ugid", "roleid"]
    ensures !Truthy(path) ==> cols == ["path", "ugid", "roleid", "propagate"]
  {
    cols := ["ugid", "roleid"];
    if !Truthy(path) {
      cols := ["path"] + cols;
      cols := cols + ["propagate"];
    }
  }

  /**
   * The parameters of the Remove request: delete, the entry's path and role,
   * and its id as a group or a user; an entry of any other type throws.
   */
  function RemoveParams(e: Acl): (r: Result<Obj>)
    ensures r.Err? <==> !StrictEq(e.typ, Str("group")) && !StrictEq(e.typ, Str("user"))
    ensures r.Err? ==> r.msg == UnknownDataTypeError
    ensures r.Ok? ==> && {"delete", "path", "roles"} <= r.value.Keys
                      && r.value["delete"] == Num(1) && r.value["path"] == e.path && r.value["roles"] == e.roleid
    ensures StrictEq(e.typ, Str("group")) ==> r.Ok? && r.value.Keys == {"delete", "path", "roles", "groups"} && r.value["groups"] == e.ugid
    ensures StrictEq(e.typ, Str("user")) ==> r.Ok? && r.value.Keys == {"delete", "path", "roles", "users"} && r.value["users"] == e.ugid
  {
    var params := map["delete" := Num(1), "path" := e.path, "roles" := e.roleid];
    if StrictEq(e.typ, Str("group")) then Ok(params["groups" := e.ugid])
    else if StrictEq(e.typ, Str("user")) then Ok(params["users" := e.ugid])
    else Err(UnknownDataTypeError)
  }

  /**
   * What the add form submits for a path, a group or user id and a role;
   * Propagate is a field only without a fixed path, as 1 or 0.
   */
  function AddParams(aclType: string, path: Value, ugid: Value, role: Value, propagate: Option<bool>): (r: Obj)
    requires aclType == "group" || aclType == "user"
    ensures "path" in r && "roles" in r && "delete" !in r
    ensures r["path"] == path && r["roles"] == role
    ensures (aclType == "group") <==> "groups" in r
    ensures aclType == "group" ==> r["groups"] == ugid && "users" !in r
    ensures aclType == "user" ==> "users" in r && r["users"] == ugid
    ensures ("propagate" in r) <==> propagate.Some?
    ensures propagate.Some? ==> r["propagate"] == Num(if propagate.value then 1 else 0)
    ensures r.Keys <= {"path", "roles", "groups", "users", "propagate"}
  {
    var base := map["path" := path, "roles" := role, (if aclType == "group" then "groups" else "users") := ugid];
    if propagate.Some? then base["propagate" := Num(if propagate.value then 1 else 0)] else base
  }

  /**
   * Removing an entry undoes adding it on a fixed path: the request carries
   * the same parameters as the add, plus delete.
   */
  lemma RemoveUndoesAdd(aclType: string, path: Value, ugid: Value, role: Value)
    requires aclType == "group" || aclType == "user"
    ensures RemoveParams(Acl(path, Str(aclType), ugid, role, false)) == Ok(AddParams(aclType, path, ugid, role, None)["delete" := Num(1)])
  {
    var key := if aclType == "group" then "groups" else "users";
    var a := AddParams(aclType, path, ugid, role, None)["delete" := Num(1)];
    var b := map["delete" := Num(1), "path" := path, "roles" := role][key := ugid];
    assert a.Keys == b.Keys;
    assert forall k :: k in a ==> a[k] == b[k];
    assert a == b;
  }
}
