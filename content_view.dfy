/**
 * The content view of a storage (PVE.storage.ContentView): the rules that
 * enable Restore and Remove, the guest type a backup is restored as, the
 * text a volume is listed under, and the search box's filter.
 *
 * PVE.Utils.render_storage_content is not part of this model: it is a
 * parameter. Case-insensitive matching is modelled for the ASCII letters.
 */
module ContentView {
  import opened Js
  import Common

  const NoStorageError: string := "no storage ID specified"

  /**
   * The view needs a node name and a storage id, and throws without either,
   * the node checked first; it lists the storage's content URL.
   */
  function BaseUrl(selNode: Obj): (r: Result<string>)
    ensures !Truthy(Get(selNode, "node")) ==> r == Err(Common.NoNodeError)
    ensures Truthy(Get(selNode, "node")) && !Truthy(Get(selNode, "storage")) ==> r == Err(NoStorageError)
    ensures r.Ok? <==> Truthy(Get(selNode, "node")) && Truthy(Get(selNode, "storage"))
    ensures r.Ok? ==> r.value == "/nodes/" + ToStr(Get(selNode, "node")) + "/storage/" + ToStr(Get(selNode, "storage")) + "/content"
  {
    match Common.NodeName(selNode)
    case Err(msg) => Err(msg)
    case Ok(node) =>
      if !Truthy(Get(selNode, "storage")) then Err(NoStorageError)
      else Ok("/nodes/" + ToStr(node) + "/storage/" + ToStr(Get(selNode, "storage")) + "/content")
  }

  /** A volume of the storage: its id, its content type and the text it is listed under. */
  datatype Content = Content(volid: string, content: Value, text: string)

  /** Restore is enabled for a selected backup, and only for one. */
  predicate RestoreEnabled(rec: Option<Content>)
  {
    rec.Some? && StrictEq(rec.value.content, Str("backup"))
  }

  /** Remove is enabled for a selected volume that is not a disk image. */
  predicate RemoveEnabled(rec: Option<Content>)
  {
    rec.Some? && !StrictEq(rec.value.content, Str("images"))
  }

  /** The two buttons are never both enabled on a disk image, and a backup can be both restored and removed. */
  lemma ButtonsOf(rec: Content)
    ensures StrictEq(rec.content, Str("images")) ==> !RestoreEnabled(Some(rec)) && !RemoveEnabled(Some(rec))
    ensures StrictEq(rec.content, Str("backup")) ==> RestoreEnabled(Some(rec)) && RemoveEnabled(Some(rec))
    ensures !RestoreEnabled(None) && !RemoveEnabled(None)
  {
  }

  /** The guest type a backup restores as: qemu for a vzdump-qemu- archive, lxc for an openvz or lxc one, none otherwise. */
  function VmType(volid: string): (r: Option<string>)
    ensures Contains(volid, "vzdump-qemu-") ==> r == Some("qemu")
    ensures !Contains(volid, "vzdump-qemu-") && (Contains(volid, "vzdump-openvz-") || Contains(volid, "vzdump-lxc-")) ==> r == Some("lxc")
    ensures r.None? <==> !Contains(volid, "vzdump-qemu-") && !Contains(volid, "vzdump-openvz-") && !Contains(volid, "vzdump-lxc-")
  {
    if Contains(volid, "vzdump-qemu-") then Some("qemu")
    else if Contains(volid, "vzdump-openvz-") || Contains(volid, "vzdump-lxc-") then Some("lxc")
    else None
  }

  /** A string contains each of its infixes. */
  lemma {:induction false} ContainsInfix(a: string, p: string, b: string)
    ensures Contains(a + p + b, p)
    decreases |a|
  {
    if a == [] {
      assert (a + p + b)[..|p|] == p;
    } else {
      ContainsInfix(a[1..], p, b);
      assert (a + p + b)[1..] == a[1..] + p + b;
    }
  }

  /** Backups as vzdump names them restore as the guest type their name carries. */
  lemma BackupTypes(storage: string, rest: string)
    ensures VmType(storage + "vzdump-qemu-" + rest) == Some("qemu")
    ensures !Contains(storage + "vzdump-lxc-" + rest, "vzdump-qemu-") ==> VmType(storage + "vzdump-lxc-" + rest) == Some("lxc")
    ensures !Contains(storage + "vzdump-openvz-" + rest, "vzdump-qemu-") ==> VmType(storage + "vzdump-openvz-" + rest) == Some("lxc")
  {
    ContainsInfix(storage, "vzdump-qemu-", rest);
    ContainsInfix(storage, "vzdump-lxc-", rest);
    ContainsInfix(storage, "vzdump-openvz-", rest);
  }

  /** The restore window: where, what, how it is shown, and as which guest type. */
  datatype Restore = Restore(nodename: Value, volid: string, volidText: string, vmtype: string)

  /** The Restore handler: a window for a backup of a known guest type, nothing for any other volume. */
  function RunRestore(nodename: Value, rec: Content, render: Content -> string): (r: Option<Restore>)
    ensures r.Some? <==> VmType(rec.volid).Some?
    ensures r.Some? ==> r.value == Restore(nodename, rec.volid, render(rec), VmType(rec.volid).value)
  {
    match VmType(rec.volid)
    case None => None
    case Some(t) => Some(Restore(nodename, rec.volid, render(rec), t))
  }

  /** The request the Remove handler sends: DELETE on the volume under the content URL. */
  datatype Request = Request(url: string, verb: string)

  function RemoveRequest(baseurl: string, rec: Content): (r: Request)
    ensures r.verb == "DELETE"
    ensures IsPrefix(baseurl + "/", r.url) && r.url[|baseurl| + 1..] == rec.volid
  {
    Request(baseurl + "/" + rec.volid, "DELETE")
  }

  /** The text field's convert: a value that is set is kept, otherwise the rendered volume stands in. */
  function Text(value: Value, rec: Content, render: (Value, Content) -> Value): (r: Value)
    ensures Truthy(value) ==> r == value
    ensures !Truthy(value) ==> r == render(value, rec)
  {
    if Truthy(value) then value else render(value, rec)
  }

  /** The search filter on the text: a case-insensitive substring match. */
  predicate Matches(text: string, query: string)
  {
    Contains(Lower(text), Lower(query))
  }

  lemma {:induction false} LowerIdempotent(s: string)
    ensures Lower(Lower(s)) == Lower(s)
  {
    if s != [] {
      LowerIdempotent(s[1..]);
      assert Lower(s)[1..] == Lower(s[1..]);
    }
  }

  /** The match ignores the case of both text and query, and the empty query matches everything. */
  lemma MatchesIgnoresCase(text: string, query: string)
    ensures Matches(text, query) == Matches(Lower(text), query) == Matches(text, Lower(query))
    ensures Matches(text, "")
    ensures Matches(text, text)
  {
    LowerIdempotent(text);
    LowerIdempotent(query);
    ContainsEmpty(Lower(text));
    ContainsInfix([], Lower(text), []);
    assert [] + Lower(text) + [] == Lower(text);
  }

  /** The volumes whose text matches the query, in their order. */
  function Filtered(records: seq<Content>, query: string): (r: seq<Content>)
    ensures |r| <= |records|
    ensures forall c :: c in r <==> c in records && Matches(c.text, query)
  {
    if records == [] then []
    else
      var rest := Filtered(records[1..], query);
      assert forall c :: c in records <==> c == records[0] || c in records[1..];
      if Matches(records[0].text, query) then [records[0]] + rest else rest
  }

  /** The store of the view, with the filter the search box last set. */
  class ContentStore {
    var records: seq<Content>
    var query: Option<string>

    constructor(records: seq<Content>)
      ensures this.records == records && query.None?
    {
      this.records := records;
      query := None;
    }

    /** The volumes listed. */
    function Shown(): seq<Content>
      reads this
    {
      if query.None? then records else Filtered(records, query.value)
    }

    /**
     * The search box's keyup: the previous filter is cleared and the new one
     * set, so what is listed depends on the last query alone.
     */
    method Search(q: string)
      modifies this
      ensures query == Some(q) && records == old(records)
      ensures Shown() == Filtered(records, q)
    {
      query := None;
      query := Some(q);
    }
  }
}
