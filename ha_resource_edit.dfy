/**
 * The editor of an HA resource (PVE.ha.VMResourceEdit and its input panel
 * PVE.ha.VMResourceInputPanel): the service id "type:id" it loads and
 * submits, the vote count behind the few-votes hint, and the hint shown
 * for a disabled resource.
 *
 * PVE.Utils.delete_if_default is not part of this model: it is a parameter.
 */
module HaResourceEdit {
  import opened Js
  import Common

  const ResourcesUrl: string := "/api2/extjs/cluster/ha/resources"
  const UnexpectedTypeError: string := "got unexpected resource type"
  const MinQuorumVotes: int := 3

  // ---------------------------------------------------------------------
  // Service ids: /^(\S+):(\S+)$/

  /** The last ':' at or before position p, but not at position 0. */
  function LastColon(s: string, p: nat): (r: Option<nat>)
    requires p < |s|
    ensures r.Some? ==> 1 <= r.value <= p && s[r.value] == ':'
    ensures r.Some? ==> forall i :: r.value < i <= p ==> s[i] != ':'
    ensures r.None? ==> forall i :: 1 <= i <= p ==> s[i] != ':'
  {
    if p < 1 then None
    else if s[p] == ':' then Some(p)
    else LastColon(s, p - 1)
  }

  /**
   * The two parts of a service id: the whole text free of white space, cut
   * at a ':' with text on both sides; the first part is matched greedily,
   * so the cut is at the last such ':'.
   */
  function SplitSid(sid: string): (r: Option<(string, string)>)
    ensures r.Some? ==> sid == r.value.0 + ":" + r.value.1
    ensures r.Some? ==> r.value.0 != [] && r.value.1 != [] && NoSpace(r.value.0) && NoSpace(r.value.1)
    ensures r.Some? ==> forall i :: 0 <= i < |r.value.1| - 1 ==> r.value.1[i] != ':'
    ensures r.None? ==> !NoSpace(sid) || forall i :: 1 <= i < |sid| - 1 ==> sid[i] != ':'
  {
    if |sid| < 3 || !NoSpace(sid) then None
    else
      match LastColon(sid, |sid| - 2)
      case None => None
      case Some(p) =>
        var a, b := sid[..p], sid[p + 1..];
        assert sid == a + ":" + b;
        assert forall i :: 0 <= i < |b| - 1 ==> b[i] == sid[p + 1 + i];
        Some((a, b))
  }

  /** A type and an id without a ':' inside it split back into themselves. */
  lemma SplitSidOf(typ: string, id: string)
    requires typ != [] && NoSpace(typ) && id != [] && NoSpace(id)
    requires forall i :: 0 <= i < |id| - 1 ==> id[i] != ':'
    ensures SplitSid(typ + ":" + id) == Some((typ, id))
  {
    var sid := typ + ":" + id;
    var p := |typ|;
    JoinedAtColon(typ, id);
    LastColonAt(sid, |sid| - 2, p);
    assert sid[..p] == typ && sid[p + 1..] == id;
  }

  /** typ:id has no white space, its colon at |typ|, and none after it but possibly the last character. */
  lemma JoinedAtColon(typ: string, id: string)
    requires NoSpace(typ) && id != [] && NoSpace(id)
    requires forall i :: 0 <= i < |id| - 1 ==> id[i] != ':'
    ensures var sid := typ + ":" + id;
            && NoSpace(sid) && sid[|typ|] == ':'
            && forall i :: |typ| < i <= |sid| - 2 ==> sid[i] != ':'
  {
    var sid := typ + ":" + id;
    var p := |typ|;
    assert forall i :: 0 <= i < |sid| ==> sid[i] == (if i < p then typ[i] else if i == p then ':' else id[i - p - 1]);
  }

  lemma {:induction false} LastColonAt(s: string, p: nat, q: nat)
    requires p < |s| && 1 <= q <= p && s[q] == ':'
    requires forall i :: q < i <= p ==> s[i] != ':'
    ensures LastColon(s, p) == Some(q)
    decreases p
  {
    if p > q {
      LastColonAt(s, p - 1, q);
    }
  }

  /** The guest types an HA resource may be. */
  predicate IsGuestType(t: string)
  {
    t == "vm" || t == "ct"
  }

  /**
   * The load callback of an existing resource: the guest id is the part of
   * the service id after the ':', for a 'vm' or 'ct' resource; any other
   * type throws, and a service id that does not match at all fails on the
   * missing match.
   */
  function LoadValues(values: Obj): (r: Result<Obj>)
    ensures SplitSid(ToStr(Get(values, "sid"))).None? <==> r == Err(TypeError)
    ensures r.Ok? <==> SplitSid(ToStr(Get(values, "sid"))).Some? && IsGuestType(SplitSid(ToStr(Get(values, "sid"))).value.0)
    ensures r.Ok? ==> r.value == values["vmid" := Str(SplitSid(ToStr(Get(values, "sid"))).value.1)]
    ensures r.Err? && r != Err(TypeError) ==> r.msg == UnexpectedTypeError
  {
    match SplitSid(ToStr(Get(values, "sid")))
    case None => Err(TypeError)
    case Some((typ, id)) =>
      if !IsGuestType(typ) then Err(UnexpectedTypeError)
      else Ok(values["vmid" := Str(id)])
  }

  /**
   * onGetValues before the defaults are dropped: a new resource takes its
   * service id from the guest id; the guest id itself is never submitted.
   */
  function Prepared(values: Obj, isCreate: bool): (r: Obj)
    ensures "vmid" !in r
    ensures isCreate ==> Get(r, "sid") == Get(values, "vmid")
    ensures forall k :: k in values && k != "vmid" && (isCreate ==> k != "sid") ==> k in r && r[k] == values[k]
    ensures forall k :: k in r ==> k in values || k == "sid"
  {
    var v := if isCreate then values["sid" := Get(values, "vmid")] else values;
    v - {"vmid"}
  }

  /** onGetValues: the prepared values, then group, max_restart and max_relocate dropped where they hold their defaults. */
  method OnGetValues(values: Obj, isCreate: bool, deleteIfDefault: (Obj, string, string, bool) -> Obj) returns (r: Obj)
    ensures r == deleteIfDefault(deleteIfDefault(deleteIfDefault(Prepared(values, isCreate), "group", "", isCreate),
                                                 "max_restart", "1", isCreate),
                                 "max_relocate", "1", isCreate)
  {
    r := values;
    if isCreate {
      r := r["sid" := Get(r, "vmid")];
    }
    r := r - {"vmid"};
    r := deleteIfDefault(r, "group", "", isCreate);
    r := deleteIfDefault(r, "max_restart", "1", isCreate);
    r := deleteIfDefault(r, "max_relocate", "1", isCreate);
  }

  /**
   * The fields an existing resource's form reads back: the guest id is a
   * display field there, which is not submitted.
   */
  const EditFields: set<string> := {"max_restart", "max_relocate", "group", "state", "comment"}

  /**
   * Loading a resource and submitting it unchanged sends back, of the loaded
   * values, exactly those the form has a field for, as they were; the guest
   * id the load added is not sent.
   */
  lemma LoadThenSubmit(values: Obj)
    requires LoadValues(values).Ok?
    ensures Prepared(FormValues(LoadValues(values).value, EditFields), false) == FormValues(values, EditFields)
  {
    var loaded := LoadValues(values).value;
    var form := FormValues(loaded, EditFields);
    assert "vmid" !in EditFields;
    assert forall k :: k in Prepared(form, false) <==> k in FormValues(values, EditFields);
  }

  /** A guest's resource, created with its guest id, loads back with that id. */
  lemma CreatedThenLoaded(typ: string, id: string, values: Obj)
    requires IsGuestType(typ) && id != [] && NoSpace(id) && ':' !in id
    requires Get(values, "sid") == Str(typ + ":" + id)
    ensures LoadValues(values).Ok? && Get(LoadValues(values).value, "vmid") == Str(id)
  {
    assert NoSpace(typ);
    SplitSidOf(typ, id);
  }

  /** The edit window: created with POST without a guest id, PUT to the resource otherwise. */
  lemma ResourceWindow(vmid: Value)
    ensures var w := Common.OpenEdit(ResourcesUrl, vmid);
            (w.create <==> !Truthy(vmid))
            && (w.create ==> w.verb == "POST" && w.url == "/api2/extjs/cluster/ha/resources")
            && (!w.create ==> w.verb == "PUT" && w.url == "/api2/extjs/cluster/ha/resources/" + ToStr(vmid))
  {
    var w := Common.OpenEdit(ResourcesUrl, vmid);
    if !w.create {
      assert w.url == w.url[..|ResourcesUrl| + 1] + w.url[|ResourcesUrl| + 1..];
    }
  }

  // ---------------------------------------------------------------------
  // Fields

  /** An integer field: its default and its bounds. */
  datatype IntField = IntField(name: string, default: int, min: int, max: int)

  const MaxRestart: IntField := IntField("max_restart", 1, 0, 10)
  const MaxRelocate: IntField := IntField("max_relocate", 1, 0, 10)

  /** A value the field accepts: it may not be blank and must lie within the bounds. */
  predicate Accepts(f: IntField, v: Option<int>)
  {
    v.Some? && f.min <= v.value <= f.max
  }

  /** Both limits start at 1 and accept 0 to 10, and neither may be left blank. */
  lemma LimitsAccept(f: IntField, v: int)
    requires f == MaxRestart || f == MaxRelocate
    ensures Accepts(f, Some(f.default))
    ensures Accepts(f, Some(v)) <==> 0 <= v <= 10
    ensures !Accepts(f, None)
  {
  }

  /** The field showing the guest: a display of the id when editing, a guest id selector when creating; labelled CT only for a container being edited. */
  function GuestField(vmid: Value, guestType: Value): (r: (string, string))
    ensures r.0 == (if Truthy(vmid) then "displayfield" else "pveGuestIDSelector")
    ensures r.1 == "CT" <==> Truthy(vmid) && StrictEq(guestType, Str("ct"))
    ensures r.1 == "CT" || r.1 == "VM"
  {
    (if Truthy(vmid) then "displayfield" else "pveGuestIDSelector",
     if Truthy(vmid) && StrictEq(guestType, Str("ct")) then "CT" else "VM")
  }

  // ---------------------------------------------------------------------
  // Quorum votes

  /** What one node counts: its quorum votes read by parseInt, NaN counting as 0. */
  function VoteOf(node: Obj): int
  {
    match ParseInt(ToStr(Get(node, "quorum_votes")))
    case None => 0
    case Some(v) => v
  }

  /** The votes of the nodes, added up in order. */
  function Votes(nodes: seq<Obj>): int
  {
    if nodes == [] then 0 else Votes(nodes[..|nodes| - 1]) + VoteOf(nodes[|nodes| - 1])
  }

  /** The total the success callback adds up. */
  method TotalVotes(nodes: seq<Obj>) returns (votes: int)
    ensures votes == Votes(nodes)
  {
    hide VoteOf;
    votes := 0;
    var i := 0;
    while i < |nodes|
      invariant 0 <= i <= |nodes|
      invariant votes == Votes(nodes[..i])
    {
      assert nodes[..i + 1][..i] == nodes[..i];
      votes := votes + VoteOf(nodes[i]);
      i := i + 1;
    }
    assert nodes[..i] == nodes;
  }

  /** A node whose votes are a non-negative number counts that number. */
  lemma VoteOfNumber(node: Obj, n: nat)
    requires Get(node, "quorum_votes") == Num(n)
    ensures VoteOf(node) == n
  {
    ParseIntOfNatString(n);
  }

  /** A node without votes counts nothing: parseInt reads "undefined" as NaN. */
  lemma VoteOfMissing(node: Obj)
    requires !Defined(node, "quorum_votes")
    ensures VoteOf(node) == 0
  {
    var s := ToStr(Undefined);
    assert !IsSpace(s[0]) && s[0] != '-' && s[0] != '+';
    assert TrimStart(s) == s;
    assert DigitRun(s) == 0;
  }

  /** In a cluster whose nodes have one vote each, the total is the number of nodes. */
  lemma {:induction false} OneVoteEach(nodes: seq<Obj>)
    requires forall i :: 0 <= i < |nodes| ==> Get(nodes[i], "quorum_votes") == Num(1)
    ensures Votes(nodes) == |nodes|
    decreases |nodes|
  {
    if nodes != [] {
      OneVoteEach(nodes[..|nodes| - 1]);
      VoteOfNumber(nodes[|nodes| - 1], 1);
    }
  }

  const FewVotesPrefix: string := "You need at least three quorum votes for a reliable HA cluster. See the online help for details. Current votes: "

  function FewVotesText(votes: int): string
  {
    FewVotesPrefix + IntToString(votes)
  }

  class HaResourcePanel {
    var disabledHintVisible: bool
    var fewVotesVisible: bool
    var fewVotesText: string

    constructor()
      ensures !disabledHintVisible && !fewVotesVisible
    {
      disabledHintVisible, fewVotesVisible := false, false;
      fewVotesText := "";
    }

    /** The node list loaded: with fewer than three votes in all, the hint shows them. */
    method OnNodesLoaded(nodes: seq<Obj>)
      modifies this
      ensures Votes(nodes) < MinQuorumVotes ==> fewVotesVisible && fewVotesText == FewVotesText(Votes(nodes))
      ensures Votes(nodes) >= MinQuorumVotes ==> fewVotesVisible == old(fewVotesVisible) && fewVotesText == old(fewVotesText)
      ensures disabledHintVisible == old(disabledHintVisible)
    {
      var votes := TotalVotes(nodes);
      if votes < MinQuorumVotes {
        fewVotesText := FewVotesText(votes);
        fewVotesVisible := true;
      }
    }

    /** The change listener of the requested state: the hint shows exactly for 'disabled'. */
    method OnStateChange(newValue: Value)
      modifies this
      ensures disabledHintVisible <==> StrictEq(newValue, Str("disabled"))
      ensures fewVotesVisible == old(fewVotesVisible) && fewVotesText == old(fewVotesText)
    {
      if StrictEq(newValue, Str("disabled")) {
        disabledHintVisible := true;
      } else {
        if disabledHintVisible {
          disabledHintVisible := false;
        }
      }
    }
  }

  /** A fresh panel of a cluster of n single-vote nodes shows the few-votes hint exactly when n is below three. */
  method FewVotesHint(nodes: seq<Obj>) returns (p: HaResourcePanel)
    requires forall i :: 0 <= i < |nodes| ==> Get(nodes[i], "quorum_votes") == Num(1)
    ensures p.fewVotesVisible <==> |nodes| < 3
  {
    p := new HaResourcePanel();
    p.OnNodesLoaded(nodes);
    OneVoteEach(nodes);
  }
}
