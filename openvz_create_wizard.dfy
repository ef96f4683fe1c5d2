/**
 * The wizard that creates an OpenVZ container (PVE.openvz.CreateWizard):
 * the values the General and Network panels contribute, the password
 * validators, the summary the Confirm panel lists, and the request its
 * submit sends.
 *
 * The wizard's merging of the panels' values (getValues) is not part of
 * this model: the summary and the submit take the merged values as given.
 * PVE.Parser.printOpenVZNetIf is a parameter.
 */
module OpenvzCreateWizard {
  import opened Js
  import Sorting

  const PasswordMinLength: nat := 5
  const MismatchText: string := "Passwords does not match!"

  /**
   * The General panel's onGetValues: the password confirmation is never
   * submitted, and the pool only when one is chosen.
   */
  method GeneralValues(values: Obj) returns (kv: Obj)
    ensures forall k :: k in kv <==> k in values && k != "confirmpw" && (k == "pool" ==> Truthy(values[k]))
    ensures forall k :: k in kv ==> kv[k] == values[k]
  {
    kv := values - {"confirmpw"};
    if !Truthy(Get(kv, "pool")) {
      kv := kv - {"pool"};
    }
  }

  /** The password field: required, and at least five characters long. */
  predicate PasswordValid(password: string)
  {
    password != "" && |password| >= PasswordMinLength
  }

  /** The confirmation's validator: an error exactly when it differs from the password. */
  function ConfirmError(password: string, confirm: string): (r: Option<string>)
    ensures r.Some? <==> password != confirm
    ensures r.Some? ==> r.value == MismatchText
  {
    if password != confirm then Some(MismatchText) else None
  }

  /** The confirmation field: required, and without a validator error. */
  predicate ConfirmValid(password: string, confirm: string)
  {
    confirm != "" && ConfirmError(password, confirm).None?
  }

  /** When both fields are valid, the same password of at least five characters was typed twice. */
  lemma PasswordsAgree(password: string, confirm: string)
    requires PasswordValid(password) && ConfirmValid(password, confirm)
    ensures confirm == password && |confirm| >= PasswordMinLength
  {
  }

  /** A short password is refused even when it is confirmed. */
  lemma ShortPasswordRefused(password: string)
    requires |password| < PasswordMinLength
    ensures !PasswordValid(password)
    ensures password != "" ==> ConfirmValid(password, password)
  {
  }

  /** The description of a network interface printOpenVZNetIf is given. */
  datatype NetIf = NetIf(ifname: string, bridge: Value, firewall: Value)

  /**
   * The Network panel's onGetValues: in bridged mode only the interface eth0
   * on the chosen bridge, with its firewall flag; in any other mode (routed)
   * only the IP address.
   */
  function NetworkValues(values: Obj, printNetIf: NetIf -> string): (r: Obj)
    ensures StrictEq(Get(values, "networkmode"), Str("bridge")) ==>
              r.Keys == {"netif"} && r["netif"] == Str(printNetIf(NetIf("eth0", Get(values, "bridge"), Get(values, "firewall"))))
    ensures !StrictEq(Get(values, "networkmode"), Str("bridge")) ==>
              r.Keys == {"ip_address"} && r["ip_address"] == Get(values, "ip_address")
  {
    if StrictEq(Get(values, "networkmode"), Str("bridge")) then
      map["netif" := Str(printNetIf(NetIf("eth0", Get(values, "bridge"), Get(values, "firewall"))))]
    else
      map["ip_address" := Get(values, "ip_address")]
  }

  /** A container is created either bridged or routed: exactly one of netif and ip_address is submitted, never the mode itself. */
  lemma OneNetworkMode(values: Obj, printNetIf: NetIf -> string)
    ensures ("netif" in NetworkValues(values, printNetIf)) != ("ip_address" in NetworkValues(values, printNetIf))
    ensures "networkmode" !in NetworkValues(values, printNetIf)
    ensures "bridge" !in NetworkValues(values, printNetIf) && "firewall" !in NetworkValues(values, printNetIf)
  {
  }

  /**
   * The two radio boxes of the Network panel and the fields they enable:
   * the IP address in routed mode, the bridge and the firewall box in
   * bridged mode.
   */
  class NetworkPanel {
    var bridged: bool
    var ipDisabled: bool
    var bridgeDisabled: bool
    var firewallDisabled: bool

    /** Exactly the fields of the checked mode are enabled. */
    predicate Consistent()
      reads this
    {
      ipDisabled == bridged && bridgeDisabled == !bridged && firewallDisabled == !bridged
    }

    /** Routed mode is checked at first; the bridge and the firewall box start disabled. */
    constructor()
      ensures !bridged && Consistent()
    {
      bridged := false;
      ipDisabled := false;
      bridgeDisabled, firewallDisabled := true, true;
    }

    /** The routed box's change listener: the IP address is enabled exactly when it is checked. */
    method OnRoutedChange(checked: bool)
      modifies this
      ensures ipDisabled == !checked
      ensures bridged == old(bridged) && bridgeDisabled == old(bridgeDisabled) && firewallDisabled == old(firewallDisabled)
    {
      ipDisabled := !checked;
    }

    /** The bridged box's change listener: the bridge and the firewall box are enabled exactly when it is checked. */
    method OnBridgedChange(checked: bool)
      modifies this
      ensures firewallDisabled == !checked && bridgeDisabled == !checked
      ensures bridged == old(bridged) && ipDisabled == old(ipDisabled)
    {
      firewallDisabled := !checked;
      bridgeDisabled := !checked;
    }

    /** Choosing a mode checks its box and unchecks the other, and each fires its change listener. */
    method Choose(bridge: bool)
      modifies this
      ensures bridged == bridge && Consistent()
    {
      bridged := bridge;
      OnRoutedChange(!bridge);
      OnBridgedChange(bridge);
    }
  }

  /** A line of the Confirm panel's summary. */
  datatype Row = Row(key: string, value: Value)

  /** The summary lists every value but the delete list, the template storage and the password. */
  predicate Shown(key: string)
  {
    key != "delete" && key != "tmplstorage" && key != "password"
  }

  /** The summary store's sorter: by key, ascending. */
  function RowKeys(data: seq<Row>): (km: map<Row, Sorting.Key>)
    ensures forall r :: r in data ==> r in km && km[r] == Sorting.Text(r.key)
  {
    map r | r in data :: Sorting.Text(r.key)
  }

  /**
   * The Confirm panel's show listener: the values are walked in the order
   * of their keys (order), the shown ones collected as rows, and the store
   * sorted by key. Every shown value is listed once, with its value, and
   * nothing else is.
   */
  method Summary(kv: Obj, order: seq<string>) returns (rows: seq<Row>)
    requires Sorting.Distinct(order) && forall k :: k in order <==> k in kv
    ensures forall r :: r in rows <==> r.key in kv && Shown(r.key) && r.value == kv[r.key]
    ensures forall i, j :: 0 <= i < j < |rows| ==> Sorting.StrLe(rows[i].key, rows[j].key)
    ensures Sorting.Distinct(rows)
  {
    var data: seq<Row> := [];
    var i := 0;
    while i < |order|
      invariant 0 <= i <= |order|
      invariant forall r :: r in data <==> r.key in order[..i] && Shown(r.key) && r.value == kv[r.key]
      invariant Sorting.Distinct(data)
    {
      var k := order[i];
      if Shown(k) {
        assert k !in order[..i];
        Sorting.DistinctConcat(data, [Row(k, kv[k])]);
        data := data + [Row(k, kv[k])];
      }
      assert order[..i + 1] == order[..i] + [k];
      i := i + 1;
    }
    assert order[..i] == order;
    var km := RowKeys(data);
    rows := Sorting.Sort(data, km);
    Sorting.SortSorted(data, km);
    Sorting.PermutationMembers(rows, data);
    Sorting.DistinctPermutation(rows, data);
    forall i, j | 0 <= i < j < |rows|
      ensures Sorting.StrLe(rows[i].key, rows[j].key)
    {
      assert rows[i] in data && rows[j] in data;
      assert Sorting.KeyLe(Sorting.KeyOf(km, rows[i]), Sorting.KeyOf(km, rows[j]));
    }
  }

  /** A request to the API. */
  datatype Request = Request(url: string, verb: string, params: Obj)

  /**
   * The Confirm panel's submit: the delete list, the node name and the
   * template storage are taken out, and the rest is posted to the node's
   * OpenVZ containers.
   */
  method Submit(values: Obj) returns (req: Request)
    ensures req.verb == "POST"
    ensures req.url == "/nodes/" + ToStr(Get(values, "nodename")) + "/openvz"
    ensures forall k :: k in req.params <==> k in values && k != "delete" && k != "nodename" && k != "tmplstorage"
    ensures forall k :: k in req.params ==> req.params[k] == values[k]
  {
    var kv := values;
    kv := kv - {"delete"};
    var nodename := Get(kv, "nodename");
    kv := kv - {"nodename"};
    kv := kv - {"tmplstorage"};
    req := Request("/nodes/" + ToStr(nodename) + "/openvz", "POST", kv);
  }

  /**
   * The summary and the request agree: every value listed is submitted,
   * except the node, which is part of the URL; every value submitted is
   * listed, except the password.
   */
  method ConfirmAndSubmit(values: Obj, order: seq<string>) returns (rows: seq<Row>, req: Request)
    requires Sorting.Distinct(order) && forall k :: k in order <==> k in values
    ensures forall r :: r in rows && r.key != "nodename" ==> r.key in req.params && req.params[r.key] == r.value
    ensures forall k :: k in req.params && k != "password" ==> Row(k, req.params[k]) in rows
    ensures "nodename" in values ==> Row("nodename", values["nodename"]) in rows && IsPrefix("/nodes/", req.url)
  {
    rows := Summary(values, order);
    req := Submit(values);
  }

  /**
   * Creating from the General panel's values never submits the password
   * confirmation, nor an empty pool.
   */
  method SubmitGeneral(values: Obj) returns (req: Request)
    ensures "confirmpw" !in req.params
    ensures "pool" in req.params ==> Truthy(req.params["pool"])
    ensures "password" in values ==> "password" in req.params && req.params["password"] == values["password"]
  {
    var kv := GeneralValues(values);
    req := Submit(kv);
  }
}
