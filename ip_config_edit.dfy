/**
 * The cloud-init network editor of a VM (PVE.qemu.IPConfigPanel and
 * PVE.qemu.IPConfigEdit).  The form shows an address mode per protocol
 * (static, dhcp, and for IPv6 also auto/SLAAC) and folds the mode back into
 * the `ip`/`ip6` option on submit.
 *
 * PVE.Parser.printIPConfig and PVE.Parser.parseIPConfig are not part of
 * this model: they are parameters.
 */
module IPConfigEdit {
  import opened Js

  const ParseError: string := "Unable to parse network configuration"

  /** The printed option text of an ipconfig object. */
  type Printer = Obj -> string
  /** The ipconfig object of an option text, None when it cannot be parsed. */
  type Parser = (string, string) -> Option<Obj>

  /** The mode setIPConfig shows for a stored IPv4 address: dhcp, or static for anything else. */
  function V4Mode(ip: Value): Value
  {
    if StrictEq(ip, Str("dhcp")) then Str("dhcp") else Str("static")
  }

  /** The mode setIPConfig shows for a stored IPv6 address: dhcp or auto, or static for anything else. */
  function V6Mode(ip6: Value): Value
  {
    if StrictEq(ip6, Str("dhcp")) || StrictEq(ip6, Str("auto")) then ip6 else Str("static")
  }

  /**
   * setIPConfig's rewrite of the loaded data: each protocol gets its mode,
   * and an address that is a mode name is cleared from the address field.
   */
  function WithModes(data: Obj): (r: Obj)
    ensures forall k :: k in data ==> k in r
    ensures forall k :: k in r && k !in {"ip", "ip6", "ipv4mode", "ipv6mode"} ==> k in data && r[k] == data[k]
    ensures "ipv4mode" in r && "ipv6mode" in r
    ensures r["ipv4mode"] in {Str("static"), Str("dhcp")}
    ensures r["ipv6mode"] in {Str("static"), Str("dhcp"), Str("auto")}
    ensures r["ipv4mode"] == Str("static") ==> Get(r, "ip") == Get(data, "ip")
    ensures r["ipv4mode"] != Str("static") ==> Get(r, "ip") == Str("")
    ensures r["ipv6mode"] == Str("static") ==> Get(r, "ip6") == Get(data, "ip6")
    ensures r["ipv6mode"] != Str("static") ==> Get(r, "ip6") == Str("")
  {
    var ip, ip6 := Get(data, "ip"), Get(data, "ip6");
    var d4 := if StrictEq(ip, Str("dhcp")) then data["ipv4mode" := ip]["ip" := Str("")] else data["ipv4mode" := Str("static")];
    if StrictEq(ip6, Str("dhcp")) || StrictEq(ip6, Str("auto")) then d4["ipv6mode" := ip6]["ip6" := Str("")]
    else d4["ipv6mode" := Str("static")]
  }

  /** onGetValues's rewrite of the form values: a mode other than static becomes the address itself. */
  function FromModes(values: Obj): (r: Obj)
    ensures r.Keys == values.Keys + {"ip", "ip6"}
    ensures forall k :: k in values && k != "ip" && k != "ip6" ==> r[k] == values[k]
    ensures !StrictEq(Get(values, "ipv4mode"), Str("static")) ==> r["ip"] == Get(values, "ipv4mode")
    ensures StrictEq(Get(values, "ipv4mode"), Str("static")) ==> r["ip"] == Get(values, "ip")
    ensures !StrictEq(Get(values, "ipv6mode"), Str("static")) ==> r["ip6"] == Get(values, "ipv6mode")
    ensures StrictEq(Get(values, "ipv6mode"), Str("static")) ==> r["ip6"] == Get(values, "ip6")
  {
    var ip := if !StrictEq(Get(values, "ipv4mode"), Str("static")) then Get(values, "ipv4mode") else Get(values, "ip");
    var ip6 := if !StrictEq(Get(values, "ipv6mode"), Str("static")) then Get(values, "ipv6mode") else Get(values, "ip6");
    values["ip" := ip]["ip6" := ip6]
  }

  /**
   * Loading an address into the form and submitting the form unchanged
   * gives the stored ip and ip6 back, whatever they were.
   */
  lemma ModesRoundTrip(data: Obj)
    ensures Get(FromModes(WithModes(data)), "ip") == Get(data, "ip")
    ensures Get(FromModes(WithModes(data)), "ip6") == Get(data, "ip6")
    ensures forall k :: k in data && k !in {"ip", "ip6", "ipv4mode", "ipv6mode"} ==> FromModes(WithModes(data))[k] == data[k]
  {
    var w := WithModes(data);
    assert StrictEq(w["ipv4mode"], Str("static")) <==> w["ipv4mode"] == Str("static");
    assert StrictEq(w["ipv6mode"], Str("static")) <==> w["ipv6mode"] == Str("static");
    if w["ipv4mode"] != Str("static") {
      assert Get(data, "ip") == Str("dhcp");
    }
    if w["ipv6mode"] != Str("static") {
      assert Get(data, "ip6") == w["ipv6mode"];
    }
  }

  /** The address and mode keys are four different keys. */
  lemma ModeKeysDistinct()
    ensures "ip" != "ip6" && "ip" != "ipv4mode" && "ip" != "ipv6mode"
    ensures "ip6" != "ipv4mode" && "ip6" != "ipv6mode" && "ipv4mode" != "ipv6mode"
  {
    assert |"ip"| == 2 && |"ip6"| == 3 && |"ipv4mode"| == 8;
    assert "ipv4mode"[3] != "ipv6mode"[3];
  }

  /** A map with one key has size one. */
  lemma OneKey(k: string, v: Value)
    ensures |map[k := v]| == 1
  {
    assert map[k := v].Keys == {k};
  }

  /** The input panel: the option it edits and the data last loaded into it. */
  class IPConfigPanel {
    var confid: string
    var ipconfig: Obj

    constructor()
      ensures confid == "ipconfig0" && ipconfig == map[]
    {
      confid := "ipconfig0";
      ipconfig := map[];
    }

    /**
     * onGetValues: the rewritten values are printed; an empty print deletes
     * the option, anything else sets it.  Either way exactly one key.
     */
    method OnGetValues(values: Obj, printConfig: Printer) returns (params: Obj)
      ensures |params| == 1
      ensures printConfig(FromModes(values)) == "" ==> params == map["delete" := List([confid])]
      ensures printConfig(FromModes(values)) != "" ==> params == map[confid := Str(printConfig(FromModes(values)))]
    {
      var v := values;
      if !StrictEq(Get(v, "ipv4mode"), Str("static")) {
        v := v["ip" := Get(v, "ipv4mode")];
      } else {
        v := v["ip" := Get(v, "ip")];
      }
      if !StrictEq(Get(v, "ipv6mode"), Str("static")) {
        v := v["ip6" := Get(v, "ipv6mode")];
      } else {
        v := v["ip6" := Get(v, "ip6")];
      }
      ModeKeysDistinct();
      assert v == FromModes(values);
      var cfg := printConfig(v);
      if cfg == "" {
        params := map["delete" := List([confid])];
        OneKey("delete", List([confid]));
      } else {
        params := map[confid := Str(cfg)];
        OneKey(confid, Str(cfg));
      }
    }

    /** setIPConfig: remembers the option and shows the data with its modes. */
    method SetIPConfig(id: string, data: Obj)
      modifies this
      ensures confid == id && ipconfig == WithModes(data)
    {
      confid := id;
      var d := data;
      if StrictEq(Get(d, "ip"), Str("dhcp")) {
        d := d["ipv4mode" := Get(d, "ip")];
        d := d["ip" := Str("")];
      } else {
        d := d["ipv4mode" := Str("static")];
      }
      if StrictEq(Get(d, "ip6"), Str("dhcp")) || StrictEq(Get(d, "ip6"), Str("auto")) {
        d := d["ipv6mode" := Get(d, "ip6")];
        d := d["ip6" := Str("")];
      } else {
        d := d["ipv6mode" := Str("static")];
      }
      ipconfig := d;
    }
  }

  /**
   * The edit window: it creates when it has no option to edit.  Its load
   * callback parses the stored option (a missing one starts from nothing)
   * and either fills the panel or closes with an error.
   */
  class IPConfigEditWindow {
    const confid: Value
    const create: bool
    const ipanel: IPConfigPanel
    var closed: bool
    var alert: Option<string>

    constructor(confid: Value)
      ensures this.confid == confid && (create <==> !Truthy(confid))
      ensures fresh(ipanel) && !closed && alert == None
    {
      this.confid := confid;
      create := !Truthy(confid);
      ipanel := new IPConfigPanel();
      closed := false;
      alert := None;
    }

    method OnLoad(vmconfig: Obj, parse: Parser)
      requires !closed
      modifies this, ipanel
      ensures var value := Get(vmconfig, ToStr(confid));
              if Truthy(value) && parse(ToStr(confid), ToStr(value)).None? then
                closed && alert == Some(ParseError) && unchanged(ipanel)
              else
                && !closed && alert == old(alert)
                && ipanel.confid == ToStr(confid)
                && ipanel.ipconfig == WithModes(if Truthy(value) then parse(ToStr(confid), ToStr(value)).value else map[])
    {
      var ipconfig: Obj := map[];
      var value := Get(vmconfig, ToStr(confid));
      if Truthy(value) {
        var parsed := parse(ToStr(confid), ToStr(value));
        if parsed.None? {
          alert := Some(ParseError);
          closed := true;
          return;
        }
        ipconfig := parsed.value;
      }
      ipanel.SetIPConfig(ToStr(confid), ipconfig);
    }
  }
}
