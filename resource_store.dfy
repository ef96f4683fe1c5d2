/**
 * The cluster resource store (PVE.data.ResourceStore): the field list its
 * records are built with, the two computed fields `running` and `text`, the
 * column definitions and the VMID lookup.
 */
module ResourceStore {
  import opened Js

  datatype FieldType = StringField | IntegerField | FloatField | BooleanField

  /** An entry of the field defaults table: name, declared type, and whether it brings a convert function. */
  datatype FieldDefault = FieldDefault(name: string, ftype: FieldType, hasConvert: bool)

  /** A record field as the store's model declares it. */
  datatype Field = Field(name: string, ftype: FieldType, convert: bool)

  /** A grid column: the field it shows and the defaults entry it was made from. */
  datatype Column = Column(dataIndex: string, info: FieldDefault)

  /** The field defaults table, in declaration order. */
  const FieldDefaults: seq<FieldDefault> := [
    FieldDefault("type", StringField, false),
    FieldDefault("id", StringField, false),
    FieldDefault("running", BooleanField, true),
    FieldDefault("text", StringField, true),
    FieldDefault("vmid", IntegerField, false),
    FieldDefault("name", StringField, false),
    FieldDefault("disk", IntegerField, false),
    FieldDefault("maxdisk", IntegerField, false),
    FieldDefault("mem", IntegerField, false),
    FieldDefault("maxmem", IntegerField, false),
    FieldDefault("cpu", FloatField, false),
    FieldDefault("maxcpu", IntegerField, false),
    FieldDefault("diskread", IntegerField, false),
    FieldDefault("diskwrite", IntegerField, false),
    FieldDefault("netin", IntegerField, false),
    FieldDefault("netout", IntegerField, false),
    FieldDefault("template", IntegerField, false),
    FieldDefault("uptime", IntegerField, false),
    FieldDefault("node", StringField, false),
    FieldDefault("storage", StringField, false),
    FieldDefault("pool", StringField, false)
  ]

  /** A defaults entry becomes a model field unless it has a convert other than that of text or running. */
  predicate Kept(d: FieldDefault)
  {
    !d.hasConvert || d.name == "text" || d.name == "running"
  }

  function KeptNames(defaults: seq<FieldDefault>): seq<string>
  {
    if defaults == [] then []
    else KeptNames(defaults[..|defaults| - 1])
         + (if Kept(defaults[|defaults| - 1]) then [defaults[|defaults| - 1].name] else [])
  }

  function Names(defaults: seq<FieldDefault>): seq<string>
  {
    seq(|defaults|, i requires 0 <= i < |defaults| => defaults[i].name)
  }

  /** The field names every record of the store has, in declaration order. */
  function FieldNames(): seq<string>
  {
    KeptNames(FieldDefaults)
  }

  /**
   * Walks the defaults table and collects the model fields and their names;
   * only text and running keep their convert function.
   */
  method BuildFields(defaults: seq<FieldDefault>) returns (fields: seq<Field>, fieldNames: seq<string>)
    ensures fieldNames == KeptNames(defaults)
    ensures |fields| == |fieldNames|
    ensures forall i :: 0 <= i < |fields| ==> fields[i].name == fieldNames[i]
    ensures forall i :: 0 <= i < |fields| && fields[i].convert ==> fields[i].name in {"text", "running"}
  {
    fields := [];
    fieldNames := [];
    var i := 0;
    while i < |defaults|
      invariant 0 <= i <= |defaults|
      invariant fieldNames == KeptNames(defaults[..i])
      invariant |fields| == |fieldNames|
      invariant forall j :: 0 <= j < |fields| ==> fields[j].name == fieldNames[j]
      invariant forall j :: 0 <= j < |fields| && fields[j].convert ==> fields[j].name in {"text", "running"}
    {
      var d := defaults[i];
      assert defaults[..i + 1][..i] == defaults[..i];
      if !d.hasConvert {
        fields := fields + [Field(d.name, d.ftype, false)];
        fieldNames := fieldNames + [d.name];
      } else if d.name == "text" || d.name == "running" {
        fields := fields + [Field(d.name, d.ftype, true)];
        fieldNames := fieldNames + [d.name];
      }
      i := i + 1;
    }
    assert defaults[..i] == defaults;
  }

  /** A name is a field name exactly when some defaults entry of that name is kept. */
  lemma {:induction false} KeptNamesMember(defaults: seq<FieldDefault>, n: string)
    ensures n in KeptNames(defaults) <==> exists i :: 0 <= i < |defaults| && defaults[i].name == n && Kept(defaults[i])
  {
    if defaults != [] {
      var init := defaults[..|defaults| - 1];
      KeptNamesMember(init, n);
      if exists i :: 0 <= i < |init| && init[i].name == n && Kept(init[i]) {
        var i :| 0 <= i < |init| && init[i].name == n && Kept(init[i]);
        assert defaults[i] == init[i];
      }
      if exists i :: 0 <= i < |defaults| && defaults[i].name == n && Kept(defaults[i]) {
        var i :| 0 <= i < |defaults| && defaults[i].name == n && Kept(defaults[i]);
        if i < |init| {
          assert init[i] == defaults[i];
        }
      }
    }
  }

  lemma {:induction false} KeptNamesAllWhenKept(defaults: seq<FieldDefault>)
    requires forall i :: 0 <= i < |defaults| ==> Kept(defaults[i])
    ensures KeptNames(defaults) == Names(defaults)
  {
    if defaults != [] {
      var init := defaults[..|defaults| - 1];
      KeptNamesAllWhenKept(init);
      assert Names(defaults) == Names(init) + [defaults[|defaults| - 1].name];
    }
  }

  /**
   * Every entry of the defaults table is kept: the records carry all 21
   * fields in declaration order, "id" and "type" first.
   */
  lemma FieldNamesAreAllDefaults()
    ensures FieldNames() == Names(FieldDefaults)
    ensures |FieldNames()| == 21
    ensures FieldNames()[0] == "type" && FieldNames()[1] == "id"
  {
    KeptNamesAllWhenKept(FieldDefaults);
  }

  /** One column per defaults entry, in order, each showing the field it is named after. */
  method DefaultColumns(defaults: seq<FieldDefault>) returns (res: seq<Column>)
    ensures |res| == |defaults|
    ensures forall i :: 0 <= i < |res| ==> res[i].dataIndex == defaults[i].name && res[i].info == defaults[i]
  {
    res := [];
    var i := 0;
    while i < |defaults|
      invariant 0 <= i <= |defaults| && |res| == i
      invariant forall j :: 0 <= j < i ==> res[j].dataIndex == defaults[j].name && res[j].info == defaults[j]
    {
      res := res + [Column(defaults[i].name, defaults[i])];
      i := i + 1;
    }
  }

  /** Ext.isNumeric */
  predicate IsNumeric(v: Value)
  {
    match v
    case Num(_) => true
    case Str(s) => TrimEnd(TrimStart(s)) != "" && StrToNumber(s).Some?
    case _ => false
  }

  /** The number `v > 0` compares, for a numeric value. */
  function NumericValue(v: Value): int
    requires IsNumeric(v)
  {
    match v
    case Num(n) => n
    case Str(s) => StrToNumber(s).value
  }

  /** The convert function of the running field. */
  function Running(info: Obj): (r: bool)
    ensures r ==> Get(info, "type") in {Str("qemu"), Str("lxc"), Str("node")}
  {
    var t := Get(info, "type");
    if t == Str("qemu") || t == Str("lxc") || t == Str("node") then
      var up := Get(info, "uptime");
      IsNumeric(up) && NumericValue(up) > 0
    else false
  }

  /** Storage and pool records are never online, whatever their uptime. */
  lemma StorageAndPoolOffline(info: Obj)
    requires Get(info, "type") == Str("storage") || Get(info, "type") == Str("pool")
    ensures !Running(info)
  {
  }

  /** A guest or node whose record carries no uptime is not online. */
  lemma NoUptimeOffline(info: Obj)
    requires Get(info, "type") in {Str("qemu"), Str("lxc"), Str("node")}
    requires Get(info, "uptime") == Undefined || Get(info, "uptime") == Null
    ensures !Running(info)
  {
  }

  /**
   * A guest or node whose uptime is n seconds, sent as a number or as its
   * decimal text, is online exactly when n is positive.
   */
  lemma UptimeOnline(info: Obj, n: nat)
    requires Get(info, "type") in {Str("qemu"), Str("lxc"), Str("node")}
    requires Get(info, "uptime") == Num(n) || Get(info, "uptime") == Str(NatToString(n))
    ensures Running(info) <==> n > 0
  {
    NumericOfNatString(n);
  }

  /** The decimal text of a number is numeric and denotes that number. */
  lemma NumericOfNatString(n: nat)
    ensures IsNumeric(Str(NatToString(n))) && NumericValue(Str(NatToString(n))) == n
  {
    var s := NatToString(n);
    assert IsDigit(s[0]) && IsDigit(s[|s| - 1]);
    Untrimmed(s);
    StrToNumberOfNatString(n);
  }

  /** The convert function of the text field. */
  function Text(value: Value, info: Obj): (r: Value)
    ensures Truthy(value) ==> r == value
    ensures !Truthy(value) && Get(info, "type") == Str("node") ==> r == Get(info, "node")
    ensures !Truthy(value) && Get(info, "type") == Str("pool") ==> r == Get(info, "pool")
    ensures !Truthy(value) && Get(info, "type") == Str("storage") ==>
      r == Str(ToStr(Get(info, "storage")) + " (" + ToStr(Get(info, "node")) + ")")
    ensures !Truthy(value) && Get(info, "type") in {Str("qemu"), Str("lxc")} ==>
      r.Str? && IsPrefix(ToStr(Get(info, "vmid")), r.s)
    ensures !Truthy(value) && Get(info, "type") !in {Str("node"), Str("pool"), Str("storage"), Str("qemu"), Str("lxc")} ==>
      r == Get(info, "id")
  {
    var t := Get(info, "type");
    if Truthy(value) then value
    else if t == Str("node") then Get(info, "node")
    else if t == Str("pool") then Get(info, "pool")
    else if t == Str("storage") then Str(ToStr(Get(info, "storage")) + " (" + ToStr(Get(info, "node")) + ")")
    else if t == Str("qemu") || t == Str("lxc") then
      var base := ToStr(Get(info, "vmid"));
      var r := if Truthy(Get(info, "name")) then base + " (" + ToStr(Get(info, "name")) + ")" else base;
      assert r[..|base|] == base;
      Str(r)
    else Get(info, "id")
  }

  /** A guest without an explicit description is shown as "VMID (name)", or as the bare VMID without a name. */
  lemma TextOfGuest(info: Obj, vmid: nat, name: string)
    requires Get(info, "type") == Str("qemu") || Get(info, "type") == Str("lxc")
    requires Get(info, "vmid") == Num(vmid)
    requires Get(info, "name") == Str(name)
    ensures name != "" ==> Text(Undefined, info) == Str(NatToString(vmid) + " (" + name + ")")
    ensures name == "" ==> Text(Undefined, info) == Str(NatToString(vmid))
  {
  }

  /** Store.findExact: the first index whose field is strictly equal to v, or -1. */
  function FindExact(records: seq<Obj>, field: string, v: Value): (r: int)
    ensures -1 <= r < |records|
    ensures r >= 0 ==> StrictEq(Get(records[r], field), v)
    ensures r == -1 ==> forall i :: 0 <= i < |records| ==> !StrictEq(Get(records[i], field), v)
  {
    if records == [] then -1
    else if StrictEq(Get(records[0], field), v) then 0
    else
      var r := FindExact(records[1..], field, v);
      assert forall i :: 1 <= i < |records| ==> records[i] == records[1..][i - 1];
      if r < 0 then -1 else r + 1
  }

  /** findVMID: whether some record's vmid equals parseInt(vmid, 10); NaN matches nothing. */
  function FindVMID(records: seq<Obj>, vmid: string): (found: bool)
    ensures found <==> ParseInt(vmid).Some? && exists i :: 0 <= i < |records| && Get(records[i], "vmid") == Num(ParseInt(vmid).value)
  {
    match ParseInt(vmid)
    case None => false
    case Some(n) => FindExact(records, "vmid", Num(n)) >= 0
  }

  /** Looking up the decimal text of a VMID finds exactly the records of that VMID. */
  lemma FindVMIDOfNumber(records: seq<Obj>, n: nat)
    ensures FindVMID(records, NatToString(n)) <==> exists i :: 0 <= i < |records| && Get(records[i], "vmid") == Num(n)
  {
    ParseIntOfNatString(n);
  }
}
