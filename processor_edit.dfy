/**
 * The processor editor of a virtual machine (PVE.qemu.ProcessorInputPanel):
 * sockets and cores fields with their bounds, a NUMA check box, the CPU type,
 * and a total-cores display that each change of sockets or cores recomputes.
 *
 * A number field's value is an integer, or None (null) when it is blank.
 */
module ProcessorEdit {
  import opened Js

  const SocketsMin: int := 1
  const SocketsMax: int := 4
  const CoresMin: int := 1
  const CoresMax: int := 128

  /** The state of the panel's fields. */
  datatype Form = Form(sockets: Option<int>, cores: Option<int>, numa: bool, cpu: string, totalcores: Value)

  /** The fields as the panel creates them: one socket, one core, no NUMA, the default CPU type, a total of '1'. */
  const Initial: Form := Form(Some(1), Some(1), false, "", Str("1"))

  /** The number a field's value stands for in a product: null counts as 0. */
  function AsFactor(v: Option<int>): int
  {
    if v.Some? then v.value else 0
  }

  /** The fields a change listener is attached to. */
  datatype CountField = Sockets | Cores

  /** A change of sockets or cores: the field takes the value, and the total shows the product of the two. */
  function OnChange(f: Form, field: CountField, value: Option<int>): (r: Form)
    ensures field == Sockets ==> r.sockets == value && r.cores == f.cores
    ensures field == Cores ==> r.cores == value && r.sockets == f.sockets
    ensures r.numa == f.numa && r.cpu == f.cpu
    ensures r.totalcores == Num(AsFactor(r.sockets) * AsFactor(r.cores))
  {
    var g := if field == Sockets then f.(sockets := value) else f.(cores := value);
    g.(totalcores := Num(AsFactor(g.sockets) * AsFactor(g.cores)))
  }

  /** The total shown agrees with the sockets and cores entered. */
  predicate Consistent(f: Form)
  {
    LooseEq(f.totalcores, Num(AsFactor(f.sockets) * AsFactor(f.cores)))
  }

  /** The total starts consistent with the defaults, and every change keeps it so. */
  lemma TotalConsistent(f: Form, field: CountField, value: Option<int>)
    ensures Consistent(Initial)
    ensures Consistent(OnChange(f, field, value))
  {
    StrToNumberOfNatString(1);
    assert NatToString(1) == "1";
  }

  /** The fields are valid when neither is blank and each lies within its bounds. */
  predicate Valid(f: Form)
  {
    && f.sockets.Some? && SocketsMin <= f.sockets.value <= SocketsMax
    && f.cores.Some? && CoresMin <= f.cores.value <= CoresMax
  }

  /** A valid form, once a count has changed, shows a total of 1 to 512 cores, at least as many as sockets. */
  lemma TotalBounds(f: Form, field: CountField, value: Option<int>)
    requires Valid(OnChange(f, field, value))
    ensures var t := OnChange(f, field, value).totalcores;
            t.Num? && 1 <= t.n <= SocketsMax * CoresMax && t.n >= OnChange(f, field, value).sockets.value
  {
    var g := OnChange(f, field, value);
    var s, c := g.sockets.value, g.cores.value;
    assert s * c <= SocketsMax * c <= SocketsMax * CoresMax;
    assert s * c >= s * 1;
  }

  /** What a valid form submits: the counts, NUMA as 1 or 0 (its unchecked value), and the CPU type; the total is only shown. */
  function Submitted(f: Form): (r: Obj)
    requires Valid(f)
    ensures r.Keys == {"sockets", "cores", "numa", "cpu"}
    ensures r["numa"] == Num(if f.numa then 1 else 0)
    ensures r["sockets"] == Num(f.sockets.value) && r["cores"] == Num(f.cores.value)
  {
    map["sockets" := Num(f.sockets.value), "cores" := Num(f.cores.value), "numa" := Num(if f.numa then 1 else 0), "cpu" := Str(f.cpu)]
  }

  /** The initial form is valid, and submits one socket, one core and NUMA off as 0. */
  lemma InitialSubmits()
    ensures Valid(Initial)
    ensures Submitted(Initial)["numa"] == Num(0)
    ensures Submitted(Initial)["sockets"] == Num(1) && Submitted(Initial)["cores"] == Num(1)
  {
  }
}
