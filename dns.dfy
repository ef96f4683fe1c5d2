/**
 * The cloud-init DNS editor of a VM (PVE.qemu.DNSInputPanel and
 * PVE.qemu.DNSEdit): up to three server fields are joined into the one
 * `nameserver` option on submit and split back out of it on load.
 */
module DNS {
  import opened Js

  const DnsFields: seq<string> := ["dns1", "dns2", "dns3"]

  /** The fields among fs the submit drops: all of them. */
  function Dropped(fs: seq<string>): set<string>
  {
    set i | 0 <= i < |fs| :: fs[i]
  }

  /** The non-empty server fields among fs, in order, as text. */
  function Servers(values: Obj, fs: seq<string>): (r: seq<string>)
    ensures |r| <= |fs|
  {
    if fs == [] then []
    else
      var last := Get(values, fs[|fs| - 1]);
      Servers(values, fs[..|fs| - 1]) + (if Truthy(last) then [ToStr(last)] else [])
  }

  /**
   * onGetValues.  Without a search domain nothing but a deletion (outside
   * the wizard) is sent.  Otherwise the server fields are dropped and the
   * non-empty ones are joined with single spaces into `nameserver`; when
   * there is none, outside the wizard `nameserver` is deleted.
   */
  method OnGetValues(values: Obj, insideWizard: bool) returns (r: Obj)
    ensures !Truthy(Get(values, "searchdomain")) ==>
              r == if insideWizard then map[] else map["delete" := Str("searchdomain,nameserver")]
    ensures Truthy(Get(values, "searchdomain")) ==>
              && (forall fn :: fn in DnsFields ==> fn !in r)
              && (forall k :: k in values && k !in DnsFields && k != "nameserver" && k != "delete" ==> k in r && r[k] == values[k])
              && (forall k :: k in r ==> k in values || k == "nameserver" || k == "delete")
    ensures Truthy(Get(values, "searchdomain")) && Servers(values, DnsFields) != [] ==>
              && Get(r, "nameserver") == Str(Join(Servers(values, DnsFields), " "))
              && Get(r, "delete") == Get(values, "delete")
    ensures Truthy(Get(values, "searchdomain")) && Servers(values, DnsFields) == [] ==>
              && Get(r, "nameserver") == Get(values, "nameserver")
              && Get(r, "delete") == if insideWizard then Get(values, "delete") else Str("nameserver")
  {
    if !Truthy(Get(values, "searchdomain")) {
      if insideWizard {
        return map[];
      } else {
        return map["delete" := Str("searchdomain,nameserver")];
      }
    }
    var list: seq<string> := [];
    r := values;
    for i := 0 to 3
      invariant list == Servers(values, DnsFields[..i])
      invariant r == values - Dropped(DnsFields[..i])
    {
      var fn := DnsFields[i];
      FieldStep(values, i);
      if Truthy(Get(r, fn)) {
        list := list + [ToStr(r[fn])];
      }
      r := r - {fn};
    }
    assert DnsFields[..3] == DnsFields;
    DroppedFields();
    if |list| > 0 {
      r := r["nameserver" := Str(Join(list, " "))];
    } else {
      if !insideWizard {
        r := r["delete" := Str("nameserver")];
      }
    }
  }

  /** One turn of the submit loop: field i adds its server, if any, and is dropped. */
  lemma FieldStep(values: Obj, i: nat)
    requires i < 3
    ensures var fn := DnsFields[i];
            && Servers(values, DnsFields[..i + 1]) == Servers(values, DnsFields[..i]) + (if Truthy(Get(values, fn)) then [ToStr(values[fn])] else [])
            && fn !in Dropped(DnsFields[..i])
            && Dropped(DnsFields[..i + 1]) == Dropped(DnsFields[..i]) + {fn}
  {
    assert DnsFields[..i + 1][..i] == DnsFields[..i];
    FieldsDistinct();
  }

  /** The submit drops exactly the server fields, none of which is `nameserver` or `delete`. */
  lemma DroppedFields()
    ensures forall k :: k in Dropped(DnsFields) <==> k in DnsFields
    ensures "nameserver" !in DnsFields && "delete" !in DnsFields
  {
    forall k | k in DnsFields
      ensures k in Dropped(DnsFields)
    {
      var i :| 0 <= i < 3 && DnsFields[i] == k;
    }
  }

  /** The value at position i of a list, or undefined past its end. */
  function At(xs: seq<string>, i: nat): Value
  {
    if i < |xs| then Str(xs[i]) else Undefined
  }

  /**
   * The load callback of the edit window: a set `nameserver` is split on
   * runs of white space into dns1..dns3.  The two `replace` calls before the
   * split have their results discarded, so commas and semicolons stay and
   * leading white space gives an empty first piece.
   */
  method LoadValues(values: Obj) returns (r: Obj)
    ensures !Truthy(Get(values, "nameserver")) ==> r == values
    ensures Truthy(Get(values, "nameserver")) ==>
              var pieces := SplitWs(ToStr(Get(values, "nameserver")));
              r == values["dns1" := At(pieces, 0)]["dns2" := At(pieces, 1)]["dns3" := At(pieces, 2)]
  {
    r := values;
    if Truthy(Get(values, "nameserver")) {
      var nslist := SplitWs(ToStr(values["nameserver"]));
      r := r["dns1" := At(nslist, 0)];
      r := r["dns2" := At(nslist, 1)];
      r := r["dns3" := At(nslist, 2)];
    }
  }

  /** The servers of k filled fields, in order. */
  lemma {:induction false} ServersOfFilled(values: Obj, servers: seq<string>, n: nat)
    requires n <= 3 && |servers| <= 3
    requires forall i :: 0 <= i < |servers| ==> servers[i] != "" && Get(values, DnsFields[i]) == Str(servers[i])
    requires forall i :: |servers| <= i < 3 ==> !Truthy(Get(values, DnsFields[i]))
    ensures Servers(values, DnsFields[..n]) == if n <= |servers| then servers[..n] else servers
  {
    if n > 0 {
      assert DnsFields[..n][..n - 1] == DnsFields[..n - 1];
      ServersOfFilled(values, servers, n - 1);
      if n <= |servers| {
        assert servers[..n] == servers[..n - 1] + [servers[n - 1]];
      }
    }
  }

  /**
   * Servers entered in dns1..dnsk (non-empty, free of white space, the
   * remaining fields empty) are submitted as `nameserver` and come back in
   * the same fields on load; the fields past k come back undefined.
   */
  lemma ServersRoundTrip(values: Obj, servers: seq<string>)
    requires 1 <= |servers| <= 3
    requires Truthy(Get(values, "searchdomain"))
    requires forall i :: 0 <= i < |servers| ==> servers[i] != "" && NoSpace(servers[i]) && Get(values, DnsFields[i]) == Str(servers[i])
    requires forall i :: |servers| <= i < 3 ==> !Truthy(Get(values, DnsFields[i]))
    ensures Servers(values, DnsFields) == servers
    ensures var pieces := SplitWs(Join(servers, " "));
            forall i :: 0 <= i < 3 ==> At(pieces, i) == if i < |servers| then Str(servers[i]) else Undefined
  {
    ServersOfFilled(values, servers, 3);
    assert DnsFields[..3] == DnsFields;
    SplitWsJoin(servers);
  }

  /** Servers separated by commas on the host side are not split: the whole text lands in dns1. */
  lemma LoadKeepsSeparators(ns: string)
    requires ns != "" && NoSpace(ns)
    ensures SplitWs(ns) == [ns]
  {
    SplitWsNoSpace(ns, "");
    assert ns + "" == ns;
  }

  /** A nameserver with leading white space loads an empty dns1 and its first server into dns2. */
  lemma LoadLeadingSpace(sp: char, ns: string)
    requires IsSpace(sp) && ns != "" && NoSpace(ns)
    ensures At(SplitWs([sp] + ns), 0) == Str("") && At(SplitWs([sp] + ns), 1) == Str(ns)
  {
    assert DropSpaces([sp] + ns) == ns by {
      assert ([sp] + ns)[1..] == ns;
      assert !IsSpace(ns[0]);
    }
    LoadKeepsSeparators(ns);
  }

  /** Submitting the servers and loading the stored option again fills the same fields. */
  method SubmitThenLoad(values: Obj, servers: seq<string>, insideWizard: bool) returns (loaded: Obj)
    requires 1 <= |servers| <= 3
    requires Truthy(Get(values, "searchdomain"))
    requires forall i :: 0 <= i < |servers| ==> servers[i] != "" && NoSpace(servers[i]) && Get(values, DnsFields[i]) == Str(servers[i])
    requires forall i :: |servers| <= i < 3 ==> !Truthy(Get(values, DnsFields[i]))
    ensures forall i :: 0 <= i < 3 ==> Get(loaded, DnsFields[i]) == if i < |servers| then Str(servers[i]) else Undefined
  {
    ServersRoundTrip(values, servers);
    var submitted := OnGetValues(values, insideWizard);
    assert Join(servers, " ") != "" by {
      if |servers| > 1 {
        assert Join(servers, " ") == servers[0] + " " + Join(servers[1..], " ");
      }
    }
    loaded := LoadValues(submitted);
    var pieces := SplitWs(Join(servers, " "));
    assert Get(submitted, "nameserver") == Str(Join(servers, " "));
    FilledFields(submitted, pieces);
  }

  /** Filling the three server fields from pieces puts piece i into field i. */
  lemma FilledFields(values: Obj, pieces: seq<string>)
    ensures var r := values["dns1" := At(pieces, 0)]["dns2" := At(pieces, 1)]["dns3" := At(pieces, 2)];
            forall i :: 0 <= i < 3 ==> Get(r, DnsFields[i]) == At(pieces, i)
  {
    FieldsDistinct();
    var r := values["dns1" := At(pieces, 0)]["dns2" := At(pieces, 1)]["dns3" := At(pieces, 2)];
    assert Get(r, "dns1") == At(pieces, 0) && Get(r, "dns2") == At(pieces, 1);
  }

  /** The three server fields are three different keys. */
  lemma FieldsDistinct()
    ensures DnsFields == ["dns1", "dns2", "dns3"]
    ensures "dns1" != "dns2" && "dns1" != "dns3" && "dns2" != "dns3"
  {
    assert "dns1"[3] != "dns2"[3] && "dns1"[3] != "dns3"[3] && "dns2"[3] != "dns3"[3];
  }
}
