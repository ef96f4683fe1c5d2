/**
 * The recommended settings of the guest wizards per OS type
 * (PVE.qemu.OSDefaults): a singleton whose constructor puts the generic
 * entry in place and then adds every other OS by inheritance with addOS.
 */
module OSDefaults {
  import opened Js

  const GenitorError: string := "Could not find your genitor"

  /** The defaults every other entry starts from. */
  function Generic(): Obj
  {
    map["busType" := Str("ide"), "networkCard" := Str("e1000")]
  }

  function L26Settings(): Obj
  {
    map["pveOS" := Str("l26"), "parent" := Str("generic"), "busType" := Str("virtio"), "networkCard" := Str("virtio")]
  }

  function W2kSettings(): Obj
  {
    map["pveOS" := Str("w2k"), "parent" := Str("generic"), "networkCard" := Str("rtl8139")]
  }

  /**
   * addOS on the table of entries: the entry named by pveOS becomes a copy of
   * the parent entry with every setting applied over it, or, when there is
   * no parent entry, nothing changes and the genitor error is thrown.
   */
  function WithOS(table: map<string, Obj>, settings: Obj): (r: Result<map<string, Obj>>)
    ensures r.Err? <==> ToStr(Get(settings, "parent")) !in table
    ensures r.Err? ==> r.msg == GenitorError
    ensures r.Ok? ==> r.value.Keys == table.Keys + {ToStr(Get(settings, "pveOS"))}
    ensures r.Ok? ==> forall os :: os in table && os != ToStr(Get(settings, "pveOS")) ==> r.value[os] == table[os]
    ensures r.Ok? ==>
      var child := r.value[ToStr(Get(settings, "pveOS"))];
      var parent := table[ToStr(Get(settings, "parent"))];
      && child.Keys == parent.Keys + settings.Keys
      && (forall k :: k in settings ==> child[k] == settings[k])
      && (forall k :: k in parent && k !in settings ==> child[k] == parent[k])
  {
    var parent := ToStr(Get(settings, "parent"));
    if parent in table then Ok(table[ToStr(Get(settings, "pveOS")) := table[parent] + settings])
    else Err(GenitorError)
  }

  /** The table the constructor leaves: generic, l26 and w2k. */
  function DefaultTable(): map<string, Obj>
  {
    map[
      "generic" := Generic(),
      "l26" := L26Entry(),
      "w2k" := W2kEntry()
    ]
  }

  function L26Entry(): Obj
  {
    map["busType" := Str("virtio"), "networkCard" := Str("virtio"), "pveOS" := Str("l26"), "parent" := Str("generic")]
  }

  function W2kEntry(): Obj
  {
    map["busType" := Str("ide"), "networkCard" := Str("rtl8139"), "pveOS" := Str("w2k"), "parent" := Str("generic")]
  }

  lemma AddL26()
    ensures WithOS(map["generic" := Generic()], L26Settings()) == Ok(map["generic" := Generic(), "l26" := L26Entry()])
  {
    assert ToStr(Str("generic")) == "generic" && ToStr(Str("l26")) == "l26";
    assert Generic() + L26Settings() == L26Entry();
  }

  lemma AddW2k()
    ensures WithOS(map["generic" := Generic(), "l26" := L26Entry()], W2kSettings()) == Ok(DefaultTable())
  {
    assert ToStr(Str("generic")) == "generic" && ToStr(Str("w2k")) == "w2k";
    assert Generic() + W2kSettings() == W2kEntry();
  }

  /** Adding l26 and then w2k to the generic entry gives DefaultTable. */
  lemma DefaultTableBuilt()
    ensures WithOS(map["generic" := Generic()], L26Settings()).Ok?
    ensures WithOS(WithOS(map["generic" := Generic()], L26Settings()).value, W2kSettings()) == Ok(DefaultTable())
  {
    AddL26();
    AddW2k();
  }

  /**
   * What the wizards read from the table: l26 is virtio for disks and
   * network, w2k inherits the ide bus and uses an rtl8139 card, and no entry
   * has a bus priority.
   */
  lemma DefaultTableValues()
    ensures DefaultTable()["generic"]["busType"] == Str("ide") && DefaultTable()["generic"]["networkCard"] == Str("e1000")
    ensures DefaultTable()["l26"]["busType"] == Str("virtio") && DefaultTable()["l26"]["networkCard"] == Str("virtio")
    ensures DefaultTable()["w2k"]["busType"] == Str("ide") && DefaultTable()["w2k"]["networkCard"] == Str("rtl8139")
    ensures forall os :: os in DefaultTable() ==> "busPriority" !in DefaultTable()[os]
  {
  }

  /** The OSDefaults singleton. */
  class Defaults {
    /** The entries by OS type. */
    var table: map<string, Obj>

    constructor()
      ensures table == DefaultTable()
    {
      table := map["generic" := Generic()];
      new;
      DefaultTableBuilt();
      var r1 := AddOS(L26Settings());
      var r2 := AddOS(W2kSettings());
    }

    /** addOS: adds or replaces the entry of settings.pveOS, or throws when the parent is missing. */
    method AddOS(settings: Obj) returns (r: Result<()>)
      modifies this
      ensures var w := WithOS(old(table), settings);
              && (w.Ok? ==> r == Ok(()) && table == w.value)
              && (w.Err? ==> r == Err(w.msg) && table == old(table))
    {
      var parent := ToStr(Get(settings, "parent"));
      if parent in table {
        var child := table[parent];
        table := table[ToStr(Get(settings, "pveOS")) := child + settings];
        r := Ok(());
      } else {
        r := Err(GenitorError);
      }
    }
  }
}
