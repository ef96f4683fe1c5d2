/**
 * The bus/device selector of the disk wizards (PVE.form.ControllerSelector):
 * it orders the controllers by how many disks a VM configuration already
 * has on them and picks the first free device slot under per-bus limits.
 *
 * A VM configuration is a map from config keys to their string values.
 * PVE.Utils.bus_match, which tells the controller a config key names, is
 * not part of this model and is a parameter.
 */
module ControllerSelector {
  import opened Js
  import opened Sorting
  import OSDefaults

  /** The largest device id of each controller. */
  const MaxIds: map<string, nat> := map["ide" := 3, "sata" := 5, "virtio" := 15, "scsi" := 13]

  const InUseError: string := "This device is already in use."

  /** The controller named by a config key such as 'virtio0', as bus_match captures it. */
  type BusMatch = string -> Option<string>

  // ---------------------------------------------------------------------
  // Usage count

  /** The config keys in S that hold a disk (not a cdrom) on controller c. */
  function UsedKeys(vmconfig: map<string, string>, busMatch: BusMatch, S: set<string>, c: string): set<string>
  {
    set p | p in S && p in vmconfig && busMatch(p) == Some(c) && !Contains(vmconfig[p], "media=cdrom")
  }

  /** How many disks the configuration has on controller c. */
  function Usage(vmconfig: map<string, string>, busMatch: BusMatch, c: string): nat
  {
    |UsedKeys(vmconfig, busMatch, vmconfig.Keys, c)|
  }

  /** The usage counts of the known controllers over the config keys in S. */
  function Counts(vmconfig: map<string, string>, busMatch: BusMatch, S: set<string>): (r: map<string, int>)
    ensures r.Keys == MaxIds.Keys
  {
    map c | c in MaxIds :: |UsedKeys(vmconfig, busMatch, S, c)|
  }

  /** One step of the counting loop: the controller of key p, if it holds a disk, goes up by one. */
  function Bump(used: map<string, int>, vmconfig: map<string, string>, busMatch: BusMatch, p: string): map<string, int>
  {
    var m := busMatch(p);
    if m.Some? && p in vmconfig && !Contains(vmconfig[p], "media=cdrom") && m.value in used
    then used[m.value := used[m.value] + 1]
    else used
  }

  lemma UsedKeysStep(vmconfig: map<string, string>, busMatch: BusMatch, done: set<string>, p: string, c: string)
    requires p !in done
    ensures |UsedKeys(vmconfig, busMatch, done + {p}, c)|
      == |UsedKeys(vmconfig, busMatch, done, c)|
         + (if p in vmconfig && busMatch(p) == Some(c) && !Contains(vmconfig[p], "media=cdrom") then 1 else 0)
  {
    assert UsedKeys(vmconfig, busMatch, done + {p}, c)
      == UsedKeys(vmconfig, busMatch, done, c)
         + (if p in vmconfig && busMatch(p) == Some(c) && !Contains(vmconfig[p], "media=cdrom") then {p} else {});
  }

  lemma CountsStep(vmconfig: map<string, string>, busMatch: BusMatch, done: set<string>, p: string)
    requires p !in done
    ensures Counts(vmconfig, busMatch, done + {p}) == Bump(Counts(vmconfig, busMatch, done), vmconfig, busMatch, p)
  {
    var before, after := Counts(vmconfig, busMatch, done), Counts(vmconfig, busMatch, done + {p});
    forall c | c in MaxIds
      ensures after[c] == Bump(before, vmconfig, busMatch, p)[c]
    {
      UsedKeysStep(vmconfig, busMatch, done, p, c);
    }
  }

  lemma CountsNone(vmconfig: map<string, string>, busMatch: BusMatch)
    ensures Counts(vmconfig, busMatch, {}) == map c | c in MaxIds :: 0
  {
    forall c | c in MaxIds
      ensures UsedKeys(vmconfig, busMatch, {}, c) == {}
    {
    }
  }

  /** The counts over the whole configuration. */
  function UsageMap(vmconfig: map<string, string>, busMatch: BusMatch): (r: map<string, int>)
    ensures forall c :: c in r ==> r[c] == Usage(vmconfig, busMatch, c)
  {
    Counts(vmconfig, busMatch, vmconfig.Keys)
  }

  /**
   * The counting loop of sortByPreviousUsage: every known controller starts
   * at 0 and each config key holding a disk adds one to its controller.  A
   * controller outside MaxIds is not counted (its count would be NaN and is
   * never looked at).
   */
  method CountUsage(vmconfig: map<string, string>, busMatch: BusMatch) returns (used: map<string, int>)
    ensures used == UsageMap(vmconfig, busMatch)
  {
    used := map c | c in MaxIds :: 0;
    var rest := vmconfig.Keys;
    ghost var done: set<string> := {};
    CountsNone(vmconfig, busMatch);
    while rest != {}
      invariant done !! rest && done + rest == vmconfig.Keys
      invariant used == Counts(vmconfig, busMatch, done)
      decreases |rest|
    {
      var p :| p in rest;
      CountsStep(vmconfig, busMatch, done, p);
      used := Bump(used, vmconfig, busMatch, p);
      done := done + {p};
      rest := rest - {p};
    }
  }

  // ---------------------------------------------------------------------
  // Ordering by usage

  /**
   * The comparator of sortByPreviousUsage, as the number it returns (None
   * for NaN, which the sort takes as 0).  On equal counts it subtracts the
   * entries of the priority object for b and a.
   */
  function Compare(used: map<string, int>, prio: Obj, a: string, b: string): Option<int>
    requires a in used && b in used
  {
    if used[b] == used[a] then
      (if Get(prio, b).Num? && Get(prio, a).Num? then Some(Get(prio, b).n - Get(prio, a).n) else None)
    else Some(used[b] - used[a])
  }

  /** The sort's reading of a comparator result: NaN counts as 0. */
  function CompareValue(r: Option<int>): int
  {
    if r.None? then 0 else r.value
  }

  /**
   * No OS entry has a bus priority, so the priority object is always the
   * generic entry.  It has no controller keys, so ties compare as NaN, that
   * is as equal, and the comparator is the usage order, descending.
   */
  lemma CompareIsUsageOrder(used: map<string, int>, a: string, b: string)
    requires a in used && b in used && a in MaxIds && b in MaxIds
    ensures CompareValue(Compare(used, OSDefaults.DefaultTable()["generic"], a, b)) <= 0 <==> KeyLe(Count(used[a]), Count(used[b]))
  {
    OSDefaults.DefaultTableValues();
    assert OSDefaults.DefaultTable()["generic"] == OSDefaults.Generic();
  }

  /** The sort key of each controller: its usage count, largest first. */
  function UsageKey(used: map<string, int>, list: seq<string>): map<string, Key>
  {
    map c | c in list && c in used :: Count(used[c])
  }

  /** sortByPreviousUsage: a reordered copy of controllerList, most used controller first. */
  method SortByPreviousUsage(vmconfig: map<string, string>, controllerList: seq<string>, busMatch: BusMatch)
    returns (sorted: seq<string>)
    requires forall c :: c in controllerList ==> c in MaxIds
    ensures sorted == Sort(controllerList, UsageKey(UsageMap(vmconfig, busMatch), controllerList))
  {
    var used := CountUsage(vmconfig, busMatch);
    sorted := Sort(controllerList, UsageKey(used, controllerList));
  }

  /** The result is a permutation of the list, ordered by usage count, descending. */
  lemma SortedByUsage(vmconfig: map<string, string>, controllerList: seq<string>, busMatch: BusMatch)
    requires forall c :: c in controllerList ==> c in MaxIds
    ensures var r := Sort(controllerList, UsageKey(UsageMap(vmconfig, busMatch), controllerList));
            && multiset(r) == multiset(controllerList)
            && forall i, j :: 0 <= i < j < |r| ==> Usage(vmconfig, busMatch, r[i]) >= Usage(vmconfig, busMatch, r[j])
  {
    var key := UsageKey(UsageMap(vmconfig, busMatch), controllerList);
    var r := Sort(controllerList, key);
    SortSorted(controllerList, key);
    forall i, j | 0 <= i < j < |r|
      ensures Usage(vmconfig, busMatch, r[i]) >= Usage(vmconfig, busMatch, r[j])
    {
      assert r[i] in multiset(controllerList) && r[j] in multiset(controllerList);
      assert KeyLe(KeyOf(key, r[i]), KeyOf(key, r[j]));
    }
  }

  // ---------------------------------------------------------------------
  // Picking a free slot

  /** How setVMConfig is asked to choose: not at all, for a cdrom, or by previous usage. */
  datatype AutoSelect = Off | Cdrom | ByUsage

  /** The controllers the scan tries, in order: virtio and scsi are skipped when the selector excludes them. */
  function Candidates(clist: seq<string>, noVirtIO: bool, noScsi: bool): (r: seq<string>)
    ensures forall c :: c in r <==> c in clist && !(c == "virtio" && noVirtIO) && !(c == "scsi" && noScsi)
  {
    if clist == [] then []
    else
      var c := clist[0];
      (if (c == "virtio" && noVirtIO) || (c == "scsi" && noScsi) then [] else [c]) + Candidates(clist[1..], noVirtIO, noScsi)
  }

  /** The config key of device i on controller c, as controller + i.toString(). */
  function SlotKey(c: string, i: nat): string
  {
    c + NatToString(i)
  }

  /** The lowest id from i up to max whose key is not in the configuration. */
  function FirstFree(vmconfig: map<string, string>, c: string, i: nat, max: nat): (r: Option<nat>)
    ensures r.Some? ==> i <= r.value <= max && SlotKey(c, r.value) !in vmconfig
                        && forall j :: i <= j < r.value ==> SlotKey(c, j) in vmconfig
    ensures r.None? ==> forall j :: i <= j <= max ==> SlotKey(c, j) in vmconfig
    decreases max + 1 - i
  {
    if i > max then None
    else if SlotKey(c, i) !in vmconfig then Some(i)
    else FirstFree(vmconfig, c, i + 1, max)
  }

  /** Controller c has no free id left. */
  predicate Full(vmconfig: map<string, string>, c: string)
    requires c in MaxIds
  {
    FirstFree(vmconfig, c, 0, MaxIds[c]).None?
  }

  /** A taken id moves the search on to the next one. */
  lemma FirstFreeSkip(vmconfig: map<string, string>, c: string, i: nat, max: nat)
    requires i <= max && SlotKey(c, i) in vmconfig
    ensures FirstFree(vmconfig, c, i + 1, max) == FirstFree(vmconfig, c, i, max)
  {
  }

  /** The first candidate with a free id, and its lowest free id. */
  function Pick(vmconfig: map<string, string>, cands: seq<string>): (r: Option<(string, nat)>)
    requires forall c :: c in cands ==> c in MaxIds
    ensures r.None? ==> forall k :: 0 <= k < |cands| ==> Full(vmconfig, cands[k])
    ensures r.Some? ==> exists k :: 0 <= k < |cands| && r.value.0 == cands[k]
                          && FirstFree(vmconfig, cands[k], 0, MaxIds[cands[k]]) == Some(r.value.1)
                          && forall k' :: 0 <= k' < k ==> Full(vmconfig, cands[k'])
  {
    if cands == [] then None
    else
      var f := FirstFree(vmconfig, cands[0], 0, MaxIds[cands[0]]);
      if f.Some? then Some((cands[0], f.value))
      else
        var r := Pick(vmconfig, cands[1..]);
        if r.Some? then
          var k :| 0 <= k < |cands[1..]| && r.value.0 == cands[1..][k]
                   && FirstFree(vmconfig, cands[1..][k], 0, MaxIds[cands[1..][k]]) == Some(r.value.1)
                   && forall k' :: 0 <= k' < k ==> Full(vmconfig, cands[1..][k']);
          FullShift(vmconfig, cands, k);
          assert cands[k + 1] == cands[1..][k];
          r
        else
          FullShift(vmconfig, cands, |cands| - 1);
          r
  }

  /** Full candidates after a full first one are full candidates of the whole list, one place on. */
  lemma FullShift(vmconfig: map<string, string>, cands: seq<string>, k: nat)
    requires forall c :: c in cands ==> c in MaxIds
    requires cands != [] && k < |cands| && Full(vmconfig, cands[0])
    requires forall k' :: 0 <= k' < k ==> Full(vmconfig, cands[1..][k'])
    ensures forall k' :: 0 <= k' < k + 1 ==> Full(vmconfig, cands[k'])
  {
    forall k' | 0 <= k' < k + 1
      ensures Full(vmconfig, cands[k'])
    {
      if k' > 0 {
        assert cands[k'] == cands[1..][k' - 1];
      }
    }
  }

  /**
   * The controller and device id the scan leaves in the two fields: each
   * candidate tried is set as the controller; the first free id found is
   * set as the device id and ends the scan.
   */
  function Scan(vmconfig: map<string, string>, cands: seq<string>, ctl: string, id: int): (string, int)
    requires forall c :: c in cands ==> c in MaxIds
  {
    if cands == [] then (ctl, id)
    else
      var f := FirstFree(vmconfig, cands[0], 0, MaxIds[cands[0]]);
      if f.Some? then (cands[0], f.value) else Scan(vmconfig, cands[1..], cands[0], id)
  }

  /** The scan ends on the picked slot; when every candidate is full it leaves the last candidate and the old id. */
  lemma {:induction false} ScanIsPick(vmconfig: map<string, string>, cands: seq<string>, ctl: string, id: int)
    requires forall c :: c in cands ==> c in MaxIds
    ensures Pick(vmconfig, cands).Some? ==> Scan(vmconfig, cands, ctl, id) == Pick(vmconfig, cands).value
    ensures Pick(vmconfig, cands).None? ==>
              Scan(vmconfig, cands, ctl, id) == (if cands == [] then ctl else cands[|cands| - 1], id)
  {
    if cands != [] && FirstFree(vmconfig, cands[0], 0, MaxIds[cands[0]]).None? {
      ScanIsPick(vmconfig, cands[1..], cands[0], id);
    }
  }

  const AllControllers: seq<string> := ["ide", "virtio", "scsi", "sata"]
  const CdromControllers: seq<string> := ["ide", "scsi", "sata"]

  /** The four controller names are four different strings. */
  lemma ControllerNamesDistinct()
    ensures "ide" != "virtio" && "ide" != "scsi" && "ide" != "sata"
    ensures "virtio" != "scsi" && "virtio" != "sata" && "scsi" != "sata"
  {
    assert "ide"[0] == 'i' && "virtio"[0] == 'v' && "scsi"[0] == 's';
    assert "scsi"[1] != "sata"[1];
  }

  /** The controllers offered from the full list: ide and sata always, virtio and scsi unless excluded. */
  lemma AllCandidates(noVirtIO: bool, noScsi: bool)
    ensures forall c :: c in Candidates(AllControllers, noVirtIO, noScsi) <==>
              c == "ide" || c == "sata" || (c == "virtio" && !noVirtIO) || (c == "scsi" && !noScsi)
  {
    ControllerNamesDistinct();
    assert forall c :: c in AllControllers <==> c == "ide" || c == "virtio" || c == "scsi" || c == "sata";
  }

  /** The controllers in the order setVMConfig tries them. */
  function ScanOrder(vmconfig: map<string, string>, autoSelect: AutoSelect, busMatch: BusMatch): (r: seq<string>)
    ensures forall c :: c in r ==> c in MaxIds
  {
    if autoSelect == Cdrom then CdromControllers
    else
      var r := Sort(AllControllers, UsageKey(UsageMap(vmconfig, busMatch), AllControllers));
      assert forall c :: c in r ==> c in multiset(AllControllers);
      r
  }

  /** The controller and device id after setVMConfig, from the ones before it. */
  function Selected(vmconfig: map<string, string>, autoSelect: AutoSelect, noVirtIO: bool, noScsi: bool,
                    busMatch: BusMatch, ctl: string, id: int): (string, int)
  {
    if autoSelect == Off then (ctl, id)
    else if autoSelect == Cdrom && "ide2" !in vmconfig then ("ide", 2)
    else Scan(vmconfig, Candidates(ScanOrder(vmconfig, autoSelect, busMatch), noVirtIO, noScsi), ctl, id)
  }

  /** A scan ends on a free slot of one of its candidates, the lowest free one, or every candidate is full. */
  lemma ScanOutcome(vmconfig: map<string, string>, cands: seq<string>, ctl: string, id: int)
    requires forall c :: c in cands ==> c in MaxIds
    ensures var (c, i) := Scan(vmconfig, cands, ctl, id);
            || (&& c in cands && 0 <= i <= MaxIds[c] && DeviceIdError(vmconfig, c, NatToString(i)).None?
                && (forall j :: 0 <= j < i ==> SlotKey(c, j) in vmconfig))
            || (forall k :: 0 <= k < |cands| ==> forall j :: 0 <= j <= MaxIds[cands[k]] ==> SlotKey(cands[k], j) in vmconfig)
  {
    ScanIsPick(vmconfig, cands, ctl, id);
    var p := Pick(vmconfig, cands);
    if p.Some? {
      var k :| 0 <= k < |cands| && p.value.0 == cands[k] && FirstFree(vmconfig, cands[k], 0, MaxIds[cands[k]]) == Some(p.value.1);
      assert cands[k] in cands;
    } else {
      forall k | 0 <= k < |cands|
        ensures forall j :: 0 <= j <= MaxIds[cands[k]] ==> SlotKey(cands[k], j) in vmconfig
      {
        assert Full(vmconfig, cands[k]);
      }
    }
  }

  /** A scan over the allowed controllers of a list never lands on an excluded one. */
  lemma AllowedScanOutcome(vmconfig: map<string, string>, clist: seq<string>, noVirtIO: bool, noScsi: bool, ctl: string, id: int)
    requires forall c :: c in clist ==> c in MaxIds
    ensures var cands := Candidates(clist, noVirtIO, noScsi);
            var (c, i) := Scan(vmconfig, cands, ctl, id);
            || (&& c in MaxIds && 0 <= i <= MaxIds[c] && DeviceIdError(vmconfig, c, NatToString(i)).None?
                && !(c == "virtio" && noVirtIO) && !(c == "scsi" && noScsi)
                && (forall j :: 0 <= j < i ==> SlotKey(c, j) in vmconfig))
            || (forall k :: 0 <= k < |cands| ==> forall j :: 0 <= j <= MaxIds[cands[k]] ==> SlotKey(cands[k], j) in vmconfig)
  {
    ScanOutcome(vmconfig, Candidates(clist, noVirtIO, noScsi), ctl, id);
  }

  /**
   * Whenever setVMConfig chooses, it chooses a free slot within the
   * controller's limits on a controller the selector allows, taking the
   * lowest free id of its controller; or every candidate is full.
   */
  lemma SelectedIsFree(vmconfig: map<string, string>, autoSelect: AutoSelect, noVirtIO: bool, noScsi: bool,
                       busMatch: BusMatch, ctl: string, id: int)
    requires autoSelect != Off
    ensures var cands := Candidates(ScanOrder(vmconfig, autoSelect, busMatch), noVirtIO, noScsi);
            var (c, i) := Selected(vmconfig, autoSelect, noVirtIO, noScsi, busMatch, ctl, id);
            || (autoSelect == Cdrom && "ide2" !in vmconfig && c == "ide" && i == 2)
            || (&& c in MaxIds && 0 <= i <= MaxIds[c] && DeviceIdError(vmconfig, c, NatToString(i)).None?
                && !(c == "virtio" && noVirtIO) && !(c == "scsi" && noScsi)
                && (forall j :: 0 <= j < i ==> SlotKey(c, j) in vmconfig))
            || (forall k :: 0 <= k < |cands| ==> forall j :: 0 <= j <= MaxIds[cands[k]] ==> SlotKey(cands[k], j) in vmconfig)
  {
    if !(autoSelect == Cdrom && "ide2" !in vmconfig) {
      AllowedScanOutcome(vmconfig, ScanOrder(vmconfig, autoSelect, busMatch), noVirtIO, noScsi, ctl, id);
    }
  }

  /** A scan over a non-empty candidate list always ends on one of the candidates. */
  lemma {:induction false} ScanEndsOnCandidate(vmconfig: map<string, string>, cands: seq<string>, ctl: string, id: int)
    requires forall c :: c in cands ==> c in MaxIds
    requires cands != []
    ensures Scan(vmconfig, cands, ctl, id).0 in cands
  {
    if FirstFree(vmconfig, cands[0], 0, MaxIds[cands[0]]).None? && cands[1..] != [] {
      ScanEndsOnCandidate(vmconfig, cands[1..], cands[0], id);
    }
  }

  /**
   * Choosing by usage always leaves an allowed controller selected, even
   * when every slot is taken: ide is never excluded, so there is always a
   * candidate.
   */
  lemma UsageChoiceAllowed(vmconfig: map<string, string>, noVirtIO: bool, noScsi: bool, busMatch: BusMatch, ctl: string, id: int)
    ensures var c := Selected(vmconfig, ByUsage, noVirtIO, noScsi, busMatch, ctl, id).0;
            c in AllControllers && !(c == "virtio" && noVirtIO) && !(c == "scsi" && noScsi)
  {
    var order := ScanOrder(vmconfig, ByUsage, busMatch);
    assert multiset(order) == multiset(AllControllers);
    assert "ide" in multiset(AllControllers);
    assert "ide" in order;
    var cands := Candidates(order, noVirtIO, noScsi);
    assert "ide" in cands;
    ScanEndsOnCandidate(vmconfig, cands, ctl, id);
    var c := Scan(vmconfig, cands, ctl, id).0;
    assert c in multiset(order);
  }

  /** The deviceid validator: a slot that is already a config key is refused. */
  function DeviceIdError(vmconfig: map<string, string>, controller: string, value: string): (r: Option<string>)
    ensures r.Some? <==> controller + value in vmconfig
    ensures r.Some? ==> r.value == InUseError
  {
    if controller + value in vmconfig then Some(InUseError) else None
  }

  /** Candidates of a list with one more controller in front. */
  lemma CandidatesCons(clist: seq<string>, k: nat, noVirtIO: bool, noScsi: bool)
    requires k < |clist|
    ensures var c := clist[k];
            Candidates(clist[k..], noVirtIO, noScsi)
              == (if (c == "virtio" && noVirtIO) || (c == "scsi" && noScsi) then [] else [c]) + Candidates(clist[k + 1..], noVirtIO, noScsi)
  {
    assert clist[k..][1..] == clist[k + 1..];
  }

  /** A scan tries its first candidate, then goes on with that candidate as the controller. */
  lemma ScanCons(vmconfig: map<string, string>, c: string, rest: seq<string>, ctl: string, id: int)
    requires c in MaxIds && forall c' :: c' in rest ==> c' in MaxIds
    ensures var f := FirstFree(vmconfig, c, 0, MaxIds[c]);
            Scan(vmconfig, [c] + rest, ctl, id) == if f.Some? then (c, f.value) else Scan(vmconfig, rest, c, id)
  {
    assert ([c] + rest)[0] == c && ([c] + rest)[1..] == rest;
  }

  /** The for loop of the scan's callback: ids 0 to max are tried until one is not in the configuration. */
  method FreeSlot(vmconfig: map<string, string>, c: string, max: nat) returns (found: Option<nat>)
    ensures found == FirstFree(vmconfig, c, 0, max)
  {
    var i := 0;
    while i <= max
      invariant 0 <= i <= max + 1
      invariant FirstFree(vmconfig, c, i, max) == FirstFree(vmconfig, c, 0, max)
    {
      if SlotKey(c, i) !in vmconfig {
        return Some(i);
      }
      FirstFreeSkip(vmconfig, c, i, max);
      i := i + 1;
    }
    return None;
  }

  /** The controllers of a suffix of a list of known controllers are known. */
  lemma SuffixKnown(clist: seq<string>, k: nat)
    requires forall c :: c in clist ==> c in MaxIds
    requires k <= |clist|
    ensures forall c :: c in clist[k..] ==> c in MaxIds
  {
    forall c | c in clist[k..]
      ensures c in MaxIds
    {
      var i :| 0 <= i < |clist| - k && clist[k..][i] == c;
      assert clist[k + i] == c;
    }
  }

  /**
   * One controller of the list: an excluded one is skipped, an allowed one
   * is tried and, when full, the scan goes on with it as the controller.
   */
  lemma ScanStep(vmconfig: map<string, string>, clist: seq<string>, k: nat, noVirtIO: bool, noScsi: bool, ctl: string, id: int)
    requires forall c :: c in clist ==> c in MaxIds
    requires k < |clist|
    ensures clist[k] in MaxIds
    ensures forall c :: c in Candidates(clist[k + 1..], noVirtIO, noScsi) ==> c in MaxIds
    ensures var c, here, tail := clist[k], Candidates(clist[k..], noVirtIO, noScsi), Candidates(clist[k + 1..], noVirtIO, noScsi);
            && (forall c' :: c' in here ==> c' in MaxIds)
            && ((c == "virtio" && noVirtIO) || (c == "scsi" && noScsi) ==> Scan(vmconfig, here, ctl, id) == Scan(vmconfig, tail, ctl, id))
            && (!((c == "virtio" && noVirtIO) || (c == "scsi" && noScsi)) ==>
                  var f := FirstFree(vmconfig, c, 0, MaxIds[c]);
                  Scan(vmconfig, here, ctl, id) == if f.Some? then (c, f.value) else Scan(vmconfig, tail, c, id))
  {
    var c := clist[k];
    SuffixKnown(clist, k);
    SuffixKnown(clist, k + 1);
    CandidatesCons(clist, k, noVirtIO, noScsi);
    var tail := Candidates(clist[k + 1..], noVirtIO, noScsi);
    if !((c == "virtio" && noVirtIO) || (c == "scsi" && noScsi)) {
      ScanCons(vmconfig, c, tail, ctl, id);
    } else {
      assert Candidates(clist[k..], noVirtIO, noScsi) == tail;
    }
  }

  /**
   * The Ext.Array.each scan of setVMConfig: each allowed controller in turn
   * becomes the controller, and its ids are tried from 0 up to its maximum;
   * the first free id becomes the device id and stops the scan.
   */
  method ScanSlots(vmconfig: map<string, string>, clist: seq<string>, noVirtIO: bool, noScsi: bool, ctl0: string, id0: int)
    returns (ctl: string, id: int)
    requires forall c :: c in clist ==> c in MaxIds
    ensures (ctl, id) == Scan(vmconfig, Candidates(clist, noVirtIO, noScsi), ctl0, id0)
  {
    hide Scan, Candidates;
    ctl, id := ctl0, id0;
    var k := 0;
    assert clist[0..] == clist;
    while k < |clist|
      invariant 0 <= k <= |clist|
      invariant forall c :: c in Candidates(clist[k..], noVirtIO, noScsi) ==> c in MaxIds
      invariant Scan(vmconfig, Candidates(clist[k..], noVirtIO, noScsi), ctl, id)
                == Scan(vmconfig, Candidates(clist, noVirtIO, noScsi), ctl0, id0)
    {
      var c := clist[k];
      ScanStep(vmconfig, clist, k, noVirtIO, noScsi, ctl, id);
      if (c == "virtio" && noVirtIO) || (c == "scsi" && noScsi) {
        k := k + 1;
        continue;
      }
      ctl := c;
      var f := FreeSlot(vmconfig, c, MaxIds[c]);
      if f.Some? {
        id := f.value;
        return;
      }
      k := k + 1;
    }
    assert clist[k..] == [];
    ScanEnd(vmconfig, noVirtIO, noScsi, ctl, id);
  }

  /** With no candidate left the scan keeps the controller and id it has. */
  lemma ScanEnd(vmconfig: map<string, string>, noVirtIO: bool, noScsi: bool, ctl: string, id: int)
    ensures Candidates([], noVirtIO, noScsi) == []
    ensures Scan(vmconfig, [], ctl, id) == (ctl, id)
  {
  }

  /** setVMConfig's choice of controller and device id, from the ones shown before. */
  method Choose(vmconfig: map<string, string>, autoSelect: AutoSelect, noVirtIO: bool, noScsi: bool,
                busMatch: BusMatch, ctl0: string, id0: int)
    returns (ctl: string, id: int)
    ensures (ctl, id) == Selected(vmconfig, autoSelect, noVirtIO, noScsi, busMatch, ctl0, id0)
  {
    if autoSelect == Off {
      return ctl0, id0;
    }
    var clist := AllControllers;
    if autoSelect == Cdrom {
      clist := CdromControllers;
      if "ide2" !in vmconfig {
        return "ide", 2;
      }
    } else {
      clist := SortByPreviousUsage(vmconfig, clist, busMatch);
    }
    assert clist == ScanOrder(vmconfig, autoSelect, busMatch);
    ctl, id := ScanSlots(vmconfig, clist, noVirtIO, noScsi, ctl0, id0);
  }

  /**
   * The selector widget: the configuration it checks against, the values
   * of its controller and deviceid fields, and the deviceid field's maximum.
   * The widget is taken as rendered, so the controller field's change
   * listener always keeps the maximum at the controller's bound.
   */
  class Selector {
    const noVirtIO: bool
    const noScsi: bool
    var vmconfig: map<string, string>
    var controller: string
    var deviceid: int
    var deviceidMax: int

    ghost predicate Valid()
      reads this
    {
      controller in MaxIds && deviceidMax == MaxIds[controller]
    }

    /** A fresh selector: the generic bus type, device 0, no configuration. */
    constructor(noVirtIO: bool, noScsi: bool)
      ensures Valid()
      ensures this.noVirtIO == noVirtIO && this.noScsi == noScsi
      ensures vmconfig == map[] && controller == OSDefaults.Generic()["busType"].s && deviceid == 0
    {
      this.noVirtIO, this.noScsi := noVirtIO, noScsi;
      vmconfig := map[];
      controller := "ide";
      deviceid := 0;
      deviceidMax := MaxIds["ide"];
    }

    /** The change listener of the controller field: the device id bound follows the controller. */
    method OnControllerChange(value: string)
      requires Valid()
      modifies this
      ensures Valid()
      ensures value in MaxIds ==> controller == value && deviceidMax == MaxIds[value]
      ensures value !in MaxIds ==> controller == old(controller)
      ensures vmconfig == old(vmconfig) && deviceid == old(deviceid)
    {
      if value in MaxIds {
        controller := value;
        deviceidMax := MaxIds[value];
      }
    }

    /**
     * setVMConfig: keeps its own copy of the configuration and, when asked,
     * moves the fields to the chosen slot.
     */
    method SetVMConfig(config: map<string, string>, autoSelect: AutoSelect, busMatch: BusMatch)
      requires Valid()
      modifies this
      ensures Valid()
      ensures vmconfig == config
      ensures (controller, deviceid) == Selected(config, autoSelect, noVirtIO, noScsi, busMatch, old(controller), old(deviceid))
    {
      hide Selected;
      vmconfig := config;
      var c, i := Choose(config, autoSelect, noVirtIO, noScsi, busMatch, controller, deviceid);
      SelectedInMaxIds(config, autoSelect, noVirtIO, noScsi, busMatch, controller, deviceid);
      OnControllerChange(c);
      deviceid := i;
    }

    /** The deviceid field's validator. */
    function Validate(value: string): (r: Option<string>)
      reads this
      ensures r.Some? <==> controller + value in vmconfig
    {
      DeviceIdError(vmconfig, controller, value)
    }
  }

  /** The controller chosen is always a known one when the one before it was. */
  lemma SelectedInMaxIds(vmconfig: map<string, string>, autoSelect: AutoSelect, noVirtIO: bool, noScsi: bool,
                         busMatch: BusMatch, ctl: string, id: int)
    requires ctl in MaxIds
    ensures Selected(vmconfig, autoSelect, noVirtIO, noScsi, busMatch, ctl, id).0 in MaxIds
  {
    if autoSelect != Off && !(autoSelect == Cdrom && "ide2" !in vmconfig) {
      var cands := Candidates(ScanOrder(vmconfig, autoSelect, busMatch), noVirtIO, noScsi);
      ScanInMaxIds(vmconfig, cands, ctl, id);
    }
  }

  lemma {:induction false} ScanInMaxIds(vmconfig: map<string, string>, cands: seq<string>, ctl: string, id: int)
    requires forall c :: c in cands ==> c in MaxIds
    requires ctl in MaxIds
    ensures Scan(vmconfig, cands, ctl, id).0 in MaxIds
  {
    if cands != [] && FirstFree(vmconfig, cands[0], 0, MaxIds[cands[0]]).None? {
      ScanInMaxIds(vmconfig, cands[1..], cands[0], id);
    }
  }
}
