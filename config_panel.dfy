/**
 * The tabbed configuration panel (PVE.panel.Config): its tool bar, its
 * tabs, and the history state that remembers which tab is open.
 *
 * The state provider is modelled as a map from state ids to the state
 * objects stored under them.
 */
module ConfigPanel {
  import opened Js

  /**
   * A tab-name character: anything but '-' and white space.
   */
  predicate IsNameChar(c: char)
  {
    c != '-' && !IsSpace(c)
  }

  predicate IsTabName(s: string)
  {
    s != [] && forall i :: 0 <= i < |s| ==> IsNameChar(s[i])
  }

  /** The length of the run of tab-name characters that starts s. */
  function NameRun(s: string): (k: nat)
    ensures k <= |s| && forall i :: 0 <= i < k ==> IsNameChar(s[i])
    ensures k == |s| || !IsNameChar(s[k])
  {
    if s != [] && IsNameChar(s[0]) then 1 + NameRun(s[1..]) else 0
  }

  /**
   * The tab name of a history state: the whole text must be a tab name,
   * optionally followed by '-' and further non-white-space; the name is
   * the part before the '-'.
   */
  function HStateTab(v: string): (r: Option<string>)
    ensures r.Some? ==> IsTabName(r.value) && IsPrefix(r.value, v)
  {
    var a := NameRun(v);
    if a == 0 then None
    else
      var rest := v[a..];
      if rest == [] then Some(v)
      else if rest[0] == '-' && |rest| > 1 && NoSpace(rest[1..]) then Some(v[..a])
      else None
  }

  /** A tab name is its own state, and keeps its name under a '-' suffix. */
  lemma HStateTabOf(name: string, suffix: string)
    requires IsTabName(name) && NoSpace(suffix)
    ensures HStateTab(name) == Some(name)
    ensures suffix != [] ==> HStateTab(name + "-" + suffix) == Some(name)
  {
    NameRunOf(name, "");
    assert name + "" == name;
    if suffix != [] {
      var v := name + "-" + suffix;
      assert v == name + ("-" + suffix);
      NameRunOf(name, "-" + suffix);
      assert v[|name|..] == "-" + suffix;
      assert ("-" + suffix)[1..] == suffix;
      assert v[..|name|] == name;
    }
  }

  lemma {:induction false} NameRunOf(name: string, rest: string)
    requires forall i :: 0 <= i < |name| ==> IsNameChar(name[i])
    requires rest == [] || !IsNameChar(rest[0])
    ensures NameRun(name + rest) == |name|
    decreases |name|
  {
    if name == [] {
      assert name + rest == rest;
    } else {
      assert (name + rest)[1..] == name[1..] + rest;
      NameRunOf(name[1..], rest);
    }
  }

  /** A state with white space in it, or starting with '-', names no tab. */
  lemma HStateTabRejects(v: string, i: nat)
    requires i < |v| && IsSpace(v[i])
    ensures HStateTab(v).None?
  {
    var a := NameRun(v);
    if a > 0 && a < |v| {
      var rest := v[a..];
      if i > a {
        assert v[i] == rest[1..][i - a - 1];
      }
    }
  }

  /**
   * The tab the panel opens on: with a state id whose stored state has a
   * value that names a tab, that tab; otherwise none.
   */
  function InitialTab(stateid: string, stored: map<string, Obj>): (r: Option<string>)
    ensures r.Some? ==> stateid != "" && stateid in stored && Truthy(Get(stored[stateid], "value"))
    ensures r.Some? ==> r == HStateTab(ToStr(Get(stored[stateid], "value")))
  {
    if stateid != "" && stateid in stored && Truthy(Get(stored[stateid], "value")) then
      HStateTab(ToStr(Get(stored[stateid], "value")))
    else None
  }

  /** An item of the tool bar. */
  datatype ToolItem = TitleText(text: string) | Fill | Tool(name: string)

  /** The tool bar: the title (the panel's, or else the node's text), then '->', then the panel's own tools. */
  function Toolbar(title: Value, nodeText: Value, tbar: seq<ToolItem>): (r: seq<ToolItem>)
    ensures |r| == |tbar| + 2 && r[2..] == tbar && r[1] == Fill
    ensures r[0] == TitleText(if Truthy(title) then ToStr(title) else ToStr(nodeText))
  {
    [TitleText(if Truthy(title) then ToStr(title) else ToStr(nodeText)), Fill] + tbar
  }

  /** A tab: its item id, the history state id of its own (if any) and the state it stores under it. */
  datatype Tab = Tab(itemId: string, phstateid: Option<string>, hstate: Obj)

  /** showSearch is true unless the panel sets it. */
  function ShowSearch(showSearch: Value): bool
  {
    if showSearch.Undefined? then true else Truthy(showSearch)
  }

  /** The tabs: a search tab first when search is shown, then the panel's own. */
  function Tabs(showSearch: Value, items: seq<Tab>): (r: seq<Tab>)
    ensures ShowSearch(showSearch) ==> |r| == |items| + 1 && r[0].itemId == "search" && r[1..] == items
    ensures !ShowSearch(showSearch) ==> r == items
  {
    if ShowSearch(showSearch) then [Tab("search", None, map[])] + items else items
  }

  predicate HasTab(tabs: seq<Tab>, id: string)
  {
    exists i :: 0 <= i < |tabs| && tabs[i].itemId == id
  }

  class Config {
    /** The history state id; empty when the panel has none. */
    const stateid: string
    const tabs: seq<Tab>
    /** The state provider's store. */
    var stored: map<string, Obj>
    var activeTab: string

    /**
     * The panel opens on the tab its stored history state names, when there
     * is such a tab, and on its first tab otherwise.
     */
    constructor(stateid: string, tabs: seq<Tab>, stored: map<string, Obj>)
      requires |tabs| > 0
      ensures this.stateid == stateid && this.tabs == tabs && this.stored == stored
      ensures InitialTab(stateid, stored).Some? && HasTab(tabs, InitialTab(stateid, stored).value) ==>
                activeTab == InitialTab(stateid, stored).value
      ensures !(InitialTab(stateid, stored).Some? && HasTab(tabs, InitialTab(stateid, stored).value)) ==>
                activeTab == tabs[0].itemId
    {
      this.stateid, this.tabs, this.stored := stateid, tabs, stored;
      var initial := InitialTab(stateid, stored);
      if initial.Some? && HasTab(tabs, initial.value) {
        activeTab := initial.value;
      } else {
        activeTab := tabs[0].itemId;
      }
    }

    /**
     * tabchange: the new tab is remembered under the panel's state id, the
     * first tab as '' (or, for a tab with its own history state id, its
     * own state under that id).
     */
    method OnTabChange(newcard: Tab)
      requires |tabs| > 0
      modifies this
      ensures activeTab == newcard.itemId
      ensures stateid == "" ==> stored == old(stored)
      ensures stateid != "" && newcard.phstateid.Some? ==> stored == old(stored)[newcard.phstateid.value := newcard.hstate]
      ensures stateid != "" && newcard.phstateid.None? ==>
                stored == old(stored)[stateid := map["value" := Str(if newcard.itemId == tabs[0].itemId then "" else newcard.itemId)]]
    {
      activeTab := newcard.itemId;
      var ntab := newcard.itemId;
      if newcard.itemId == tabs[0].itemId {
        ntab := "";
      }
      if stateid != "" {
        if newcard.phstateid.Some? {
          stored := stored[newcard.phstateid.value := newcard.hstate];
        } else {
          stored := stored[stateid := map["value" := Str(ntab)]];
        }
      }
    }

    /**
     * statechange: a state stored under the panel's id opens the tab it
     * names, or the first tab when it names none; nothing happens when that
     * tab is already open or there is no tab of that name.
     */
    method OnStateChange(key: string, state: Option<Obj>)
      requires |tabs| > 0
      modifies this
      ensures stored == old(stored)
      ensures stateid != "" && key == stateid && state.Some? && Target(state.value) != "" && HasTab(tabs, Target(state.value)) ==>
                activeTab == Target(state.value)
      ensures !(stateid != "" && key == stateid && state.Some? && Target(state.value) != "" && HasTab(tabs, Target(state.value))) ==>
                activeTab == old(activeTab)
    {
      if stateid != "" && key == stateid && state.Some? {
        var atab := activeTab;
        var res := HStateTab(ToStr(Get(state.value, "value")));
        var ntab := if res.Some? then res.value else tabs[0].itemId;
        if ntab != "" && atab != ntab && HasTab(tabs, ntab) {
          activeTab := ntab;
        }
      }
    }

    /** The tab a state names: its tab name, or the first tab. */
    function Target(state: Obj): string
      requires |tabs| > 0
      reads this
    {
      var res := HStateTab(ToStr(Get(state, "value")));
      if res.Some? then res.value else tabs[0].itemId
    }
  }

  /**
   * Switching to a tab and then receiving the state that switch stored
   * opens the same tab again, the first tab included: the stored name is a
   * round trip when the tab ids are tab names.
   */
  method TabRoundTrip(p: Config, card: Tab)
    requires |p.tabs| > 0 && p.stateid != "" && card.phstateid.None?
    requires card in p.tabs && IsTabName(card.itemId) && IsTabName(p.tabs[0].itemId)
    modifies p
    ensures p.activeTab == card.itemId
  {
    p.OnTabChange(card);
    var state := p.stored[p.stateid];
    p.OnStateChange(p.stateid, Some(state));
    if card.itemId != p.tabs[0].itemId {
      HStateTabOf(card.itemId, "");
    }
    var k :| 0 <= k < |p.tabs| && p.tabs[k] == card;
  }
}
