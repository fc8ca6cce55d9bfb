/**
 * The tab bar store (frontend/src/stores/tabs.js): an ordered list of open
 * tabs and the path of the active one.  The store's operations are given
 * twice: as functions on a `TabState` value, which the lemmas talk about,
 * and as methods of the `TabsStore` class, which update its two fields in
 * place and are proved to compute those functions.
 */
module Tabs {
  import opened Wrappers

  /**
   * The part of a vue-router route the store reads.  `title` stands for
   * `route.meta.title`, with "" when the route has none.
   */
  datatype Route = Route(path: string, name: string, title: string)

  datatype Tab = Tab(title: string, path: string, name: string, closable: bool)

  /** The store's two refs: `tabs` and `activeTab`. */
  datatype TabState = TabState(tabs: seq<Tab>, active: string)

  const Initial: TabState := TabState([], "")

  /** The tab pushed for a route: `route.meta.title || route.name` (an empty title is falsy). */
  function NewTab(route: Route): Tab {
    Tab(if route.title != "" then route.title else route.name, route.path, route.name, true)
  }

  predicate HasPath(tabs: seq<Tab>, path: string) {
    exists i :: 0 <= i < |tabs| && tabs[i].path == path
  }

  predicate UniquePaths(tabs: seq<Tab>) {
    forall i, j :: 0 <= i < j < |tabs| ==> tabs[i].path != tabs[j].path
  }

  /** The store's invariant: paths are unique, and while tabs exist the active path is one of theirs. */
  predicate Inv(st: TabState) {
    UniquePaths(st.tabs) && (st.tabs != [] ==> HasPath(st.tabs, st.active))
  }

  /** What `findIndex(tab => tab.path === path)` answers: the first matching index, or -1. */
  function IndexOf(tabs: seq<Tab>, path: string): (i: int)
    ensures -1 <= i < |tabs|
    ensures i == -1 <==> !HasPath(tabs, path)
    ensures 0 <= i ==> tabs[i].path == path && forall j :: 0 <= j < i ==> tabs[j].path != path
    decreases |tabs|
  {
    if |tabs| == 0 then -1
    else if tabs[0].path == path then 0
    else
      var k := IndexOf(tabs[1..], path);
      assert HasPath(tabs, path) ==> HasPath(tabs[1..], path) by {
        if HasPath(tabs, path) {
          var w :| 0 <= w < |tabs| && tabs[w].path == path;
          assert tabs[1..][w - 1].path == path;
        }
      }
      if k == -1 then -1 else k + 1
  }

  /** `addTab`: append a tab for the route unless one with its path is open, then activate it. */
  function Add(st: TabState, route: Route): (r: TabState)
    ensures r.active == route.path && HasPath(r.tabs, r.active)
    ensures HasPath(st.tabs, route.path) ==> r.tabs == st.tabs
    ensures !HasPath(st.tabs, route.path) ==> r.tabs == st.tabs + [NewTab(route)]
    ensures UniquePaths(st.tabs) ==> UniquePaths(r.tabs)
  {
    var k := IndexOf(st.tabs, route.path);
    var tabs := if k == -1 then st.tabs + [NewTab(route)] else st.tabs;
    assert tabs[if k == -1 then |st.tabs| else k].path == route.path;
    TabState(tabs, route.path)
  }

  /** What `closeTab` leaves behind and what it returns (the newly activated tab, if any). */
  datatype Closed = Closed(state: TabState, activated: Option<Tab>)

  /** `closeTab`: remove the tab with that path; if it was active, activate its right neighbour, else its left one. */
  function Close(st: TabState, target: string): (r: Closed)
    ensures !HasPath(st.tabs, target) ==> r == Closed(st, None)
    ensures HasPath(st.tabs, target) ==> |r.state.tabs| == |st.tabs| - 1
    ensures r.activated.Some? <==> HasPath(st.tabs, target) && target == st.active && |st.tabs| > 1
    ensures r.activated.Some? ==> r.activated.value in r.state.tabs && r.state.active == r.activated.value.path
    ensures r.activated.None? ==> r.state.active == st.active
  {
    var k := IndexOf(st.tabs, target);
    if k == -1 then Closed(st, None)
    else
      var rest := st.tabs[..k] + st.tabs[k + 1..];
      if target == st.active && |rest| > 0 then
        var next := if k < |rest| then rest[k] else rest[k - 1];
        Closed(TabState(rest, next.path), Some(next))
      else
        Closed(TabState(rest, st.active), None)
  }

  /** `closeOtherTabs`: keep only the tab with that path and activate it; without one, nothing changes. */
  function CloseOthers(st: TabState, path: string): (r: TabState)
    ensures !HasPath(st.tabs, path) ==> r == st
    ensures HasPath(st.tabs, path) ==> |r.tabs| == 1 && r.tabs[0] in st.tabs && r.tabs[0].path == path && r.active == path
  {
    var k := IndexOf(st.tabs, path);
    if k == -1 then st else TabState([st.tabs[k]], st.tabs[k].path)
  }

  /** The list `splice(k, 1)` leaves: position i holds the old tab i, or i + 1 from k on. */
  lemma RemoveAtShifts(tabs: seq<Tab>, k: nat)
    requires k < |tabs|
    ensures var rest := tabs[..k] + tabs[k + 1..];
      |rest| == |tabs| - 1 && forall i :: 0 <= i < |rest| ==> rest[i] == tabs[if i < k then i else i + 1]
  {
  }

  /** With unique paths, `splice(k, 1)` keeps exactly the tabs whose path differs from tab k's. */
  lemma RemoveAtMembers(tabs: seq<Tab>, k: nat)
    requires k < |tabs| && UniquePaths(tabs)
    ensures forall t :: t in tabs[..k] + tabs[k + 1..] <==> t in tabs && t.path != tabs[k].path
  {
    var rest := tabs[..k] + tabs[k + 1..];
    RemoveAtShifts(tabs, k);
    forall t
      ensures t in rest <==> t in tabs && t.path != tabs[k].path
    {
      if t in rest {
        var i :| 0 <= i < |rest| && rest[i] == t;
        var j := if i < k then i else i + 1;
        assert t == tabs[j] && j != k;
      }
      if t in tabs && t.path != tabs[k].path {
        var i :| 0 <= i < |tabs| && tabs[i] == t;
        assert t == rest[if i < k then i else i - 1];
      }
    }
  }

  /** Closing a tab removes exactly that tab and keeps the others in their order. */
  lemma CloseKeepsOthersInOrder(st: TabState, target: string)
    requires HasPath(st.tabs, target)
    ensures var k, rest := IndexOf(st.tabs, target), Close(st, target).state.tabs;
      forall i :: 0 <= i < |rest| ==> rest[i] == st.tabs[if i < k then i else i + 1]
    ensures UniquePaths(st.tabs) ==> forall t :: t in Close(st, target).state.tabs <==> t in st.tabs && t.path != target
  {
    var k := IndexOf(st.tabs, target);
    assert Close(st, target).state.tabs == st.tabs[..k] + st.tabs[k + 1..];
    RemoveAtShifts(st.tabs, k);
    if UniquePaths(st.tabs) {
      RemoveAtMembers(st.tabs, k);
    }
  }

  /**
   * Closing the active tab while others remain activates, and returns, the
   * tab right of it in the old list, or the one left of it when it was last.
   */
  lemma CloseActivatesNeighbour(st: TabState, target: string)
    requires HasPath(st.tabs, target) && target == st.active && |st.tabs| > 1
    ensures var k := IndexOf(st.tabs, target);
      Close(st, target).activated == Some(if k + 1 < |st.tabs| then st.tabs[k + 1] else st.tabs[k - 1])
  {
  }

  /** Removing one tab keeps the other paths unique. */
  lemma RemoveAtKeepsUnique(tabs: seq<Tab>, k: nat)
    requires k < |tabs| && UniquePaths(tabs)
    ensures UniquePaths(tabs[..k] + tabs[k + 1..])
  {
    var rest := tabs[..k] + tabs[k + 1..];
    RemoveAtShifts(tabs, k);
    forall i, j | 0 <= i < j < |rest|
      ensures rest[i].path != rest[j].path
    {
      assert rest[i] == tabs[if i < k then i else i + 1];
      assert rest[j] == tabs[if j < k then j else j + 1];
    }
  }

  /** Removing a tab other than the active one leaves the active path on a remaining tab. */
  lemma RemoveAtKeepsActive(tabs: seq<Tab>, k: nat, active: string)
    requires k < |tabs| && HasPath(tabs, active) && tabs[k].path != active
    ensures HasPath(tabs[..k] + tabs[k + 1..], active)
  {
    var rest := tabs[..k] + tabs[k + 1..];
    RemoveAtShifts(tabs, k);
    var a :| 0 <= a < |tabs| && tabs[a].path == active;
    assert rest[if a < k then a else a - 1].path == active;
  }

  lemma ClosePreservesInv(st: TabState, target: string)
    requires Inv(st)
    ensures Inv(Close(st, target).state)
  {
    var r := Close(st, target);
    if HasPath(st.tabs, target) {
      var k := IndexOf(st.tabs, target);
      assert r.state.tabs == st.tabs[..k] + st.tabs[k + 1..];
      RemoveAtKeepsUnique(st.tabs, k);
      if r.activated.None? && r.state.tabs != [] {
        RemoveAtKeepsActive(st.tabs, k, st.active);
      }
    }
  }

  lemma CloseOthersPreservesInv(st: TabState, path: string)
    requires Inv(st)
    ensures Inv(CloseOthers(st, path))
  {
    var r := CloseOthers(st, path);
    if HasPath(st.tabs, path) {
      assert r.tabs[0].path == r.active;
    }
  }

  /** One call on the store. */
  datatype Op = AddTabOp(route: Route) | CloseTabOp(target: string) | CloseOtherTabsOp(path: string) | CloseAllTabsOp

  function Apply(st: TabState, op: Op): TabState {
    match op
    case AddTabOp(route) => Add(st, route)
    case CloseTabOp(target) => Close(st, target).state
    case CloseOtherTabsOp(path) => CloseOthers(st, path)
    case CloseAllTabsOp => Initial
  }

  /** The state after a sequence of calls, first call first. */
  function Run(st: TabState, ops: seq<Op>): TabState
    decreases |ops|
  {
    if ops == [] then st else Run(Apply(st, ops[0]), ops[1..])
  }

  lemma ApplyPreservesInv(st: TabState, op: Op)
    requires Inv(st)
    ensures Inv(Apply(st, op))
  {
    match op
    case AddTabOp(route) =>
    case CloseTabOp(target) => ClosePreservesInv(st, target);
    case CloseOtherTabsOp(path) => CloseOthersPreservesInv(st, path);
    case CloseAllTabsOp =>
  }

  /** Every sequence of calls keeps the invariant. */
  lemma {:induction false} RunPreservesInv(st: TabState, ops: seq<Op>)
    requires Inv(st)
    ensures Inv(Run(st, ops))
    decreases |ops|
  {
    if ops != [] {
      ApplyPreservesInv(st, ops[0]);
      RunPreservesInv(Apply(st, ops[0]), ops[1..]);
    }
  }

  /** Every state the store can reach from its initial one satisfies the invariant. */
  lemma ReachableStatesAreValid(ops: seq<Op>)
    ensures Inv(Run(Initial, ops))
  {
    RunPreservesInv(Initial, ops);
  }

  /** The `findIndex` scan: the first index whose tab has the path, or -1. */
  method FindIndex(tabs: seq<Tab>, path: string) returns (index: int)
    ensures index == IndexOf(tabs, path)
  {
    index := 0;
    while index < |tabs|
      invariant 0 <= index <= |tabs|
      invariant forall j :: 0 <= j < index ==> tabs[j].path != path
    {
      if tabs[index].path == path {
        return;
      }
      index := index + 1;
    }
    index := -1;
  }

  /** The Pinia store object; its two fields are the store's two refs. */
  class TabsStore {
    var tabs: seq<Tab>
    var activeTab: string

    function State(): TabState
      reads this
    {
      TabState(tabs, activeTab)
    }

    ghost predicate Valid()
      reads this
    {
      Inv(State())
    }

    constructor ()
      ensures State() == Initial && Valid()
    {
      tabs := [];
      activeTab := "";
    }

    method AddTab(route: Route)
      modifies this
      ensures State() == Add(old(State()), route)
      ensures old(Valid()) ==> Valid()
    {
      var index := FindIndex(tabs, route.path);
      if index == -1 {
        tabs := tabs + [NewTab(route)];
      }
      activeTab := route.path;
    }

    method CloseTab(targetPath: string) returns (next: Option<Tab>)
      modifies this
      ensures Closed(State(), next) == Close(old(State()), targetPath)
      ensures old(Valid()) ==> Valid()
    {
      ghost var before := State();
      var targetIndex := FindIndex(tabs, targetPath);
      if targetIndex == -1 {
        return None;
      }
      tabs := tabs[..targetIndex] + tabs[targetIndex + 1..];
      next := None;
      if targetPath == activeTab {
        if |tabs| > 0 {
          var tab := if targetIndex < |tabs| then tabs[targetIndex] else tabs[targetIndex - 1];
          activeTab := tab.path;
          next := Some(tab);
        }
      }
      if Inv(before) {
        ClosePreservesInv(before, targetPath);
      }
    }

    method CloseOtherTabs(path: string)
      modifies this
      ensures State() == CloseOthers(old(State()), path)
      ensures old(Valid()) ==> Valid()
    {
      ghost var before := State();
      var index := FindIndex(tabs, path);
      if index != -1 {
        var keepTab := tabs[index];
        tabs := [keepTab];
        activeTab := keepTab.path;
      }
      if Inv(before) {
        CloseOthersPreservesInv(before, path);
      }
    }

    method CloseAllTabs()
      modifies this
      ensures State() == Initial && Valid()
    {
      tabs := [];
      activeTab := "";
    }
  }
}
