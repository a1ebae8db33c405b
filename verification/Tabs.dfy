/** The page tab bar: a list of open tabs, the active one, and the closing actions with the
    path they navigate to. */
module Tabs {
  import opened Wrappers

  datatype Tab = Tab(id: string, title: string, path: string, fullPath: string, closable: bool, icon: Option<string>)

  /** What a page hands over: closable is optional. */
  datatype NewTab = NewTab(id: string, title: string, path: string, fullPath: string, closable: Option<bool>, icon: Option<string>)

  const DASHBOARD_TAB := Tab("/dashboard", "仪表盘", "/dashboard", "/dashboard", false, Some("LayoutDashboard"))

  /** tabs.findIndex((t) => t.id === id). */
  function FindIndex(tabs: seq<Tab>, id: string): (r: int)
    ensures -1 <= r < |tabs|
    ensures r == -1 ==> forall i :: 0 <= i < |tabs| ==> tabs[i].id != id
    ensures r >= 0 ==> tabs[r].id == id && forall i :: 0 <= i < r ==> tabs[i].id != id
  {
    if tabs == [] then -1
    else if tabs[0].id == id then 0
    else
      var rest := FindIndex(tabs[1..], id);
      if rest == -1 then -1 else rest + 1
  }

  /** tabs.filter with a test on the tab and its index. */
  function Filter(tabs: seq<Tab>, keep: (Tab, nat) -> bool): seq<Tab> {
    if tabs == [] then []
    else
      var n := |tabs| - 1;
      Filter(tabs[..n], keep) + (if keep(tabs[n], n) then [tabs[n]] else [])
  }

  // ---------------------------------------------------------------- retained tabs

  ghost predicate Ascending(at: seq<nat>, limit: nat) {
    (forall k :: 0 <= k < |at| ==> at[k] < limit) && (forall k, l :: 0 <= k < l < |at| ==> at[k] < at[l])
  }

  /** after is the subsequence of before at the given positions, which are those to keep. */
  ghost predicate PicksAt(before: seq<Tab>, after: seq<Tab>, keep: (Tab, nat) -> bool, at: seq<nat>) {
    && |at| == |after| && Ascending(at, |before|)
    && (forall k :: 0 <= k < |at| ==> after[k] == before[at[k]])
    && (forall i: nat :: i < |before| ==> (i in at <==> keep(before[i], i)))
  }

  /** after holds exactly the tabs of before to keep, in the order they had. */
  ghost predicate Retains(before: seq<Tab>, after: seq<Tab>, keep: (Tab, nat) -> bool) {
    exists at :: PicksAt(before, after, keep, at)
  }

  lemma {:induction false} PickOneMore(before: seq<Tab>, after: seq<Tab>, keep: (Tab, nat) -> bool, at: seq<nat>, t: Tab)
    requires PicksAt(before, after, keep, at)
    ensures keep(t, |before|) ==> PicksAt(before + [t], after + [t], keep, at + [|before|])
    ensures !keep(t, |before|) ==> PicksAt(before + [t], after, keep, at)
  {
  }

  /** The filter keeps what it should, in order. */
  lemma {:induction false} FilterRetains(tabs: seq<Tab>, keep: (Tab, nat) -> bool) returns (at: seq<nat>)
    ensures PicksAt(tabs, Filter(tabs, keep), keep, at)
    decreases |tabs|
  {
    if tabs == [] {
      return [];
    }
    var n := |tabs| - 1;
    at := FilterRetains(tabs[..n], keep);
    PickOneMore(tabs[..n], Filter(tabs[..n], keep), keep, at, tabs[n]);
    assert tabs == tabs[..n] + [tabs[n]];
    if keep(tabs[n], n) {
      at := at + [n];
    } else {
      assert Filter(tabs, keep) == Filter(tabs[..n], keep);
    }
  }

  /** Two strictly ascending sequences with the same elements are equal. */
  lemma {:induction false} AscendingUnique(a: seq<nat>, b: seq<nat>, limit: nat)
    requires Ascending(a, limit) && Ascending(b, limit) && forall i: nat :: i in a <==> i in b
    ensures a == b
    decreases limit
  {
    if limit == 0 {
      assert a == [] && b == [];
      return;
    }
    LastOf(a, limit);
    LastOf(b, limit);
    var a', b' := Below(a, limit - 1), Below(b, limit - 1);
    forall i: nat
      ensures i in a' <==> i in b'
    {
      assert i in a <==> i in b;
    }
    AscendingUnique(a', b', limit - 1);
    assert limit - 1 in a <==> limit - 1 in b;
  }

  ghost function Below(a: seq<nat>, last: nat): seq<nat> {
    if a != [] && a[|a| - 1] == last then a[..|a| - 1] else a
  }

  lemma {:induction false} LastOf(a: seq<nat>, limit: nat)
    requires Ascending(a, limit) && limit > 0
    ensures Ascending(Below(a, limit - 1), limit - 1)
    ensures forall i: nat :: i in Below(a, limit - 1) <==> i in a && i != limit - 1
    ensures a == Below(a, limit - 1) + (if limit - 1 in a then [limit - 1] else [])
  {
  }

  /** The description leaves no choice. */
  lemma {:induction false} RetainsDetermines(before: seq<Tab>, after: seq<Tab>, keep: (Tab, nat) -> bool)
    requires Retains(before, after, keep)
    ensures after == Filter(before, keep)
  {
    var at :| PicksAt(before, after, keep, at);
    var mine := FilterRetains(before, keep);
    forall i: nat
      ensures i in at <==> i in mine
    {
      if i >= |before| {
        assert i !in at && i !in mine;
      }
    }
    AscendingUnique(at, mine, |before|);
  }

  // ---------------------------------------------------------------- well-formed tab lists

  ghost predicate UniqueIds(tabs: seq<Tab>) {
    forall i, j :: 0 <= i < j < |tabs| ==> tabs[i].id != tabs[j].id
  }

  /** Unique ids, and the dashboard first, which cannot be closed. */
  ghost predicate GoodTabs(tabs: seq<Tab>) {
    UniqueIds(tabs) && |tabs| > 0 && tabs[0].id == DASHBOARD_TAB.id && !tabs[0].closable
  }

  ghost predicate IsOpen(tabs: seq<Tab>, id: string) {
    exists i :: 0 <= i < |tabs| && tabs[i].id == id
  }

  lemma {:induction false} RetainedIsOpen(before: seq<Tab>, after: seq<Tab>, keep: (Tab, nat) -> bool, i: nat)
    requires Retains(before, after, keep) && i < |before|
    ensures keep(before[i], i) ==> before[i] in after && IsOpen(after, before[i].id)
    ensures UniqueIds(before) && !keep(before[i], i) ==> !IsOpen(after, before[i].id)
  {
  }

  /** No tab that cannot be closed is lost. */
  ghost predicate FixedStay(before: seq<Tab>, after: seq<Tab>) {
    forall t :: t in before && !t.closable ==> t in after
  }

  /** Closing tabs that are closable leaves a well-formed list. */
  lemma {:induction false} RetainedStayGood(before: seq<Tab>, after: seq<Tab>, keep: (Tab, nat) -> bool)
    requires GoodTabs(before) && Retains(before, after, keep)
    requires forall i: nat :: i < |before| && !before[i].closable ==> keep(before[i], i)
    ensures GoodTabs(after) && FixedStay(before, after)
  {
  }

  lemma {:induction false} PrefixKept(tabs: seq<Tab>, keep: (Tab, nat) -> bool, p: nat)
    requires p <= |tabs| && forall i: nat :: i < p ==> keep(tabs[i], i)
    ensures p <= |Filter(tabs, keep)| && Filter(tabs, keep)[..p] == tabs[..p]
    decreases |tabs|
  {
    if p < |tabs| {
      var n := |tabs| - 1;
      assert tabs[..n][..p] == tabs[..p];
      PrefixKept(tabs[..n], keep, p);
    } else if tabs != [] {
      var n := |tabs| - 1;
      assert tabs[..n][..n] == tabs[..n];
      PrefixKept(tabs[..n], keep, n);
      KeepsAtMostAll(tabs[..n], keep);
      assert Filter(tabs[..n], keep) == tabs[..n];
      assert tabs == tabs[..n] + [tabs[n]];
    }
  }

  lemma {:induction false} KeepsAtMostAll(tabs: seq<Tab>, keep: (Tab, nat) -> bool)
    ensures |Filter(tabs, keep)| <= |tabs|
    decreases |tabs|
  {
    if tabs != [] {
      KeepsAtMostAll(tabs[..|tabs| - 1], keep);
    }
  }

  // What each closing action keeps.

  function AllBut(id: string): (Tab, nat) -> bool {
    (t: Tab, i: nat) => t.id != id
  }

  function FixedAnd(id: string): (Tab, nat) -> bool {
    (t: Tab, i: nat) => !t.closable || t.id == id
  }

  /** Up to a position, and right of it what cannot be closed. */
  function FixedRightOf(p: int): (Tab, nat) -> bool {
    (t: Tab, i: nat) => i <= p || !t.closable
  }

  // ---------------------------------------------------------------- the store

  /** A callback's path, or none when the action does not navigate. */
  type Navigation = Option<string>

  class TabsStore {
    var tabs: seq<Tab>
    var activeTabId: string

    ghost predicate Valid()
      reads this
    {
      GoodTabs(tabs) && IsOpen(tabs, activeTabId)
    }

    constructor ()
      ensures Valid() && tabs == [DASHBOARD_TAB] && activeTabId == DASHBOARD_TAB.id
    {
      tabs, activeTabId := [DASHBOARD_TAB], DASHBOARD_TAB.id;
      new;
      assert tabs[0].id == activeTabId;
    }

    method ResetTabs()
      modifies this
      ensures Valid() && tabs == [DASHBOARD_TAB] && activeTabId == DASHBOARD_TAB.id
    {
      tabs, activeTabId := [DASHBOARD_TAB], DASHBOARD_TAB.id;
      assert tabs[0].id == activeTabId;
    }

    /** An open tab is activated and refreshed where it stands, an empty title keeping the old
        one; any other is appended. */
    method AddTab(tab: NewTab)
      requires Valid()
      modifies this
      ensures Valid() && activeTabId == tab.id
      ensures IsOpen(old(tabs), tab.id) ==>
                && |tabs| == |old(tabs)|
                && forall i :: 0 <= i < |tabs| ==>
                                 if old(tabs)[i].id != tab.id then tabs[i] == old(tabs)[i]
                                 else tabs[i] == old(tabs)[i].(
                                     title := if tab.title == "" then old(tabs)[i].title else tab.title,
                                     fullPath := tab.fullPath)
      ensures !IsOpen(old(tabs), tab.id) ==>
                && |tabs| == |old(tabs)| + 1 && tabs[..|old(tabs)|] == old(tabs)
                && var t := tabs[|old(tabs)|];
                   && t == Tab(tab.id, tab.title, tab.path, tab.fullPath, t.closable, tab.icon)
                   && (t.closable <==> tab.closable == Some(true) || (tab.closable.None? && tab.path != DASHBOARD_TAB.path))
    {
      var closable := if tab.closable.Some? then tab.closable.value else tab.id != DASHBOARD_TAB.id && tab.path != DASHBOARD_TAB.path;
      var existingIndex := FindIndex(tabs, tab.id);
      if existingIndex > -1 {
        var existing := tabs[existingIndex];
        tabs := tabs[existingIndex := existing.(title := if tab.title != "" then tab.title else existing.title, fullPath := tab.fullPath)];
        assert tabs[existingIndex].id == tab.id;
      } else {
        tabs := tabs + [Tab(tab.id, tab.title, tab.path, tab.fullPath, closable, tab.icon)];
        assert tabs[|tabs| - 1].id == tab.id;
      }
      activeTabId := tab.id;
    }

    /** The store does not check the id: it must be that of an open tab. */
    method SetActiveTabId(id: string)
      requires Valid()
      modifies `activeTabId
      ensures activeTabId == id
      ensures Valid() <==> IsOpen(tabs, id)
    {
      activeTabId := id;
    }

    method UpdateTabTitle(id: string, title: string)
      requires Valid()
      modifies `tabs
      ensures Valid() && |tabs| == |old(tabs)|
      ensures forall i :: 0 <= i < |tabs| ==>
                            tabs[i] == if old(tabs)[i].id == id then old(tabs)[i].(title := title) else old(tabs)[i]
    {
      tabs := seq(|tabs|, i requires 0 <= i < |tabs| reads this => if tabs[i].id == id then tabs[i].(title := title) else tabs[i]);
      ghost var i :| 0 <= i < |old(tabs)| && old(tabs)[i].id == activeTabId;
      assert tabs[i].id == activeTabId;
    }

    /** Closes one closable tab; the left neighbour of a closed active tab becomes active. */
    method CloseTab(id: string) returns (navigate: Navigation)
      requires Valid()
      modifies this
      ensures Valid() && FixedStay(old(tabs), tabs)
      ensures var p := FindIndex(old(tabs), id);
              if p == -1 || !old(tabs)[p].closable then tabs == old(tabs) && activeTabId == old(activeTabId) && navigate == None
              else
                && tabs == Filter(old(tabs), AllBut(id)) && !IsOpen(tabs, id)
                && 0 < p <= |tabs| && tabs[..p] == old(tabs)[..p]
                && if old(activeTabId) != id then activeTabId == old(activeTabId) && navigate == None
                   else activeTabId == tabs[p - 1].id && navigate == Some(tabs[p - 1].fullPath)
    {
      var targetIndex := FindIndex(tabs, id);
      if targetIndex == -1 {
        return None;
      }
      if !tabs[targetIndex].closable {
        return None;
      }
      var newTabs := Filter(tabs, AllBut(id));
      TargetGone(tabs, targetIndex, activeTabId, id);
      if activeTabId == id {
        var nextIndex := if targetIndex > 0 then targetIndex - 1 else 0;
        var nextTab := if nextIndex < |newTabs| then newTabs[nextIndex] else DASHBOARD_TAB;
        assert nextTab == newTabs[targetIndex - 1];
        tabs, activeTabId := newTabs, nextTab.id;
        navigate := Some(nextTab.fullPath);
      } else {
        tabs := newTabs;
        navigate := None;
      }
    }

    /** Keeps the target and what cannot be closed, and activates the target. */
    method CloseOthers(id: string) returns (navigate: Navigation)
      requires Valid()
      modifies this
      ensures Valid() && FixedStay(old(tabs), tabs)
      ensures var p := FindIndex(old(tabs), id);
              if p == -1 then tabs == old(tabs) && activeTabId == old(activeTabId) && navigate == None
              else
                && tabs == Filter(old(tabs), FixedAnd(id)) && old(tabs)[p] in tabs && activeTabId == id
                && navigate == (if old(activeTabId) == id then None else Some(old(tabs)[p].fullPath))
    {
      var targetIndex := FindIndex(tabs, id);
      if targetIndex == -1 {
        return None;
      }
      var targetTab := tabs[targetIndex];
      KeptTarget(tabs, targetIndex, FixedAnd(id));
      tabs := Filter(tabs, FixedAnd(id));
      navigate := if activeTabId != id then Some(targetTab.fullPath) else None;
      activeTabId := id;
    }

    /** Closes what can be closed to the right of the target, which becomes active when the
        active tab is among them. */
    method CloseRight(id: string) returns (navigate: Navigation)
      requires Valid()
      modifies this
      ensures Valid() && FixedStay(old(tabs), tabs)
      ensures var p := FindIndex(old(tabs), id);
              if p == -1 then tabs == old(tabs) && activeTabId == old(activeTabId) && navigate == None
              else
                && p < |tabs| && tabs[..p + 1] == old(tabs)[..p + 1] && tabs == Filter(old(tabs), FixedRightOf(p))
                && activeTabId == (if FindIndex(tabs, old(activeTabId)) != -1 then old(activeTabId) else id)
                && navigate == (if FindIndex(tabs, old(activeTabId)) != -1 then None else Some(old(tabs)[p].fullPath))
    {
      var targetIndex := FindIndex(tabs, id);
      if targetIndex == -1 {
        return None;
      }
      var targetTab := tabs[targetIndex];
      RightGone(tabs, targetIndex, id);
      tabs := Filter(tabs, FixedRightOf(targetIndex));
      OpenIsFound(tabs, activeTabId);
      if FindIndex(tabs, activeTabId) == -1 {
        navigate := Some(targetTab.fullPath);
        activeTabId := id;
      } else {
        navigate := None;
      }
    }

    /** Leaves what cannot be closed and goes to the dashboard. */
    method CloseAll() returns (navigate: Navigation)
      requires Valid()
      modifies this
      ensures Valid() && FixedStay(old(tabs), tabs) && tabs == Filter(old(tabs), FixedRightOf(-1))
      ensures activeTabId == DASHBOARD_TAB.id && navigate == Some(DASHBOARD_TAB.fullPath)
    {
      ghost var before := tabs;
      var keep := FixedRightOf(-1);
      var unclosableTabs := Filter(tabs, keep);
      ghost var at := FilterRetains(before, keep);
      RetainedStayGood(before, unclosableTabs, keep);
      tabs := if |unclosableTabs| > 0 then unclosableTabs else [DASHBOARD_TAB];
      activeTabId := DASHBOARD_TAB.id;
      assert tabs[0].id == activeTabId;
      navigate := Some(DASHBOARD_TAB.fullPath);
    }
  }

  /** A closing action that keeps what cannot be closed and the tab at a position. */
  lemma {:induction false} KeptTarget(tabs: seq<Tab>, target: nat, keep: (Tab, nat) -> bool)
    requires GoodTabs(tabs) && target < |tabs| && keep(tabs[target], target)
    requires forall i: nat :: i < |tabs| && !tabs[i].closable ==> keep(tabs[i], i)
    ensures GoodTabs(Filter(tabs, keep)) && FixedStay(tabs, Filter(tabs, keep))
    ensures tabs[target] in Filter(tabs, keep) && IsOpen(Filter(tabs, keep), tabs[target].id)
  {
    var at := FilterRetains(tabs, keep);
    RetainedStayGood(tabs, Filter(tabs, keep), keep);
    RetainedIsOpen(tabs, Filter(tabs, keep), keep, target);
  }

  lemma {:induction false} OpenIsFound(tabs: seq<Tab>, id: string)
    ensures IsOpen(tabs, id) <==> FindIndex(tabs, id) != -1
  {
  }

  /** Closing to the right of a tab keeps it, everything left of it and what cannot be closed. */
  lemma {:induction false} RightGone(tabs: seq<Tab>, target: nat, id: string)
    requires GoodTabs(tabs) && target < |tabs| && tabs[target].id == id
    ensures var after := Filter(tabs, FixedRightOf(target));
            && GoodTabs(after) && FixedStay(tabs, after) && IsOpen(after, id)
            && target < |after| && after[..target + 1] == tabs[..target + 1]
  {
    KeptTarget(tabs, target, FixedRightOf(target));
    PrefixKept(tabs, FixedRightOf(target), target + 1);
  }

  lemma {:induction false} CloseKeepsFixed(tabs: seq<Tab>, target: nat, id: string)
    requires GoodTabs(tabs) && target < |tabs| && tabs[target].closable && tabs[target].id == id
    ensures forall i: nat :: i < |tabs| && !tabs[i].closable ==> AllBut(id)(tabs[i], i)
    ensures forall i: nat :: i < target ==> AllBut(id)(tabs[i], i)
  {
    assert forall i: nat :: i < |tabs| && i != target ==> tabs[i].id != id;
  }

  /** Any other tab is still open. */
  lemma {:induction false} OtherStaysOpen(tabs: seq<Tab>, other: string, id: string)
    requires IsOpen(tabs, other) && other != id && Retains(tabs, Filter(tabs, AllBut(id)), AllBut(id))
    ensures IsOpen(Filter(tabs, AllBut(id)), other)
  {
    var i: nat :| i < |tabs| && tabs[i].id == other;
    RetainedIsOpen(tabs, Filter(tabs, AllBut(id)), AllBut(id), i);
  }

  lemma {:induction false} ClosedIsGood(tabs: seq<Tab>, target: nat, id: string)
    requires GoodTabs(tabs) && target < |tabs| && tabs[target].closable && tabs[target].id == id
    ensures var after := Filter(tabs, AllBut(id));
            Retains(tabs, after, AllBut(id)) && GoodTabs(after) && FixedStay(tabs, after) && !IsOpen(after, id)
  {
    var at := FilterRetains(tabs, AllBut(id));
    CloseKeepsFixed(tabs, target, id);
    RetainedStayGood(tabs, Filter(tabs, AllBut(id)), AllBut(id));
    RetainedIsOpen(tabs, Filter(tabs, AllBut(id)), AllBut(id), target);
  }

  /** Closing the tab at a position leaves a well-formed list in which the tabs left of it stand
      where they stood, and every other tab is still open. */
  lemma {:induction false} TargetGone(tabs: seq<Tab>, target: nat, other: string, id: string)
    requires GoodTabs(tabs) && target < |tabs| && tabs[target].closable && IsOpen(tabs, other) && tabs[target].id == id
    ensures var after := Filter(tabs, AllBut(id));
            && GoodTabs(after) && FixedStay(tabs, after) && !IsOpen(after, id)
            && 0 < target <= |after| && after[..target] == tabs[..target] && IsOpen(after, after[target - 1].id)
            && (other != id ==> IsOpen(after, other))
  {
    ClosedIsGood(tabs, target, id);
    CloseKeepsFixed(tabs, target, id);
    PrefixKept(tabs, AllBut(id), target);
    if other != id {
      OtherStaysOpen(tabs, other, id);
    }
  }

  // ---------------------------------------------------------------- which tabs each action keeps

  lemma {:induction false} FilterHolds(tabs: seq<Tab>, keep: (Tab, nat) -> bool, t: Tab)
    ensures t in Filter(tabs, keep) <==> exists i: nat :: i < |tabs| && tabs[i] == t && keep(t, i)
    decreases |tabs|
  {
    if tabs != [] {
      var n := |tabs| - 1;
      FilterHolds(tabs[..n], keep, t);
      assert forall i: nat :: i < n ==> tabs[..n][i] == tabs[i];
    }
  }

  /** Closing one tab leaves all but those of its id; closing the others leaves it and the tabs that
      cannot be closed; closing all leaves those. */
  lemma {:induction false} ClosingKeeps(tabs: seq<Tab>, id: string, t: Tab)
    ensures t in Filter(tabs, AllBut(id)) <==> t in tabs && t.id != id
    ensures t in Filter(tabs, FixedAnd(id)) <==> t in tabs && (t.id == id || !t.closable)
    ensures t in Filter(tabs, FixedRightOf(-1)) <==> t in tabs && !t.closable
  {
    FilterHolds(tabs, AllBut(id), t);
    FilterHolds(tabs, FixedAnd(id), t);
    FilterHolds(tabs, FixedRightOf(-1), t);
    assert t in tabs ==> exists i: nat :: i < |tabs| && tabs[i] == t;
  }

  /** Closing to the right of a position leaves the tabs up to it and those that cannot be closed. */
  lemma {:induction false} ClosingRightKeeps(tabs: seq<Tab>, p: int, i: nat)
    requires UniqueIds(tabs) && i < |tabs|
    ensures tabs[i] in Filter(tabs, FixedRightOf(p)) <==> i <= p || !tabs[i].closable
  {
    FilterHolds(tabs, FixedRightOf(p), tabs[i]);
  }
}
