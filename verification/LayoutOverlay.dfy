/** A connection's own tab and focus laid over the shared layout snapshot. */
module LayoutOverlay {
  import opened Prelude

  datatype PaneRef = PaneRef(id: nat, isPlugin: bool)

  /** The pane fields the overlay copies through. */
  datatype PaneInfo = PaneInfo(
    title: string, isFloating: bool, exited: bool, command: string, cwd: string,
    x: nat, y: nat, rows: nat, cols: nat, isFullscreen: bool, agent: Option<string>)

  datatype Pane = Pane(ref: PaneRef, isFocused: bool, info: PaneInfo)

  /** The tab fields the overlay copies through. */
  datatype TabInfo = TabInfo(
    position: nat, name: string, hasBell: bool, panesToHide: nat,
    fullscreenActive: bool, floatingVisible: bool)

  datatype Tab = Tab(id: nat, active: bool, info: TabInfo, panes: seq<Pane>)

  /** A tab on the wire; its id is cut to 32 bits. */
  datatype TabMsg = TabMsg(id: nat, active: bool, info: TabInfo, panes: seq<Pane>)

  datatype ViewState = ViewState(activeTab: Option<nat>, focusedPane: Option<PaneRef>)

  // ----- the view state of a fresh attach --------------------------------------------

  function FirstActive(tabs: seq<Tab>): (r: Option<nat>)
    ensures r.Some? ==> r.value < |tabs| && tabs[r.value].active
    ensures forall i :: 0 <= i < (if r.Some? then r.value else |tabs|) ==> !tabs[i].active
  {
    if tabs == [] then None
    else if tabs[0].active then Some(0)
    else match FirstActive(tabs[1..]) case None => None case Some(i) => Some(i + 1)
  }

  /** Pane `i` is the first focused one. */
  ghost predicate FocusedFirst(panes: seq<Pane>, i: nat) {
    i < |panes| && panes[i].isFocused && forall j :: 0 <= j < i ==> !panes[j].isFocused
  }

  function FirstFocused(panes: seq<Pane>): (r: Option<PaneRef>)
    ensures r.None? <==> forall p :: p in panes ==> !p.isFocused
    ensures r.Some? ==> exists i: nat :: FocusedFirst(panes, i) && panes[i].ref == r.value
  {
    if panes == [] then None
    else if panes[0].isFocused then assert FocusedFirst(panes, 0); Some(panes[0].ref)
    else
      var r := FirstFocused(panes[1..]);
      assert forall i: nat :: FocusedFirst(panes[1..], i) ==> FocusedFirst(panes, i + 1);
      r
  }

  /** `init_relay_view_state`, from the snapshot it queried. */
  function InitView(tabs: seq<Tab>): ViewState {
    match FirstActive(tabs)
    case None => ViewState(None, None)
    case Some(a) => ViewState(Some(tabs[a].id), FirstFocused(tabs[a].panes))
  }

  // ----- the overlay -----------------------------------------------------------------

  predicate Visible(ref: PaneRef) {
    !ref.isPlugin
  }

  predicate Shows(tab: Tab, ref: PaneRef) {
    Visible(ref) && exists p :: p in tab.panes && p.ref == ref
  }

  /** Tab `i` is the first that shows `ref`. */
  ghost predicate ShowsFirst(tabs: seq<Tab>, ref: PaneRef, i: nat) {
    i < |tabs| && Shows(tabs[i], ref) && forall j :: 0 <= j < i ==> !Shows(tabs[j], ref)
  }

  function FindShowing(tabs: seq<Tab>, ref: PaneRef): (r: Option<nat>)
    ensures r.Some? ==> exists i: nat :: ShowsFirst(tabs, ref, i) && tabs[i].id == r.value
    ensures r.None? ==> forall t :: t in tabs ==> !Shows(t, ref)
  {
    if tabs == [] then None
    else if Shows(tabs[0], ref) then assert ShowsFirst(tabs, ref, 0); Some(tabs[0].id)
    else
      var r := FindShowing(tabs[1..], ref);
      assert forall i: nat :: ShowsFirst(tabs[1..], ref, i) ==> ShowsFirst(tabs, ref, i + 1);
      r
  }

  /** `resolve_effective_active_tab`. */
  function Resolve(vs: Option<ViewState>, tabs: seq<Tab>): Option<nat> {
    if vs.None? then None
    else if vs.value.activeTab.Some? then vs.value.activeTab
    else if vs.value.focusedPane.None? then None
    else FindShowing(tabs, vs.value.focusedPane.value)
  }

  /** The panes a client sees, focused as `focus` says when it says anything. */
  function BuildPanes(panes: seq<Pane>, focus: Option<PaneRef>): seq<Pane> {
    if panes == [] then [] else
    var p, rest := panes[0], BuildPanes(panes[1..], focus);
    if !Visible(p.ref) then rest else
    [if focus.Some? then p.(isFocused := p.ref == focus.value) else p] + rest
  }

  function BuildTab(tab: Tab, vs: Option<ViewState>, scope: Option<nat>): TabMsg {
    var inScope := scope == Some(tab.id);
    TabMsg(tab.id % 0x1_0000_0000, if scope.Some? then inScope else tab.active, tab.info,
           BuildPanes(tab.panes, if inScope && vs.Some? then vs.value.focusedPane else None))
  }

  /** `build_tab_msgs`. */
  function BuildTabs(tabs: seq<Tab>, vs: Option<ViewState>): seq<TabMsg> {
    var scope := Resolve(vs, tabs);
    seq(|tabs|, i requires 0 <= i < |tabs| => BuildTab(tabs[i], vs, scope))
  }

  ghost predicate DistinctTabs(tabs: seq<Tab>) {
    forall i, j :: 0 <= i < j < |tabs| ==> tabs[i].id != tabs[j].id
  }

  // ----- own-view identity -----------------------------------------------------------

  ghost predicate AtMostOneActive(tabs: seq<Tab>) {
    forall i, j :: 0 <= i < j < |tabs| ==> !(tabs[i].active && tabs[j].active)
  }

  /** Among the visible panes, focused means being `ref`. */
  ghost predicate FocusIs(panes: seq<Pane>, ref: PaneRef) {
    forall p :: p in panes && Visible(p.ref) ==> (p.isFocused <==> p.ref == ref)
  }

  ghost predicate OneFocus(panes: seq<Pane>) {
    FirstFocused(panes).Some? ==> FocusIs(panes, FirstFocused(panes).value)
  }

  lemma {:induction false} SamePanes(panes: seq<Pane>, ref: PaneRef)
    ensures BuildPanes(panes, Some(ref)) == BuildPanes(panes, None) <==> FocusIs(panes, ref)
  {
    if panes != [] {
      SamePanes(panes[1..], ref);
      var a, b := BuildPanes(panes[1..], Some(ref)), BuildPanes(panes[1..], None);
      assert forall p :: p in panes <==> p == panes[0] || p in panes[1..];
      if Visible(panes[0].ref) {
        var x := panes[0].(isFocused := panes[0].ref == ref);
        assert [x] + a == [panes[0]] + b <==> x == panes[0] && a == b by {
          assert ([x] + a)[0] == x && ([panes[0]] + b)[0] == panes[0];
          assert ([x] + a)[1..] == a && ([panes[0]] + b)[1..] == b;
        }
      }
    }
  }

  /** What laying the connection's own fresh view over one tab leaves unchanged. */
  lemma {:induction false} OwnViewTab(tabs: seq<Tab>, i: nat)
    requires DistinctTabs(tabs) && i < |tabs|
    ensures var a := FirstActive(tabs);
      BuildTabs(tabs, Some(InitView(tabs)))[i] == BuildTabs(tabs, None)[i]
      <==> (a.Some? ==> (tabs[i].active <==> i == a.value) && (i == a.value ==> OneFocus(tabs[i].panes)))
  {
    var a := FirstActive(tabs);
    if a.Some? {
      assert tabs[i].id == tabs[a.value].id <==> i == a.value;
      if i == a.value && FirstFocused(tabs[i].panes).Some? {
        SamePanes(tabs[i].panes, FirstFocused(tabs[i].panes).value);
      }
    }
  }

  /** Overlaying the view a fresh attach derives from a snapshot shows that snapshot
      unchanged exactly when at most one tab is active and, in it, the visible panes marked
      focused are those the tracked pane names. A snapshot without an active tab or an active
      tab without focus qualifies; one whose tracked pane is a plugin's does when no visible
      pane is focused. */
  lemma {:induction false} OwnViewIdentity(tabs: seq<Tab>)
    requires DistinctTabs(tabs)
    ensures var a := FirstActive(tabs);
      BuildTabs(tabs, Some(InitView(tabs))) == BuildTabs(tabs, None)
      <==> AtMostOneActive(tabs) && (a.Some? ==> OneFocus(tabs[a.value].panes))
  {
    var x, y, a := BuildTabs(tabs, Some(InitView(tabs))), BuildTabs(tabs, None), FirstActive(tabs);
    forall i | 0 <= i < |tabs|
      ensures x[i] == y[i] <==>
        (a.Some? ==> (tabs[i].active <==> i == a.value) && (i == a.value ==> OneFocus(tabs[i].panes)))
    {
      OwnViewTab(tabs, i);
    }
    if x == y {
      assert a.Some? ==> x[a.value] == y[a.value];
      forall i, j | 0 <= i < j < |tabs| ensures !(tabs[i].active && tabs[j].active) {
        assert x[i] == y[i] && x[j] == y[j];
      }
    }
    if AtMostOneActive(tabs) && (a.Some? ==> OneFocus(tabs[a.value].panes)) {
      forall i | 0 <= i < |tabs| ensures x[i] == y[i] {}
    }
  }

  // ----- scoping ---------------------------------------------------------------------

  /** A pane without its focus. */
  function Unfocused(panes: seq<Pane>): seq<Pane> {
    seq(|panes|, i requires 0 <= i < |panes| => panes[i].(isFocused := false))
  }

  lemma {:induction false} PanesKept(panes: seq<Pane>, focus: Option<PaneRef>)
    ensures Unfocused(BuildPanes(panes, focus)) == Unfocused(BuildPanes(panes, None))
  {
    if panes != [] {
      PanesKept(panes[1..], focus);
      var rest, raw := BuildPanes(panes[1..], focus), BuildPanes(panes[1..], None);
      if Visible(panes[0].ref) {
        var x := BuildPanes(panes, focus)[0];
        assert Unfocused([x] + rest) == Unfocused([x]) + Unfocused(rest);
        assert Unfocused([panes[0]] + raw) == Unfocused([panes[0]]) + Unfocused(raw);
      }
    }
  }

  /** A pane as the overlay shows it. */
  ghost predicate Shown(p: Pane, focus: Option<PaneRef>) {
    Visible(p.ref) && (focus.Some? ==> (p.isFocused <==> p.ref == focus.value))
  }

  lemma {:induction false} PanesShown(panes: seq<Pane>, focus: Option<PaneRef>, ref: PaneRef)
    ensures forall p :: p in BuildPanes(panes, focus) ==> Shown(p, focus)
    ensures (Visible(ref) && exists q :: q in panes && q.ref == ref) ==>
              exists p :: p in BuildPanes(panes, focus) && p.ref == ref
  {
    if panes != [] {
      PanesShown(panes[1..], focus, ref);
      var rest, out := BuildPanes(panes[1..], focus), BuildPanes(panes, focus);
      forall p | p in out ensures Shown(p, focus) {
        assert p in rest || p == out[0];
      }
      assert forall p :: p in rest ==> p in out;
      if Visible(ref) && panes[0].ref == ref {
        assert out[0] in out && out[0].ref == ref;
      }
    }
  }

  /** Whatever the view state: only `active` and the in-scope focus can differ from the raw
      layout, panes keep their order, and no plugin pane appears. */
  lemma {:induction false} OverlayKeepsTheRest(tabs: seq<Tab>, vs: Option<ViewState>, i: nat)
    requires i < |tabs|
    ensures var out, raw := BuildTabs(tabs, vs)[i], BuildTabs(tabs, None)[i];
      && out.(active := raw.active, panes := raw.panes) == raw
      && Unfocused(out.panes) == Unfocused(raw.panes)
      && (Resolve(vs, tabs) != Some(tabs[i].id) ==> out.panes == raw.panes)
      && (forall p :: p in out.panes ==> !p.ref.isPlugin)
  {
    var focus := if Resolve(vs, tabs) == Some(tabs[i].id) && vs.Some? then vs.value.focusedPane else None;
    PanesKept(tabs[i].panes, focus);
    PanesShown(tabs[i].panes, focus, PaneRef(0, false));
  }

  /** The panes of a tab a client sees, in order. */
  ghost function OnlyVisible(panes: seq<Pane>): seq<Pane> {
    if panes == [] then [] else
    OnlyVisible(DropLast(panes)) + if Last(panes).ref.isPlugin then [] else [Last(panes)]
  }

  lemma {:induction false} BuildSnoc(panes: seq<Pane>, p: Pane)
    ensures BuildPanes(panes + [p], None) == BuildPanes(panes, None) + if Visible(p.ref) then [p] else []
  {
    if panes != [] {
      BuildSnoc(panes[1..], p);
      assert (panes + [p])[1..] == panes[1..] + [p];
    } else {
      assert panes + [p] == [p];
    }
  }

  lemma {:induction false} BuildsVisible(panes: seq<Pane>)
    ensures BuildPanes(panes, None) == OnlyVisible(panes)
  {
    if panes != [] {
      BuildsVisible(DropLast(panes));
      BuildSnoc(DropLast(panes), Last(panes));
      assert DropLast(panes) + [Last(panes)] == panes;
    }
  }

  /** Without a view state the layout is the snapshot itself: same tabs, same flags, the
      plugin panes left out and nothing else. */
  lemma {:induction false} RawIsSnapshot(tabs: seq<Tab>, i: nat)
    requires i < |tabs|
    ensures |BuildTabs(tabs, None)| == |tabs|
    ensures BuildTabs(tabs, None)[i] ==
      TabMsg(tabs[i].id % 0x1_0000_0000, tabs[i].active, tabs[i].info, OnlyVisible(tabs[i].panes))
  {
    BuildsVisible(tabs[i].panes);
  }

  /** The snapshot already shows the tab as the scope and focus ask. */
  ghost predicate AlreadyShows(tab: Tab, scope: nat, focus: Option<PaneRef>) {
    && (tab.active <==> tab.id == scope)
    && (tab.id == scope && focus.Some? ==> FocusIs(tab.panes, focus.value))
  }

  lemma {:induction false} OverlaidTab(tab: Tab, vs: ViewState, scope: nat)
    ensures BuildTab(tab, Some(vs), Some(scope)) == BuildTab(tab, None, None)
      <==> AlreadyShows(tab, scope, vs.focusedPane)
  {
    if vs.focusedPane.Some? { SamePanes(tab.panes, vs.focusedPane.value); }
  }

  /** Any view state shows the raw layout exactly when it resolves to no tab or asks for what
      the snapshot already shows. */
  lemma {:induction false} OverlayIsRawIff(tabs: seq<Tab>, vs: ViewState)
    ensures var scope := Resolve(Some(vs), tabs);
      BuildTabs(tabs, Some(vs)) == BuildTabs(tabs, None) <==>
        (scope.Some? ==> forall i :: 0 <= i < |tabs| ==> AlreadyShows(tabs[i], scope.value, vs.focusedPane))
  {
    var x, y, scope := BuildTabs(tabs, Some(vs)), BuildTabs(tabs, None), Resolve(Some(vs), tabs);
    forall i | 0 <= i < |tabs|
      ensures x[i] == y[i] <==> (scope.Some? ==> AlreadyShows(tabs[i], scope.value, vs.focusedPane))
    {
      if scope.Some? { OverlaidTab(tabs[i], vs, scope.value); }
    }
    assert x == y <==> forall i :: 0 <= i < |tabs| ==> x[i] == y[i];
  }

  /** Tab `i` holds the pane. */
  predicate Holds(tab: Tab, ref: PaneRef) {
    exists p :: p in tab.panes && p.ref == ref
  }

  /** Which tab is the scope: the tracked one; untracked, the first that holds the focused pane,
      if that is no plugin's; else none. */
  lemma {:induction false} ScopeIs(tabs: seq<Tab>, vs: ViewState)
    ensures var scope := Resolve(Some(vs), tabs);
      && (vs.activeTab.Some? ==> scope == vs.activeTab)
      && (vs == ViewState(None, None) ==> scope.None?)
      && (vs.activeTab.None? && vs.focusedPane.Some? ==>
            var ref := vs.focusedPane.value;
            && (scope.None? <==> ref.isPlugin || forall t :: t in tabs ==> !Holds(t, ref))
            && (scope.Some? ==> exists i: nat ::
                  ShowsFirst(tabs, ref, i) && tabs[i].id == scope.value && Holds(tabs[i], ref)
                  && forall j :: 0 <= j < i ==> !Holds(tabs[j], ref)))
  {
    if vs.activeTab.None? && vs.focusedPane.Some? {
      var ref := vs.focusedPane.value;
      var found := FindShowing(tabs, ref);
      assert forall t :: Shows(t, ref) <==> !ref.isPlugin && Holds(t, ref);
      if found.Some? {
        var i: nat :| ShowsFirst(tabs, ref, i) && tabs[i].id == found.value;
        assert tabs[i] in tabs;
        assert forall j :: 0 <= j < i ==> !Shows(tabs[j], ref);
      }
    }
  }

  /** The scoped tab shows the connection's own focus: with a tracked pane, exactly that pane is
      focused, whatever the snapshot says; with none, the panes are the snapshot's. */
  lemma {:induction false} ScopedFocus(tabs: seq<Tab>, vs: ViewState, i: nat)
    requires i < |tabs| && Resolve(Some(vs), tabs) == Some(tabs[i].id)
    ensures var out := BuildTabs(tabs, Some(vs))[i];
      match vs.focusedPane
      case None => out.panes == OnlyVisible(tabs[i].panes)
      case Some(ref) =>
        && (forall p :: p in out.panes ==> (p.isFocused <==> p.ref == ref))
        && (Shows(tabs[i], ref) ==> exists p :: p in out.panes && p.ref == ref && p.isFocused)
  {
    match vs.focusedPane {
      case None => BuildsVisible(tabs[i].panes);
      case Some(ref) => PanesShown(tabs[i].panes, Some(ref), ref);
    }
  }

  /** A tracked tab is the scope: it is the active one, it shows the tracked focus, and every
      other tab keeps the snapshot's. */
  lemma {:induction false} TrackedTab(tabs: seq<Tab>, t: nat, focus: Option<PaneRef>, i: nat)
    requires i < |tabs|
    ensures var out := BuildTabs(tabs, Some(ViewState(Some(t), focus)))[i];
      && (out.active <==> tabs[i].id == t)
      && (tabs[i].id != t || focus.None? ==> out.panes == OnlyVisible(tabs[i].panes))
      && (tabs[i].id == t && focus.Some? ==> forall p :: p in out.panes ==> (p.isFocused <==> p.ref == focus.value))
  {
    BuildsVisible(tabs[i].panes);
    if tabs[i].id == t { ScopedFocus(tabs, ViewState(Some(t), focus), i); }
  }

  /** A resolved scope leaves at most that one tab active. */
  lemma {:induction false} ScopeIsExclusive(tabs: seq<Tab>, vs: Option<ViewState>)
    requires DistinctTabs(tabs) && Resolve(vs, tabs).Some?
    ensures var out := BuildTabs(tabs, vs);
      && (forall i :: 0 <= i < |out| ==> (out[i].active <==> Some(tabs[i].id) == Resolve(vs, tabs)))
      && (forall i, j :: 0 <= i < j < |out| ==> !(out[i].active && out[j].active))
  {}

  /** A scope derived from the tracked pane makes exactly its tab active, with that pane the
      only focused one there. */
  lemma {:induction false} DerivedScope(tabs: seq<Tab>, ref: PaneRef) returns (k: nat)
    requires DistinctTabs(tabs)
    requires exists t :: t in tabs && Shows(t, ref)
    ensures k < |tabs| && Shows(tabs[k], ref)
    ensures var out := BuildTabs(tabs, Some(ViewState(None, Some(ref))));
      && (forall i :: 0 <= i < |out| ==> (out[i].active <==> i == k))
      && (forall p :: p in out[k].panes ==> (p.isFocused <==> p.ref == ref))
      && (exists p :: p in out[k].panes && p.isFocused)
  {
    var vs := ViewState(None, Some(ref));
    var scope := Resolve(Some(vs), tabs);
    var t :| t in tabs && Some(t.id) == scope && Shows(t, ref);
    k :| 0 <= k < |tabs| && tabs[k] == t;
    PanesShown(tabs[k].panes, Some(ref), ref);
    ScopeIsExclusive(tabs, Some(vs));
    assert BuildTabs(tabs, Some(vs))[k].panes == BuildPanes(tabs[k].panes, Some(ref));
  }
}
