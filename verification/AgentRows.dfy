/** The agent rows a `WatchAgents` stream mirrors: the wire rows and messages, what a
    client makes of them, the status fast path, and the whole-row diff `reconcile`. */
module AgentRows {
  import opened Prelude

  type Pane = nat

  datatype AgentStatus = Idle | Working | Blocked | Done | Unknown

  datatype AgentMsg = AgentMsg(
    pane: Pane, tab: nat, space: string, spaceName: string, tabName: string,
    kind: string, name: string, displayKind: string, status: AgentStatus,
    title: string, summary: string, cwd: string, focused: bool,
    changeSeq: nat, completionSeq: nat, hasCompletionSeq: bool)

  /** Rows keyed by pane. */
  type Rows = map<Pane, AgentMsg>

  /** One message of the stream. */
  datatype AgentEvent = Snapshot(rows: seq<AgentMsg>) | Changed(row: AgentMsg) | Removed(pane: Pane)

  datatype StatusEvent = StatusEvent(
    pane: Pane, workspace: string, status: AgentStatus, title: Option<string>,
    kind: Option<string>, name: Option<string>, tab: Option<nat>)

  ghost predicate WellKeyed(rows: Rows) {
    forall p :: p in rows ==> rows[p].pane == p
  }

  ghost predicate DistinctPanes(list: seq<AgentMsg>) {
    forall i, j :: 0 <= i < j < |list| ==> list[i].pane != list[j].pane
  }

  /** The rows held after a list was sent: the last row of a pane wins. */
  function Hold(list: seq<AgentMsg>): Rows {
    if list == [] then map[] else Hold(DropLast(list))[Last(list).pane := Last(list)]
  }

  // ----- what a client does with the stream ------------------------------------------

  function Apply(rows: Rows, ev: AgentEvent): Rows {
    match ev
    case Snapshot(list) => Hold(list)
    case Changed(row) => rows[row.pane := row]
    case Removed(p) => rows - {p}
  }

  /** A client that starts from `rows` and reads `evs` in order. */
  function Replay(rows: Rows, evs: seq<AgentEvent>): Rows {
    if evs == [] then rows else Apply(Replay(rows, DropLast(evs)), Last(evs))
  }

  lemma {:induction false} ReplayConcat(rows: Rows, a: seq<AgentEvent>, b: seq<AgentEvent>)
    ensures Replay(rows, a + b) == Replay(Replay(rows, a), b)
    decreases |b|
  {
    if b == [] {
      assert a + b == a;
    } else {
      assert DropLast(a + b) == a + DropLast(b);
      ReplayConcat(rows, a, DropLast(b));
    }
  }

  lemma {:induction false} ReplayOne(rows: Rows, ev: AgentEvent)
    ensures Replay(rows, [ev]) == Apply(rows, ev)
  {
    assert DropLast([ev]) == [];
  }

  // ----- the status fast path --------------------------------------------------------

  /** `apply_status`: what a held row becomes at once, if the event identifies that very row. */
  function ApplyStatus(held: Rows, ev: StatusEvent): (r: Option<AgentMsg>)
    // applied exactly when kind, tab and space are carried and agree with the held row
    ensures r.Some? <==> ev.pane in held && ev.kind == Some(held[ev.pane].kind)
                         && ev.tab == Some(held[ev.pane].tab) && ev.workspace == held[ev.pane].space
    ensures r.Some? ==> r.value.status == ev.status
    // title and name follow the event when it has them and stay otherwise
    ensures r.Some? && ev.title.Some? ==> r.value.title == ev.title.value
    ensures r.Some? && ev.title.None? ==> r.value.title == held[ev.pane].title
    ensures r.Some? && ev.name.Some? ==> r.value.name == ev.name.value
    ensures r.Some? && ev.name.None? ==> r.value.name == held[ev.pane].name
    // only status, title and name can move: counters, summary, focus and cwd are kept
    ensures r.Some? ==> var row := held[ev.pane];
      r.value.(status := row.status, title := row.title, name := row.name) == row
  {
    if ev.pane !in held || ev.kind.None? || ev.tab.None? then None else
    var row := held[ev.pane];
    if ev.kind.value != row.kind || ev.tab.value != row.tab || ev.workspace != row.space then None else
    Some(row.(status := ev.status,
              title := if ev.title.Some? then ev.title.value else row.title,
              name := if ev.name.Some? then ev.name.value else row.name))
  }

  // ----- reconcile -------------------------------------------------------------------

  /** The rows of `list` whose pane is not in `skip`, in order. */
  function Without(list: seq<AgentMsg>, skip: set<Pane>): seq<AgentMsg> {
    if list == [] then [] else
    var front := Without(DropLast(list), skip);
    if Last(list).pane in skip then front else front + [Last(list)]
  }

  /** A `Changed` per row of `list` that differs from the held one. */
  function Changes(held: Rows, list: seq<AgentMsg>): seq<AgentEvent> {
    if list == [] then [] else
    var front := Changes(held, DropLast(list));
    if Get(held, Last(list).pane) == Some(Last(list)) then front else front + [Changed(Last(list))]
  }

  function Removals(panes: seq<Pane>): seq<AgentEvent> {
    seq(|panes|, i requires 0 <= i < |panes| => Removed(panes[i]))
  }

  /** Held panes, not deferred, that the fresh list no longer carries. */
  function Gone(held: Rows, list: seq<AgentMsg>, defer: set<Pane>): set<Pane> {
    set p | p in held && p !in defer && p !in Hold(Without(list, defer))
  }

  ghost predicate Ascending(s: seq<Pane>) {
    forall i, j :: 0 <= i < j < |s| ==> s[i] < s[j]
  }

  predicate IsLeast(s: set<Pane>, m: Pane) {
    m in s && forall x :: x in s ==> m <= x
  }

  lemma {:induction false} HasLeast(s: set<Pane>)
    requires s != {}
    ensures exists m :: IsLeast(s, m)
    decreases s
  {
    var y :| y in s;
    if s == {y} {
      assert IsLeast(s, y);
    } else {
      HasLeast(s - {y});
      var m :| IsLeast(s - {y}, m);
      forall x | x in s ensures x == y || m <= x {
        assert x != y ==> x in s - {y};
      }
      assert IsLeast(s, if m <= y then m else y);
    }
  }

  /** The set in ascending order. */
  ghost function Sorted(s: set<Pane>): (r: seq<Pane>)
    ensures Ascending(r)
    ensures forall p :: p in r <==> p in s
    decreases s
  {
    if s == {} then [] else
    HasLeast(s);
    var m :| IsLeast(s, m);
    [m] + Sorted(s - {m})
  }

  /** What `reconcile` holds afterwards. */
  function NextRows(held: Rows, list: seq<AgentMsg>, defer: set<Pane>): Rows {
    Hold(Without(list, defer)) + map p | p in defer && p in held :: held[p]
  }

  /** What `reconcile` sends. */
  ghost function Deltas(held: Rows, list: seq<AgentMsg>, defer: set<Pane>): seq<AgentEvent> {
    Changes(held, Without(list, defer)) + Removals(Sorted(Gone(held, list, defer)))
  }

  lemma {:induction false} LeastFirst(s: set<Pane>, m: Pane)
    requires IsLeast(s, m)
    ensures Sorted(s) == [m] + Sorted(s - {m})
  {
    HasLeast(s);
    var k :| IsLeast(s, k) && Sorted(s) == [k] + Sorted(s - {k});
    assert k == m;
  }

  /** `collect` then `sort_unstable`: repeatedly take the least remaining pane. */
  method SortPanes(s: set<Pane>) returns (r: seq<Pane>)
    ensures r == Sorted(s)
  {
    r := [];
    var rest := s;
    while rest != {}
      invariant r + Sorted(rest) == Sorted(s)
      decreases rest
    {
      HasLeast(rest);
      var m :| m in rest && IsLeast(rest, m);
      LeastFirst(rest, m);
      Regroup(r, [m], Sorted(rest - {m}));
      r := r + [m];
      rest := rest - {m};
    }
  }

  /** `reconcile`: walk the fresh list once, then report departures, then carry the
      deferred rows over. */
  method Reconcile(held: Rows, list: seq<AgentMsg>, defer: set<Pane>) returns (next: Rows, out: seq<AgentEvent>)
    ensures next == NextRows(held, list, defer)
    ensures out == Deltas(held, list, defer)
  {
    next, out := map[], [];
    for i := 0 to |list|
      invariant next == Hold(Without(list[..i], defer))
      invariant out == Changes(held, Without(list[..i], defer))
    {
      var a := list[i];
      PassStep(held, list, defer, i);
      if a.pane !in defer {
        if Get(held, a.pane) != Some(a) {
          out := out + [Changed(a)];
        }
        next := next[a.pane := a];
      }
    }
    assert list[..|list|] == list;
    var gone := SortPanes(set p | p in held && p !in defer && p !in next);
    assert (set p | p in held && p !in defer && p !in next) == Gone(held, list, defer);
    out := out + Removals(gone);
    next := next + map p | p in defer && p in held :: held[p];
  }

  lemma {:induction false} WithoutSnoc(list: seq<AgentMsg>, a: AgentMsg, skip: set<Pane>)
    ensures Without(list + [a], skip) == if a.pane in skip then Without(list, skip) else Without(list, skip) + [a]
  {
    assert DropLast(list + [a]) == list;
  }

  /** One turn of the pass over the fresh list. */
  lemma {:induction false} PassStep(held: Rows, list: seq<AgentMsg>, defer: set<Pane>, i: nat)
    requires i < |list|
    ensures var a, before, after := list[i], Without(list[..i], defer), Without(list[..i + 1], defer);
      if a.pane in defer then after == before else
      && Hold(after) == Hold(before)[a.pane := a]
      && Changes(held, after) == Changes(held, before) + if Get(held, a.pane) == Some(a) then [] else [Changed(a)]
  {
    var a, before := list[i], Without(list[..i], defer);
    assert list[..i + 1] == list[..i] + [a];
    WithoutSnoc(list[..i], a, defer);
    assert DropLast(before + [a]) == before;
  }

  // ----- diff exactness --------------------------------------------------------------

  /** The last row `list` carries for `p`. */
  function LastRow(list: seq<AgentMsg>, p: Pane): Option<AgentMsg> {
    if list == [] then None
    else if Last(list).pane == p then Some(Last(list))
    else LastRow(DropLast(list), p)
  }

  /** The last row `list` carries for `p` that is not the held one. */
  function LastDiffering(held: Rows, list: seq<AgentMsg>, p: Pane): Option<AgentMsg> {
    if list == [] then None
    else if Last(list).pane == p && Get(held, p) != Some(Last(list)) then Some(Last(list))
    else LastDiffering(held, DropLast(list), p)
  }

  lemma {:induction false} HoldAt(list: seq<AgentMsg>, p: Pane)
    ensures Get(Hold(list), p) == LastRow(list, p)
  {
    if list != [] { HoldAt(DropLast(list), p); }
  }

  lemma {:induction false} WithoutAt(held: Rows, list: seq<AgentMsg>, skip: set<Pane>, p: Pane)
    ensures LastRow(Without(list, skip), p) == if p in skip then None else LastRow(list, p)
    ensures p !in skip ==> LastDiffering(held, Without(list, skip), p) == LastDiffering(held, list, p)
    ensures p in skip ==> LastDiffering(held, Without(list, skip), p) == None
  {
    if list != [] {
      WithoutAt(held, DropLast(list), skip, p);
      var front := Without(DropLast(list), skip);
      assert DropLast(front + [Last(list)]) == front;
    }
  }

  /** `Get(Hold(Without(list, skip)), p)`: the listed row, unless skipped. */
  lemma {:induction false} HoldWithoutAt(list: seq<AgentMsg>, skip: set<Pane>, p: Pane)
    ensures Get(Hold(Without(list, skip)), p) == if p in skip then None else Get(Hold(list), p)
  {
    HoldAt(Without(list, skip), p);
    HoldAt(list, p);
    WithoutAt(map[], list, skip, p);
  }

  lemma {:induction false} ChangesAt(held: Rows, list: seq<AgentMsg>, p: Pane)
    ensures var d := LastDiffering(held, list, p);
      Get(Replay(held, Changes(held, list)), p) == if d.Some? then d else Get(held, p)
  {
    if list != [] {
      ChangesAt(held, DropLast(list), p);
      if Get(held, Last(list).pane) != Some(Last(list)) {
        assert DropLast(Changes(held, list)) == Changes(held, DropLast(list));
      }
    }
  }

  lemma {:induction false} RemovalsAt(rows: Rows, panes: seq<Pane>, p: Pane)
    ensures Get(Replay(rows, Removals(panes)), p) == if p in panes then None else Get(rows, p)
  {
    if panes != [] {
      RemovalsAt(rows, DropLast(panes), p);
      assert DropLast(Removals(panes)) == Removals(DropLast(panes));
      assert panes == DropLast(panes) + [Last(panes)];
    } else {
      assert Removals(panes) == [];
    }
  }

  lemma {:induction false} LastRowFacts(held: Rows, list: seq<AgentMsg>, p: Pane)
    ensures var l, d := LastRow(list, p), LastDiffering(held, list, p);
      && (l.None? ==> d.None?)
      && (d.Some? ==> d != Get(held, p))
      && (l.Some? && l != Get(held, p) ==> d == l)
  {
    if list != [] { LastRowFacts(held, DropLast(list), p); }
  }

  /** The replayed client, pane by pane. */
  lemma {:induction false} DeltasAt(held: Rows, list: seq<AgentMsg>, defer: set<Pane>, p: Pane)
    ensures Get(NextRows(held, list, defer), p) == if p in defer then Get(held, p) else LastRow(list, p)
    ensures var d := LastDiffering(held, list, p);
      Get(Replay(held, Deltas(held, list, defer)), p) ==
        if p in defer then Get(held, p)
        else if LastRow(list, p).None? then None
        else if d.Some? then d else Get(held, p)
  {
    var w := Without(list, defer);
    WithoutAt(held, list, defer, p);
    HoldAt(w, p);
    HoldAt(list, p);
    ChangesAt(held, w, p);
    LastRowFacts(held, list, p);
    var mid := Replay(held, Changes(held, w));
    RemovalsAt(mid, Sorted(Gone(held, list, defer)), p);
    ReplayConcat(held, Changes(held, w), Removals(Sorted(Gone(held, list, defer))));
  }

  /** A pane echoes when its last listed row is the held one although an earlier listed
      row of the same pane is not. Only a list with duplicate panes can echo. */
  predicate Echoes(held: Rows, list: seq<AgentMsg>, defer: set<Pane>, p: Pane) {
    && p !in defer && p in held
    && LastRow(list, p) == Some(held[p])
    && LastDiffering(held, list, p).Some?
  }

  /** The deltas take a client from the old rows to the new ones exactly when no pane echoes. */
  lemma {:induction false} DiffExactIff(held: Rows, list: seq<AgentMsg>, defer: set<Pane>)
    ensures Replay(held, Deltas(held, list, defer)) == NextRows(held, list, defer)
      <==> forall p: Pane :: !Echoes(held, list, defer, p)
  {
    var a, b := Replay(held, Deltas(held, list, defer)), NextRows(held, list, defer);
    forall p: Pane ensures Get(a, p) == Get(b, p) <==> !Echoes(held, list, defer, p) {
      DeltasAt(held, list, defer, p);
      LastRowFacts(held, list, p);
    }
    if forall p: Pane :: !Echoes(held, list, defer, p) {
      MapExt(a, b);
    }
  }

  lemma {:induction false} DistinctNeverEchoes(held: Rows, list: seq<AgentMsg>, p: Pane)
    requires DistinctPanes(list)
    ensures LastRow(list, p).Some? ==> LastRow(list, p).value in list && LastRow(list, p).value.pane == p
    ensures LastDiffering(held, list, p).Some? ==> LastRow(list, p) == LastDiffering(held, list, p)
    ensures forall i :: 0 <= i < |list| && list[i].pane == p ==> LastRow(list, p) == Some(list[i])
  {
    if list != [] {
      DistinctNeverEchoes(held, DropLast(list), p);
      LastRowFacts(held, DropLast(list), p);
    }
  }

  /** Diff exactness for a list with distinct panes: the client lands on the new rows,
      which are the fresh list outside `defer` and the held rows inside it. */
  lemma {:induction false} DiffExact(held: Rows, list: seq<AgentMsg>, defer: set<Pane>)
    requires DistinctPanes(list)
    ensures Replay(held, Deltas(held, list, defer)) == NextRows(held, list, defer)
    ensures forall p: Pane ::
              Get(NextRows(held, list, defer), p) == if p in defer then Get(held, p) else Get(Hold(list), p)
  {
    forall p: Pane
      ensures !Echoes(held, list, defer, p)
      ensures Get(NextRows(held, list, defer), p) == if p in defer then Get(held, p) else Get(Hold(list), p)
    {
      DistinctNeverEchoes(held, list, p);
      LastRowFacts(held, list, p);
      DeltasAt(held, list, defer, p);
      HoldAt(list, p);
    }
    DiffExactIff(held, list, defer);
  }

  /** With a duplicated pane the client can be left on a row the stream does not hold. */
  lemma {:induction false} DuplicatePanesCanEcho(a: AgentMsg, b: AgentMsg)
    requires a.pane == b.pane && a != b
    ensures var held := map[a.pane := a];
      Replay(held, Deltas(held, [b, a], {})) != NextRows(held, [b, a], {})
  {
    var held := map[a.pane := a];
    assert DropLast([b, a]) == [b] && DropLast([b]) == [];
    assert LastDiffering(held, [b], a.pane) == Some(b);
    assert Echoes(held, [b, a], {}, a.pane);
    DiffExactIff(held, [b, a], {});
  }

  function PaneOf(ev: AgentEvent): Pane
    requires !ev.Snapshot?
  {
    if ev.Changed? then ev.row.pane else ev.pane
  }

  lemma {:induction false} WithoutShape(list: seq<AgentMsg>, skip: set<Pane>)
    ensures forall a :: a in Without(list, skip) ==> a in list && a.pane !in skip
    ensures DistinctPanes(list) ==> DistinctPanes(Without(list, skip))
  {
    if list != [] {
      WithoutShape(DropLast(list), skip);
      assert forall a :: a in list <==> a in DropLast(list) || a == Last(list);
      var front := Without(DropLast(list), skip);
      if DistinctPanes(list) {
        forall i | 0 <= i < |front| ensures front[i].pane != Last(list).pane {
          assert front[i] in DropLast(list);
        }
      }
    }
  }

  /** A change the diff reports for this list. */
  ghost predicate IsChange(held: Rows, list: seq<AgentMsg>, ev: AgentEvent) {
    ev.Changed? && ev.row in list && Get(held, ev.row.pane) != Some(ev.row)
  }

  ghost predicate DistinctMentions(out: seq<AgentEvent>) {
    && (forall i :: 0 <= i < |out| ==> !out[i].Snapshot?)
    && (forall i, j :: 0 <= i < j < |out| ==> PaneOf(out[i]) != PaneOf(out[j]))
  }

  lemma {:induction false} ChangesShape(held: Rows, list: seq<AgentMsg>)
    requires DistinctPanes(list)
    ensures forall ev :: ev in Changes(held, list) ==> IsChange(held, list, ev)
    ensures DistinctMentions(Changes(held, list))
  {
    if list != [] {
      ChangesShape(held, DropLast(list));
      assert forall a :: a in list <==> a in DropLast(list) || a == Last(list);
      forall ev | ev in Changes(held, DropLast(list))
        ensures IsChange(held, list, ev) && PaneOf(ev) != Last(list).pane
      {
        assert IsChange(held, DropLast(list), ev);
      }
    }
  }

  /** A message about a pane, outside `defer`, whose listed row differs from the held one. */
  ghost predicate Warranted(held: Rows, list: seq<AgentMsg>, defer: set<Pane>, ev: AgentEvent) {
    && !ev.Snapshot?
    && PaneOf(ev) !in defer
    && Get(held, PaneOf(ev)) != Get(Hold(list), PaneOf(ev))
    && Get(Hold(list), PaneOf(ev)) == if ev.Changed? then Some(ev.row) else None
  }

  /** Each pane is mentioned at most once and only when its row differs; changes first,
      then removals in ascending order. */
  lemma {:induction false} DeltasShape(held: Rows, list: seq<AgentMsg>, defer: set<Pane>)
    requires DistinctPanes(list)
    ensures forall ev :: ev in Deltas(held, list, defer) ==> Warranted(held, list, defer, ev)
    ensures DistinctMentions(Deltas(held, list, defer))
    ensures var out := Deltas(held, list, defer);
      forall i, j :: 0 <= i < j < |out| && out[i].Removed? ==> out[j].Removed? && out[i].pane < out[j].pane
  {
    var w := Without(list, defer);
    var c, g := Changes(held, w), Sorted(Gone(held, list, defer));
    WithoutShape(list, defer);
    ChangesShape(held, w);
    forall ev | ev in c ensures Warranted(held, list, defer, ev) {
      assert IsChange(held, w, ev);
      HoldAt(list, ev.row.pane);
      DistinctNeverEchoes(held, list, ev.row.pane);
    }
    forall ev | ev in Removals(g) ensures Warranted(held, list, defer, ev) {
      assert ev.pane in g;
      HoldWithoutAt(list, defer, ev.pane);
    }
    forall i, j | 0 <= i < |c| && 0 <= j < |g| ensures PaneOf(c[i]) != g[j] {
      assert c[i] in c && Removals(g)[j] in Removals(g);
    }
    forall i | 0 <= i < |c| ensures c[i].Changed? {
      assert c[i] in c;
    }
  }

  /** Any two changes come in the order of their rows in `list`. */
  ghost predicate InListOrder(list: seq<AgentMsg>, out: seq<AgentEvent>) {
    forall i, j, a, b ::
      (0 <= i < j < |out| && out[i].Changed? && out[j].Changed? && 0 <= a < |list| && 0 <= b < |list|
       && list[a] == out[i].row && list[b] == out[j].row) ==> a < b
  }

  lemma {:induction false} OrderSnoc(list: seq<AgentMsg>, out: seq<AgentEvent>, x: AgentMsg)
    requires InListOrder(list, out) && DistinctPanes(list + [x])
    requires forall ev :: ev in out && ev.Changed? ==> ev.row in list
    ensures InListOrder(list + [x], out) && InListOrder(list + [x], out + [Changed(x)])
  {
    var longer := list + [x];
    forall i, a | 0 <= i < |out| && out[i].Changed? && 0 <= a < |longer| && longer[a] == out[i].row
      ensures a < |list|
    {
      assert out[i] in out;
      var b :| 0 <= b < |list| && list[b] == out[i].row;
      assert longer[b] == list[b];
    }
    var more := out + [Changed(x)];
    forall i, j, a, b | 0 <= i < j < |more| && more[i].Changed? && more[j].Changed?
                        && 0 <= a < |longer| && 0 <= b < |longer|
                        && longer[a] == more[i].row && longer[b] == more[j].row
      ensures a < b
    {
      assert more[i] == out[i] && a < |list|;
      if j == |out| {
        assert longer[b].pane == longer[|list|].pane;
      } else {
        assert more[j] == out[j] && b < |list|;
        assert list[a] == out[i].row && list[b] == out[j].row;
      }
    }
  }

  lemma {:induction false} ChangesInOrder(held: Rows, list: seq<AgentMsg>, defer: set<Pane>)
    requires DistinctPanes(list)
    ensures InListOrder(list, Changes(held, Without(list, defer)))
  {
    if list != [] {
      var front, x := DropLast(list), Last(list);
      ChangesInOrder(held, front, defer);
      WithoutShape(front, defer);
      ChangesShape(held, Without(front, defer));
      assert list == front + [x];
      forall ev | ev in Changes(held, Without(front, defer)) ensures ev.Changed? && ev.row in front {
        assert IsChange(held, Without(front, defer), ev);
      }
      OrderSnoc(front, Changes(held, Without(front, defer)), x);
      assert DropLast(Without(front, defer) + [x]) == Without(front, defer);
    }
  }

  /** The changed rows are sent in the fresh list's order. */
  lemma {:induction false} DeltasInOrder(held: Rows, list: seq<AgentMsg>, defer: set<Pane>)
    requires DistinctPanes(list)
    ensures InListOrder(list, Deltas(held, list, defer))
  {
    ChangesInOrder(held, list, defer);
  }
}
