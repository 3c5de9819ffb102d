/** What holds over every run of the `WatchAgents` protocol. */
module WatchRuns {
  import opened Prelude
  import opened AgentRows
  import opened WatchStates
  import opened WatchSystem
  import Spacing

  datatype Run = Run(states: seq<State>, steps: seq<Step>)

  ghost predicate StepAt(r: Run, i: nat)
    requires i < |r.steps| && |r.states| == |r.steps| + 1
  {
    Enabled(r.states[i], r.steps[i]) && r.states[i + 1] == Do(r.states[i], r.steps[i])
  }

  /** From a subscribed stream over any inventory, through any enabled steps. */
  ghost predicate IsRun(r: Run) {
    && |r.states| == |r.steps| + 1
    && r.states[0] == Initial(r.states[0].inv, r.states[0].debounce)
    && WellKeyed(r.states[0].inv)
    && forall i :: 0 <= i < |r.steps| ==> StepAt(r, i)
  }

  lemma {:induction false} InvAlways(r: Run, k: nat)
    requires IsRun(r) && k < |r.states|
    ensures Inv(r.states[k])
  {
    if k == 0 {
      var s := r.states[0];
      forall p: Pane ensures HeldOk(s, p) && FlightOk(s, p) {}
    } else {
      InvAlways(r, k - 1);
      assert StepAt(r, k - 1);
      KeepInv(r.states[k - 1], r.steps[k - 1]);
    }
  }

  /** Nothing on its way, nothing owed, nothing in flight. */
  ghost predicate Quiescent(s: State) {
    && s.live && s.unpublished == {} && s.queue == []
    && s.st.stale == {} && !s.st.resnapshot && s.st.reading.None?
  }

  lemma {:induction false} RestHoldsInventory(u: State)
    requires Inv(u) && Quiescent(u)
    ensures u.st.held == u.inv
  {
    forall p: Pane ensures Get(u.st.held, p) == Get(u.inv, p) {
      assert HeldOk(u, p);
    }
    MapExt(u.st.held, u.inv);
  }

  /** Convergence: whenever a run comes to rest, the held rows are the backend's inventory. */
  lemma {:induction false} Convergence(r: Run, k: nat)
    requires IsRun(r) && k < |r.states| && Quiescent(r.states[k])
    ensures r.states[k].st.held == r.states[k].inv
  {
    InvAlways(r, k);
    RestHoldsInventory(r.states[k]);
  }

  /** Replica agreement: the messages decided so far, read from nothing, give the held rows. */
  lemma {:induction false} ReplicaAgreement(r: Run, k: nat)
    requires IsRun(r) && k < |r.states|
    ensures Replay(map[], Decided(r.states[k])) == r.states[k].st.held
  {
    InvAlways(r, k);
  }

  // ----- marks are never lost --------------------------------------------------------

  /** Step `k` takes event `ev` off the bus. */
  ghost predicate Takes(r: Run, k: nat, ev: Recv)
    requires IsRun(r)
  {
    k < |r.steps| && r.steps[k].Bus? && r.states[k].queue != [] && r.states[k].queue[0] == ev
  }

  /** Step `k` ends a read that succeeded and was started after state `i`. */
  ghost predicate Answers(r: Run, i: nat, k: nat)
    requires IsRun(r) && i < |r.states|
  {
    && k < |r.steps| && r.steps[k].Finish? && r.steps[k].answer.Some?
    && |r.states[k].starts| > |r.states[i].starts|
  }

  ghost predicate PaneOwed(s: State, p: Pane) {
    p in s.st.stale || (s.st.reading.Some? && p in s.st.reading.value.stale)
  }

  ghost predicate SnapshotOwed(s: State) {
    s.st.resnapshot || (s.st.reading.Some? && s.st.reading.value.resnapshot)
  }

  ghost predicate PaneSettled(r: Run, i: nat, j: nat, p: Pane)
    requires IsRun(r) && i < |r.states|
  {
    exists k :: i < k < j && (Answers(r, i, k) || Takes(r, k, Closed(p)))
  }

  ghost predicate SnapshotSettled(r: Run, i: nat, j: nat)
    requires IsRun(r) && i < |r.states|
  {
    exists k :: i < k < j && Answers(r, i, k)
  }

  lemma {:induction false} StartsGrow(r: Run, i: nat, j: nat)
    requires IsRun(r) && i <= j < |r.states|
    ensures r.states[i].live ==> r.states[j].live
    ensures |r.states[i].starts| <= |r.states[j].starts|
    decreases j - i
  {
    if i < j {
      StartsGrow(r, i, j - 1);
      assert StepAt(r, j - 1);
    }
  }

  /** A status event taken at step `i` stays owed until a successful read that started
      after it, or the pane's closure; failed reads in between lose nothing. */
  lemma {:induction false} NoLostMark(r: Run, i: nat, j: nat, ev: StatusEvent)
    requires IsRun(r) && i < j < |r.states| && Takes(r, i, Status(ev))
    ensures PaneOwed(r.states[j], ev.pane) || PaneSettled(r, i, j, ev.pane)
  {
    MarkTravels(r, i, j, ev);
  }

  /** The mark for `p` is kept, or travels in a read started after the first `base` ones. */
  ghost predicate MarkKept(s: State, p: Pane, base: nat) {
    || p in s.st.stale
    || (s.st.reading.Some? && p in s.st.reading.value.stale && |s.starts| > base)
  }

  lemma {:induction false} MarkStep(s: State, step: Step, p: Pane, base: nat)
    requires s.live && Enabled(s, step) && |s.starts| >= base && MarkKept(s, p, base)
    requires !(step.Finish? && step.answer.Some? && |s.starts| > base)
    requires !(step.Bus? && s.queue[0] == Closed(p))
    ensures MarkKept(Do(s, step), p, base)
  {}

  lemma {:induction false} MarkTravels(r: Run, i: nat, j: nat, ev: StatusEvent)
    requires IsRun(r) && i < j < |r.states| && Takes(r, i, Status(ev))
    ensures MarkKept(r.states[j], ev.pane, |r.states[i].starts|) || PaneSettled(r, i, j, ev.pane)
    decreases j
  {
    assert StepAt(r, i);
    if j > i + 1 {
      MarkTravels(r, i, j - 1, ev);
      assert StepAt(r, j - 1);
      StartsGrow(r, i, j - 1);
      if PaneSettled(r, i, j - 1, ev.pane) {
        var k :| i < k < j - 1 && (Answers(r, i, k) || Takes(r, k, Closed(ev.pane)));
        assert PaneSettled(r, i, j, ev.pane);
      } else if Answers(r, i, j - 1) || Takes(r, j - 1, Closed(ev.pane)) {
        assert PaneSettled(r, i, j, ev.pane);
      } else {
        MarkStep(r.states[j - 1], r.steps[j - 1], ev.pane, |r.states[i].starts|);
      }
    }
  }

  /** A lag or resync stays owed until a successful read that started after it. */
  lemma {:induction false} NoLostResnapshot(r: Run, i: nat, j: nat)
    requires IsRun(r) && i < j < |r.states|
    requires Takes(r, i, Resynced) || (i < |r.steps| && r.steps[i].Lag?)
    ensures SnapshotOwed(r.states[j]) || SnapshotSettled(r, i, j)
  {
    ResnapshotTravels(r, i, j);
  }

  ghost predicate ResnapshotKept(s: State, base: nat) {
    || s.st.resnapshot
    || (s.st.reading.Some? && s.st.reading.value.resnapshot && |s.starts| > base)
  }

  lemma {:induction false} ResnapshotStep(s: State, step: Step, base: nat)
    requires s.live && Enabled(s, step) && |s.starts| >= base && ResnapshotKept(s, base)
    requires !(step.Finish? && step.answer.Some? && |s.starts| > base)
    ensures ResnapshotKept(Do(s, step), base)
  {}

  lemma {:induction false} ResnapshotTravels(r: Run, i: nat, j: nat)
    requires IsRun(r) && i < j < |r.states|
    requires Takes(r, i, Resynced) || (i < |r.steps| && r.steps[i].Lag?)
    ensures ResnapshotKept(r.states[j], |r.states[i].starts|) || SnapshotSettled(r, i, j)
    decreases j
  {
    assert StepAt(r, i);
    if j > i + 1 {
      ResnapshotTravels(r, i, j - 1);
      assert StepAt(r, j - 1);
      StartsGrow(r, i, j - 1);
      if SnapshotSettled(r, i, j - 1) {
        var k :| i < k < j - 1 && Answers(r, i, k);
        assert SnapshotSettled(r, i, j);
      } else if Answers(r, i, j - 1) {
        assert SnapshotSettled(r, i, j);
      } else {
        ResnapshotStep(r.states[j - 1], r.steps[j - 1], |r.states[i].starts|);
      }
    }
  }

  // ----- no stale resurrection -------------------------------------------------------

  ghost predicate Carries(ev: AgentEvent, p: Pane) {
    match ev
    case Snapshot(list) => exists i :: 0 <= i < |list| && list[i].pane == p
    case Changed(row) => row.pane == p
    case Removed(_) => false
  }

  /** The messages step `k` decided. */
  ghost function NewMessages(r: Run, k: nat): seq<AgentEvent>
    requires IsRun(r) && k < |r.steps|
  {
    var before, after := Decided(r.states[k]), Decided(r.states[k + 1]);
    if |before| <= |after| then after[|before|..] else []
  }

  ghost predicate StatusTaken(r: Run, i: nat, j: nat, p: Pane)
    requires IsRun(r)
  {
    exists k, ev: StatusEvent :: i < k <= j && ev.pane == p && Takes(r, k, Status(ev))
  }

  /** Between a closure and the next status event of its pane, a read that was out when the
      closure was taken knows it must not bring the pane back. */
  lemma {:induction false} ClosureTravels(r: Run, p: Pane, i: nat, j: nat)
    requires IsRun(r) && i < j < |r.states| && Takes(r, i, Closed(p))
    ensures r.states[j].live && Barred(r.states[j], p, |r.states[i].starts|)
  {
    assert StepAt(r, i);
    if j > i + 1 {
      ClosureTravels(r, p, i, j - 1);
      assert StepAt(r, j - 1);
      StartsGrow(r, i, j - 1);
      BarredStep(r.states[j - 1], r.steps[j - 1], p, |r.states[i].starts|);
    }
  }

  /** A read out since before the next start must drop `p`. */
  ghost predicate Barred(s: State, p: Pane, base: nat) {
    s.st.reading.Some? && |s.starts| == base ==> p in s.st.reading.value.closed
  }

  lemma {:induction false} BarredStep(s: State, step: Step, p: Pane, base: nat)
    requires s.live && Enabled(s, step) && |s.starts| >= base && Barred(s, p, base)
    ensures Do(s, step).live && Barred(Do(s, step), p, base)
  {}

  lemma {:induction false} WithoutDrops(rows: seq<AgentMsg>, skip: set<Pane>, p: Pane)
    ensures Carries(Snapshot(Without(rows, skip)), p) ==> p !in skip && Carries(Snapshot(rows), p)
  {
    WithoutShape(rows, skip);
    var w := Without(rows, skip);
    if Carries(Snapshot(w), p) {
      var i :| 0 <= i < |w| && w[i].pane == p;
      assert w[i] in rows;
      var j :| 0 <= j < |rows| && rows[j] == w[i];
    }
  }

  /** The messages a successful read decides. */
  ghost function ReadMessages(v: View, flight: Flight, rows: seq<AgentMsg>): seq<AgentEvent> {
    var list := Without(rows, flight.closed);
    if flight.resnapshot then [Snapshot(list)] else Deltas(v.held, list, v.stale)
  }

  /** A read never carries a pane closed while it was out, nor one it did not return. */
  lemma {:induction false} ReadCarries(v: View, flight: Flight, rows: seq<AgentMsg>, m: AgentEvent, p: Pane)
    requires DistinctPanes(rows) && Carries(m, p) && m in ReadMessages(v, flight, rows)
    ensures p !in flight.closed && Carries(Snapshot(rows), p)
  {
    var list := Without(rows, flight.closed);
    WithoutDrops(rows, flight.closed, p);
    if !flight.resnapshot {
      WithoutShape(rows, flight.closed);
      DeltasShape(v.held, list, v.stale);
      assert Warranted(v.held, list, v.stale, m);
      HoldAt(list, p);
      DistinctNeverEchoes(v.held, list, p);
      var i :| 0 <= i < |list| && list[i] == LastRow(list, p).value;
    }
  }

  /** What a step of a live stream tells the client. */
  ghost function Says(s: State, step: Step): seq<AgentEvent>
    requires Enabled(s, step)
  {
    match step
    case Bus => AfterBus(s.st, s.queue[0]).outbox
    case Finish(Some(rows)) => ReadMessages(s.st, s.st.reading.value, rows)
    case _ => []
  }

  lemma {:induction false} SaysExactly(s: State, step: Step)
    requires s.live && Enabled(s, step)
    ensures Decided(Do(s, step)) == Decided(s) + Says(s, step)
  {
    match step {
      case Hand => assert s.st.outbox == [s.st.outbox[0]] + s.st.outbox[1..];
      case Bus => assert Decided(s) == s.handed;
      case _ =>
    }
  }

  /** Only the status fast path carries a pane straight from the bus. */
  lemma {:induction false} BusCarries(v: View, recv: Recv, m: AgentEvent, p: Pane)
    requires WellKeyed(v.held) && v.outbox == [] && m in AfterBus(v, recv).outbox && Carries(m, p)
    ensures recv.Status? && recv.ev.pane == p
  {}

  /** Which messages a single step can decide about a pane. */
  lemma {:induction false} StepCarries(s: State, step: Step, m: AgentEvent, p: Pane)
    requires Inv(s) && s.live && Enabled(s, step)
    requires m in Says(s, step) && Carries(m, p)
    ensures || (step.Bus? && s.queue[0].Status? && s.queue[0].ev.pane == p)
            || (step.Finish? && step.answer.Some? && Carries(Snapshot(step.answer.value), p)
                && p !in s.st.reading.value.closed)
  {
    if step.Bus? {
      BusCarries(s.st, s.queue[0], m, p);
    } else {
      ReadCarries(s.st, s.st.reading.value, step.answer.value, m, p);
    }
  }

  /** No stale resurrection: once a closure was taken, a message carries the pane only after
      a later status event for it, or out of a read that started after the closure. */
  lemma {:induction false} NoStaleResurrection(r: Run, p: Pane, i: nat, j: nat, m: AgentEvent)
    requires IsRun(r) && i < j < |r.steps| && Takes(r, i, Closed(p))
    requires m in NewMessages(r, j) && Carries(m, p)
    ensures StatusTaken(r, i, j, p)
         || (Answers(r, i, j) && Carries(Snapshot(r.steps[j].answer.value), p))
  {
    assert StepAt(r, j);
    InvAlways(r, j);
    ClosureTravels(r, p, i, j);
    StartsGrow(r, i, j);
    SaysExactly(r.states[j], r.steps[j]);
    assert NewMessages(r, j) == Says(r.states[j], r.steps[j]);
    StepCarries(r.states[j], r.steps[j], m, p);
    if r.steps[j].Bus? {
      assert Takes(r, j, Status(r.states[j].queue[0].ev));
    }
  }

  lemma {:induction false} SaysNew(r: Run, j: nat)
    requires IsRun(r) && j < |r.steps| && r.states[j].live
    ensures Enabled(r.states[j], r.steps[j]) && NewMessages(r, j) == Says(r.states[j], r.steps[j])
  {
    assert StepAt(r, j);
    SaysExactly(r.states[j], r.steps[j]);
  }

  /** A pane a diff mentions has no mark that its read did not carry. */
  lemma {:induction false} MentionedIsUnmarked(s: State, step: Step, m: AgentEvent, base: nat)
    requires Enabled(s, step) && step.Finish? && |s.starts| == base
    requires m in Says(s, step) && !m.Snapshot?
    ensures !MarkKept(s, PaneOf(m), base)
  {
    DiffSkipsMarked(s.st, s.st.reading.value, step.answer.value, m);
  }

  ghost predicate ClosureTaken(r: Run, i: nat, j: nat, p: Pane)
    requires IsRun(r)
  {
    exists k :: i < k < j && Takes(r, k, Closed(p))
  }

  /** While no read starts, only its closure settles a pane. */
  lemma {:induction false} SettledByClosure(r: Run, i: nat, j: nat, p: Pane)
    requires IsRun(r) && i < j < |r.states| && |r.states[j].starts| == |r.states[i].starts|
    requires PaneSettled(r, i, j, p)
    ensures ClosureTaken(r, i, j, p)
  {
    var k :| i < k < j && (Answers(r, i, k) || Takes(r, k, Closed(p)));
    StartsGrow(r, k, j);
  }

  /** No stale overwrite: a diff out of a read that started before a status event was taken
      says nothing about that event's pane, unless the pane was closed in between. */
  lemma {:induction false} NoStaleOverwrite(r: Run, i: nat, j: nat, ev: StatusEvent, m: AgentEvent)
    requires IsRun(r) && i < j < |r.steps| && Takes(r, i, Status(ev))
    requires r.steps[j].Finish? && |r.states[j].starts| == |r.states[i].starts|
    requires m in NewMessages(r, j) && !m.Snapshot? && PaneOf(m) == ev.pane
    ensures ClosureTaken(r, i, j, ev.pane)
  {
    MarkTravels(r, i, j, ev);
    assert StepAt(r, j);
    SaysNew(r, j);
    MentionedIsUnmarked(r.states[j], r.steps[j], m, |r.states[i].starts|);
    SettledByClosure(r, i, j, ev.pane);
  }

  /** A diff never mentions a pane marked since its read started. */
  lemma {:induction false} DiffSkipsMarked(v: View, flight: Flight, rows: seq<AgentMsg>, m: AgentEvent)
    requires DistinctPanes(rows) && m in ReadMessages(v, flight, rows) && !m.Snapshot?
    ensures PaneOf(m) !in v.stale
  {
    var list := Without(rows, flight.closed);
    WithoutShape(rows, flight.closed);
    DeltasShape(v.held, list, v.stale);
    assert Warranted(v.held, list, v.stale, m);
  }

  // ----- read pacing -----------------------------------------------------------------

  ghost predicate Paced(s: State) {
    && Spacing.Spaced(s.starts, s.debounce)
    && (s.starts != [] ==> Last(s.starts) <= s.st.lastList)
    && s.st.lastList <= s.now
    && (!s.live ==> s.starts == [])
  }

  lemma {:induction false} KeepPaced(s: State, step: Step)
    requires Paced(s) && Enabled(s, step)
    ensures Paced(Do(s, step)) && Do(s, step).debounce == s.debounce
  {
    if step.Start? {
      var t := Do(s, step);
      assert Last(t.starts) == s.now;
      forall i | 0 < i < |t.starts| ensures t.starts[i - 1] + s.debounce <= t.starts[i] {
        if i == |s.starts| { assert t.starts[i - 1] == Last(s.starts); }
      }
    }
  }

  lemma {:induction false} PacedAlways(r: Run, k: nat)
    requires IsRun(r) && k < |r.states|
    ensures Paced(r.states[k]) && r.states[k].debounce == r.states[0].debounce
  {
    if k > 0 {
      PacedAlways(r, k - 1);
      assert StepAt(r, k - 1);
      KeepPaced(r.states[k - 1], r.steps[k - 1]);
    }
  }

  /** Read pacing: re-read starts are a debounce apart, so a window of length L sees at most
      L/debounce + 1 of them. */
  lemma {:induction false} ReadPacing(r: Run, k: nat, from: Time, to: Time)
    requires IsRun(r) && k < |r.states| && from <= to && r.states[0].debounce > 0
    ensures Spacing.Spaced(r.states[k].starts, r.states[0].debounce)
    ensures Spacing.CountIn(r.states[k].starts, from, to) <= (to - from) / r.states[0].debounce + 1
  {
    PacedAlways(r, k);
    Spacing.WindowBound(r.states[k].starts, r.states[0].debounce, from, to);
  }
}
