/** Why a `WatchAgents` stream does what it does: every mark, every re-read and every message
    has a cause in the run before it. */
module WatchMarks {
  import opened Prelude
  import opened AgentRows
  import opened WatchStates
  import opened WatchSystem
  import opened WatchRuns

  /** What a re-read can be wanted for: everything, or one pane. */
  datatype Need = Whole | One(pane: Pane)

  predicate Marked(v: View, need: Need) {
    match need
    case Whole => v.resnapshot
    case One(p) => p in v.stale
  }

  /** The read under way answers the need. */
  predicate Carried(v: View, need: Need) {
    v.reading.Some? &&
    match need
    case Whole => v.reading.value.resnapshot
    case One(p) => p in v.reading.value.stale
  }

  /** A lag or resync raises the need for everything, a status event that for its pane. */
  predicate Raises(s: State, step: Step, need: Need) {
    match need
    case Whole => step.Lag? || (step.Bus? && s.queue != [] && s.queue[0] == Resynced)
    case One(p) => step.Bus? && s.queue != [] && s.queue[0].Status? && s.queue[0].ev.pane == p
  }

  ghost predicate RaisedAt(r: Run, i: nat, need: Need)
    requires IsRun(r)
  {
    i < |r.steps| && Raises(r.states[i], r.steps[i], need)
  }

  /** No read started after step `i` succeeded before state `j`. */
  ghost predicate Unanswered(r: Run, i: nat, j: nat)
    requires IsRun(r) && i < |r.states|
  {
    forall k :: i < k < j ==> !Answers(r, i, k)
  }

  /** Step `i` raised the need and nothing before state `j` answered it. */
  ghost predicate Causes(r: Run, i: nat, j: nat, need: Need)
    requires IsRun(r)
  {
    i < j < |r.states| && RaisedAt(r, i, need) && Unanswered(r, i, j)
  }

  /** A cause, taken since the read under way was started. */
  ghost predicate FreshCause(r: Run, i: nat, j: nat, need: Need)
    requires IsRun(r)
  {
    Causes(r, i, j, need) && (r.states[j].st.reading.Some? ==> |r.states[i].starts| == |r.states[j].starts|)
  }

  /** A cause from before the read under way was started. */
  ghost predicate EarlierCause(r: Run, i: nat, j: nat, need: Need)
    requires IsRun(r)
  {
    Causes(r, i, j, need) && |r.states[i].starts| < |r.states[j].starts|
  }

  /** The bus carries only what was published; a lag is no event in it. */
  ghost predicate Published(s: State) {
    forall i :: 0 <= i < |s.queue| ==> !s.queue[i].Lagged? && !s.queue[i].BusClosed?
  }

  lemma {:induction false} PublishedAlways(r: Run, j: nat)
    requires IsRun(r) && j < |r.states|
    ensures Published(r.states[j])
  {
    if j > 0 {
      PublishedAlways(r, j - 1);
      assert StepAt(r, j - 1);
    }
  }

  /** How one step moves a mark. */
  lemma {:induction false} MarkMoves(s: State, step: Step, need: Need)
    requires s.live && Enabled(s, step) && Published(s)
    ensures var t := Do(s, step);
      Marked(t.st, need) ==>
        || Raises(s, step, need)
        || (Marked(s.st, need) && !step.Start?)
        || (Carried(s.st, need) && step.Finish? && step.answer.None?)
  {}

  lemma {:induction false} CarryMoves(s: State, step: Step, need: Need)
    requires s.live && Enabled(s, step)
    ensures var t := Do(s, step);
      Carried(t.st, need) ==>
        if step.Start? then Marked(s.st, need) else Carried(s.st, need) && !step.Finish?
  {}

  lemma {:induction false} StartMoves(s: State, step: Step)
    requires s.live && Enabled(s, step)
    ensures var t := Do(s, step);
      && |t.starts| == |s.starts| + (if step.Start? then 1 else 0)
      && (step.Start? ==> s.st.reading.None? && t.st.reading.Some?)
      && (step.Finish? ==> t.st.reading.None?)
      && (!step.Start? && !step.Finish? ==> t.st.reading.Some? == s.st.reading.Some?)
  {}

  ghost predicate MarkCaused(r: Run, j: nat, need: Need)
    requires IsRun(r) && j < |r.states|
  {
    Marked(r.states[j].st, need) ==> exists i :: FreshCause(r, i, j, need)
  }

  ghost predicate CarryCaused(r: Run, j: nat, need: Need)
    requires IsRun(r) && j < |r.states|
  {
    Carried(r.states[j].st, need) ==> exists i :: EarlierCause(r, i, j, need)
  }

  lemma {:induction false} RaisedNow(r: Run, j: nat, need: Need)
    requires IsRun(r) && j < |r.steps| && r.states[j].live && RaisedAt(r, j, need)
    ensures FreshCause(r, j, j + 1, need)
  {
    assert StepAt(r, j);
    StartMoves(r.states[j], r.steps[j]);
  }

  /** A mark keeps its cause, whatever is not a start. */
  lemma {:induction false} MarkStays(r: Run, i: nat, j: nat, need: Need)
    requires IsRun(r) && j < |r.steps| && r.states[j].live && FreshCause(r, i, j, need) && !r.steps[j].Start?
    ensures FreshCause(r, i, j + 1, need)
  {
    assert StepAt(r, j);
    StartMoves(r.states[j], r.steps[j]);
  }

  /** A failed read gives the mark back with its cause. */
  lemma {:induction false} MarkReturns(r: Run, i: nat, j: nat, need: Need)
    requires IsRun(r) && j < |r.steps| && r.states[j].live && EarlierCause(r, i, j, need)
    requires r.steps[j].Finish? && r.steps[j].answer.None?
    ensures FreshCause(r, i, j + 1, need)
  {
    assert StepAt(r, j);
    StartMoves(r.states[j], r.steps[j]);
  }

  lemma {:induction false} CarryStarts(r: Run, i: nat, j: nat, need: Need)
    requires IsRun(r) && j < |r.steps| && r.states[j].live && Causes(r, i, j, need)
    requires r.steps[j].Start? || (!r.steps[j].Finish? && EarlierCause(r, i, j, need))
    ensures EarlierCause(r, i, j + 1, need)
  {
    assert StepAt(r, j);
    StartMoves(r.states[j], r.steps[j]);
    StartsGrow(r, i, j);
  }

  lemma {:induction false} NextMark(r: Run, j: nat, need: Need)
    requires IsRun(r) && j < |r.steps| && r.states[j].live && MarkCaused(r, j, need) && CarryCaused(r, j, need)
    ensures MarkCaused(r, j + 1, need)
  {
    assert StepAt(r, j);
    PublishedAlways(r, j);
    var s, step := r.states[j], r.steps[j];
    MarkMoves(s, step, need);
    if Marked(r.states[j + 1].st, need) {
      if Raises(s, step, need) {
        RaisedNow(r, j, need);
      } else if Marked(s.st, need) && !step.Start? {
        var i :| FreshCause(r, i, j, need);
        MarkStays(r, i, j, need);
      } else {
        var i :| EarlierCause(r, i, j, need);
        MarkReturns(r, i, j, need);
      }
    }
  }

  lemma {:induction false} NextCarry(r: Run, j: nat, need: Need)
    requires IsRun(r) && j < |r.steps| && r.states[j].live && MarkCaused(r, j, need) && CarryCaused(r, j, need)
    ensures CarryCaused(r, j + 1, need)
  {
    assert StepAt(r, j);
    var s, step := r.states[j], r.steps[j];
    CarryMoves(s, step, need);
    if Carried(r.states[j + 1].st, need) {
      if step.Start? {
        var i :| FreshCause(r, i, j, need);
        CarryStarts(r, i, j, need);
      } else {
        var i :| EarlierCause(r, i, j, need);
        CarryStarts(r, i, j, need);
      }
    }
  }

  /** Before the stream opens nothing is marked; it opens with nothing marked. */
  lemma {:induction false} OpensClean(s: State, step: Step, need: Need)
    requires Inv(s) && !s.live && Enabled(s, step) && Do(s, step).live
    ensures !Marked(Do(s, step).st, need) && !Carried(Do(s, step).st, need)
  {}

  lemma {:induction false} CausedAlways(r: Run, j: nat, need: Need)
    requires IsRun(r) && j < |r.states| && r.states[j].live
    ensures MarkCaused(r, j, need) && CarryCaused(r, j, need)
  {
    if j > 0 {
      assert StepAt(r, j - 1);
      if r.states[j - 1].live {
        CausedAlways(r, j - 1, need);
        NextMark(r, j - 1, need);
        NextCarry(r, j - 1, need);
      } else {
        InvAlways(r, j - 1);
        OpensClean(r.states[j - 1], r.steps[j - 1], need);
      }
    }
  }

  ghost predicate Caused(r: Run, j: nat, need: Need)
    requires IsRun(r)
  {
    exists i :: Causes(r, i, j, need)
  }

  /** Nothing is owed without cause: whatever an open stream owes was raised by an event no
      successful read started after it has answered. */
  lemma {:induction false} OwedOnlyIfCaused(r: Run, j: nat, need: Need)
    requires IsRun(r) && j < |r.states| && r.states[j].live
    requires Marked(r.states[j].st, need) || Carried(r.states[j].st, need)
    ensures Caused(r, j, need)
  {
    CausedAlways(r, j, need);
    if Marked(r.states[j].st, need) {
      var i :| FreshCause(r, i, j, need);
    } else {
      var i :| EarlierCause(r, i, j, need);
    }
  }

  /** A whole snapshot is owed if and only if a lag or resync is unanswered. */
  lemma {:induction false} SnapshotOwedIff(r: Run, j: nat)
    requires IsRun(r) && j < |r.states| && r.states[j].live
    ensures SnapshotOwed(r.states[j]) <==> Caused(r, j, Whole)
  {
    if SnapshotOwed(r.states[j]) {
      OwedOnlyIfCaused(r, j, Whole);
    }
    if Caused(r, j, Whole) {
      var i :| Causes(r, i, j, Whole);
      NoLostResnapshot(r, i, j);
    }
  }

  /** A re-read starts only for a cause. */
  lemma {:induction false} ReadsOnlyWhenCaused(r: Run, k: nat)
    requires IsRun(r) && k < |r.steps| && r.steps[k].Start?
    ensures exists need :: Caused(r, k, need)
  {
    assert StepAt(r, k);
    var v := r.states[k].st;
    if v.resnapshot {
      OwedOnlyIfCaused(r, k, Whole);
    } else {
      var p :| p in v.stale;
      OwedOnlyIfCaused(r, k, One(p));
    }
  }

  /** A snapshot after the first is sent only for a lag or resync from before its read was
      started, unanswered until then. */
  lemma {:induction false} SnapshotsAreCaused(r: Run, k: nat, m: AgentEvent)
    requires IsRun(r) && k < |r.steps| && !r.steps[k].Open? && r.states[k].live
    requires m in NewMessages(r, k) && m.Snapshot?
    ensures exists i :: EarlierCause(r, i, k, Whole)
  {
    SaysNew(r, k);
    InvAlways(r, k);
    SnapshotNeedsFlight(r.states[k], r.steps[k], m);
    CausedAlways(r, k, Whole);
  }

  lemma {:induction false} SnapshotNeedsFlight(s: State, step: Step, m: AgentEvent)
    requires Inv(s) && s.live && Enabled(s, step) && m in Says(s, step) && m.Snapshot?
    ensures Carried(s.st, Whole)
  {
    if step.Finish? {
      DiffsOnly(s.st, s.st.reading.value, step.answer.value);
    }
  }

  /** A diff sends no snapshot. */
  lemma {:induction false} DiffsOnly(v: View, flight: Flight, rows: seq<AgentMsg>)
    requires DistinctPanes(rows)
    ensures !flight.resnapshot ==> forall m :: m in ReadMessages(v, flight, rows) ==> !m.Snapshot?
  {
    WithoutShape(rows, flight.closed);
    DeltasShape(v.held, Without(rows, flight.closed), v.stale);
  }

  predicate About(m: AgentEvent, p: Pane) {
    m.Snapshot? || PaneOf(m) == p
  }

  /** No stale message: a read started before a status event was taken says nothing about that
      event's pane, unless the pane was closed in between, or the read was one for everything,
      which a lag or resync from before its start had asked for. */
  lemma {:induction false} NoStaleMessage(r: Run, i: nat, j: nat, ev: StatusEvent, m: AgentEvent)
    requires IsRun(r) && i < j < |r.steps| && Takes(r, i, Status(ev))
    requires r.steps[j].Finish? && |r.states[j].starts| == |r.states[i].starts|
    requires m in NewMessages(r, j) && About(m, ev.pane)
    ensures ClosureTaken(r, i, j, ev.pane) || (m.Snapshot? && exists q :: EarlierCause(r, q, j, Whole))
  {
    if m.Snapshot? {
      assert StepAt(r, j);
      SnapshotsAreCaused(r, j, m);
    } else {
      NoStaleOverwrite(r, i, j, ev, m);
    }
  }

  // ----- a closure clears the mark ---------------------------------------------------

  /** Since step `i`, a status event for `p`, or the failure of a read that was out then. */
  ghost predicate Revived(r: Run, i: nat, j: nat, p: Pane)
    requires IsRun(r) && i < |r.states|
  {
    exists k :: i < k < j && RevivedAt(r, i, k, p)
  }

  ghost predicate RevivedAt(r: Run, i: nat, k: nat, p: Pane)
    requires IsRun(r) && i < |r.states|
  {
    && k < |r.steps|
    && (RaisedAt(r, k, One(p)) ||
        (r.steps[k] == Finish(None) && |r.states[k].starts| == |r.states[i].starts|))
  }

  lemma {:induction false} RevivedOn(r: Run, i: nat, j: nat, p: Pane)
    requires IsRun(r) && i < j < |r.steps| && (Revived(r, i, j, p) || RevivedAt(r, i, j, p))
    ensures Revived(r, i, j + 1, p)
  {
    if Revived(r, i, j, p) {
      var k :| i < k < j && RevivedAt(r, i, k, p);
    }
  }

  ghost predicate MarkedSince(s: State, p: Pane, base: nat) {
    Marked(s.st, One(p)) || (Carried(s.st, One(p)) && |s.starts| > base)
  }

  lemma {:induction false} ClosedStep(s: State, step: Step, p: Pane, base: nat)
    requires s.live && Enabled(s, step) && Published(s) && |s.starts| >= base
    requires MarkedSince(Do(s, step), p, base)
    ensures MarkedSince(s, p, base) || Raises(s, step, One(p)) || (step == Finish(None) && |s.starts| == base)
  {
    MarkMoves(s, step, One(p));
    CarryMoves(s, step, One(p));
    StartMoves(s, step);
  }

  /** Once a closure is taken its pane is owed nothing, until the next status event for it or
      the failure of a read that was out at the closure. */
  lemma {:induction false} ClosureClears(r: Run, i: nat, j: nat, p: Pane)
    requires IsRun(r) && i < j < |r.states| && Takes(r, i, Closed(p))
    ensures MarkedSince(r.states[j], p, |r.states[i].starts|) ==> Revived(r, i, j, p)
    decreases j
  {
    assert StepAt(r, i);
    if j > i + 1 {
      ClosureClears(r, i, j - 1, p);
      assert StepAt(r, j - 1);
      StartsGrow(r, i, j - 1);
      PublishedAlways(r, j - 1);
      if MarkedSince(r.states[j], p, |r.states[i].starts|) {
        ClosedStep(r.states[j - 1], r.steps[j - 1], p, |r.states[i].starts|);
        RevivedOn(r, i, j - 1, p);
      }
    }
  }

  // ----- what decides messages -------------------------------------------------------

  /** A bus event decides at most one message, and only when it changes the held rows or is a
      status event that agrees with its row; without a message the rows stay. */
  lemma {:induction false} BusTells(v: View, recv: Recv)
    requires WellKeyed(v.held) && v.outbox == []
    ensures var w := AfterBus(v, recv);
      && |w.outbox| <= 1
      && (w.outbox == [] ==> w.held == v.held)
      && (w.outbox != [] ==> w.held != v.held || (recv.Status? && ApplyStatus(v.held, recv.ev).Some?))
  {
    match recv {
      case Closed(p) => assert p !in v.held ==> v.held - {p} == v.held;
      case _ =>
    }
  }

  /** Only the bus, a successful read and the opening decide messages or change the held rows. */
  lemma {:induction false} OnlyNewsTells(r: Run, k: nat)
    requires IsRun(r) && k < |r.steps|
    ensures r.steps[k].Bus? || r.steps[k].Open? || (r.steps[k].Finish? && r.steps[k].answer.Some?)
         || (NewMessages(r, k) == [] && r.states[k + 1].st.held == r.states[k].st.held)
  {
    assert StepAt(r, k);
    if r.states[k].live { SaysNew(r, k); }
  }

  /** Every message about its own pane, and none without a change of the rows. */
  ghost predicate NoneIdle(before: Rows, out: seq<AgentEvent>, after: Rows) {
    DistinctMentions(out) && forall m :: m in out ==> Get(before, PaneOf(m)) != Get(after, PaneOf(m))
  }

  lemma {:induction false} DiffTells(v: View, list: seq<AgentMsg>)
    requires DistinctPanes(list)
    ensures NoneIdle(v.held, Deltas(v.held, list, v.stale), AfterDiff(v, list).held)
  {
    DeltasShape(v.held, list, v.stale);
    DiffExact(v.held, list, v.stale);
    forall m | m in Deltas(v.held, list, v.stale)
      ensures Get(v.held, PaneOf(m)) != Get(AfterDiff(v, list).held, PaneOf(m))
    {
      assert Warranted(v.held, list, v.stale, m);
    }
  }

  lemma {:induction false} ReadStepTells(s: State, step: Step)
    requires Inv(s) && s.live && Enabled(s, step) && step.Finish? && step.answer.Some?
    ensures var t := Do(s, step);
      if Carried(s.st, Whole) then exists list :: Says(s, step) == [Snapshot(list)] && Hold(list) == t.st.held
      else NoneIdle(s.st.held, Says(s, step), t.st.held)
  {
    var v, flight := s.st.(reading := None), s.st.reading.value;
    var list := Without(step.answer.value, flight.closed);
    WithoutShape(step.answer.value, flight.closed);
    if flight.resnapshot {
      assert Says(s, step) == [Snapshot(list)];
    } else {
      DiffTells(v, list);
    }
  }

  /** A successful read decides no idle message: one snapshot of the rows held then, when it was
      one for everything, otherwise one message per pane whose row changed, and no other. */
  lemma {:induction false} ReadTellsTheChanges(r: Run, k: nat)
    requires IsRun(r) && k < |r.steps| && r.steps[k].Finish? && r.steps[k].answer.Some?
    ensures var s, t, news := r.states[k].st, r.states[k + 1].st, NewMessages(r, k);
      if Carried(s, Whole) then exists list :: news == [Snapshot(list)] && Hold(list) == t.held
      else NoneIdle(s.held, news, t.held)
  {
    assert StepAt(r, k);
    InvAlways(r, k);
    SaysNew(r, k);
    ReadStepTells(r.states[k], r.steps[k]);
  }

  ghost predicate LastRead(r: Run, i: nat, j: nat)
    requires IsRun(r)
  {
    i < j < |r.states| && r.steps[i].Finish? && forall k :: i < k < j ==> !r.steps[k].Finish?
  }

  ghost predicate LastReadFailed(r: Run, j: nat)
    requires IsRun(r)
  {
    exists i: nat :: LastRead(r, i, j) && r.steps[i] == Finish(None)
  }

  lemma {:induction false} FailingMoves(s: State, step: Step)
    requires Enabled(s, step)
    ensures var t := Do(s, step);
      && (step.Finish? ==> s.live && t.live && (t.st.readFailing <==> step == Finish(None)))
      && (!step.Finish? ==> t.st.readFailing == (s.st.readFailing && !step.Open?))
      && (step.Open? ==> !s.live) && (s.live ==> t.live)
  {}

  lemma {:induction false} LastReadOn(r: Run, j: nat)
    requires IsRun(r) && j < |r.steps|
    ensures LastReadFailed(r, j + 1) <==>
      if r.steps[j].Finish? then r.steps[j] == Finish(None) else LastReadFailed(r, j)
  {
    var n := j + 1;
    if r.steps[j].Finish? {
      assert LastRead(r, j, n);
      assert forall i: nat :: LastRead(r, i, n) ==> i == j;
    } else {
      assert forall i: nat :: LastRead(r, i, n) <==> LastRead(r, i, j);
    }
  }

  /** The failing flag tells how the last finished read went. */
  lemma {:induction false} FailingIsTheLast(r: Run, j: nat)
    requires IsRun(r) && j < |r.states|
    ensures r.states[j].st.readFailing <==> LastReadFailed(r, j)
    ensures !r.states[j].live ==> !r.states[j].st.readFailing
  {
    if j > 0 {
      FailingIsTheLast(r, j - 1);
      assert StepAt(r, j - 1);
      FailingMoves(r.states[j - 1], r.steps[j - 1]);
      LastReadOn(r, j - 1);
    }
  }
}
