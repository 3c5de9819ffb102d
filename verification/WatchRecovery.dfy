/** Convergence in time: once the backend is left alone, a `WatchAgents` stream comes to rest on
    its inventory under every fair schedule, by the marks it kept and nothing else. */
module WatchRecovery {
  import opened Prelude
  import opened AgentRows
  import opened WatchStates
  import opened WatchSystem
  import opened WatchRuns

  /** The announcement of a change the event kernel has not announced yet. */
  predicate Announces(s: State, ev: Recv) {
    || (ev.Status? && ev.ev.pane in s.unpublished)
    || (ev.Closed? && ev.pane in s.unpublished)
  }

  /** A step in which the backend's rows are left alone and nothing is published but a change
      still to be announced. The bus may drop events and a read may fail. */
  predicate Benign(s: State, step: Step) {
    match step
    case Publish(ev) => Announces(s, ev)
    case Change(_, _) => false
    case Open(_) => false
    case _ => true
  }

  predicate Fails(step: Step) {
    step.Finish? && step.answer.None?
  }

  predicate Succeeds(step: Step) {
    step.Finish? && step.answer.Some?
  }

  /** Nothing is left to do. */
  ghost predicate AtRest(s: State) {
    Quiescent(s) && s.st.outbox == []
  }

  // ----- benign steps bring rest closer -----------------------------------------------

  /** How many successful reads are owed, the one under way included. */
  function Reads(s: State): nat {
    (if s.st.stale == {} && !s.st.resnapshot then 0 else 1) + (if s.st.reading.Some? then 1 else 0)
  }

  /** What the next of them still has to go through. */
  function Stages(s: State): nat {
    if s.st.reading.None? then 3 else if s.captured.None? then 2 else 1
  }

  /** `t` owes less than `s`: lexicographically, changes to announce, events to take, reads. */
  predicate OwesLess(t: State, s: State) {
    || |t.unpublished| < |s.unpublished|
    || (|t.unpublished| == |s.unpublished| &&
        (|t.queue| < |s.queue| || (|t.queue| == |s.queue| && Reads(t) < Reads(s))))
  }

  predicate OwesTheSame(t: State, s: State) {
    |t.unpublished| == |s.unpublished| && |t.queue| == |s.queue| && Reads(t) == Reads(s)
  }

  /** `t` is closer to rest than `s`: it owes less, or as much but its read is further on, or
      fewer messages wait to be handed over. */
  predicate Closer(t: State, s: State) {
    || OwesLess(t, s)
    || (OwesTheSame(t, s) &&
        (Stages(t) < Stages(s) || (Stages(t) == Stages(s) && |t.st.outbox| < |s.st.outbox|)))
  }

  /** Waiting changes nothing, a failing read owes no more than before, a successful one owes
      less, and every other step is closer to rest. */
  lemma {:induction false} BenignDescends(s: State, step: Step)
    requires Inv(s) && s.live && Benign(s, step) && Enabled(s, step)
    ensures var t := Do(s, step);
      && Inv(t) && t.live && t.inv == s.inv && t.unpublished <= s.unpublished
      && (if step.Pass? then t == s.(now := t.now)
          else if Fails(step) then OwesLess(t, s) || OwesTheSame(t, s)
          else if step.Finish? then OwesLess(t, s)
          else Closer(t, s))
  {
    KeepInv(s, step);
    if step.Publish? {
      var p := if step.event.Status? then step.event.ev.pane else step.event.pane;
      assert Do(s, step).unpublished == s.unpublished - {p};
    }
  }

  /** Every keyed inventory has a listing. */
  lemma {:induction false} ListingExists(inv: Rows)
    requires WellKeyed(inv)
    ensures exists list :: Lists(list, inv)
    decreases |inv|
  {
    if inv == map[] {
      assert Lists([], inv);
    } else {
      var p :| p in inv;
      var rest := inv - {p};
      assert rest.Keys == inv.Keys - {p};
      ListingExists(rest);
      var list: seq<AgentMsg> :| Lists(list, rest);
      var longer := list + [inv[p]];
      assert DropLast(longer) == list && Hold(longer) == inv;
      forall i | 0 <= i < |list| ensures list[i].pane != p {
        HoldAt(list, list[i].pane);
        DistinctNeverEchoes(map[], list, list[i].pane);
      }
      assert Lists(longer, inv);
    }
  }

  /** An event that announces `p` truthfully. */
  function Announcement(s: State, p: Pane): Recv {
    if p in s.inv then Status(StatusEvent(p, s.inv[p].space, s.inv[p].status, None, None, None, None)) else Closed(p)
  }

  /** A benign step in which, moreover, no read fails and no event is dropped. */
  predicate Smooth(s: State, step: Step) {
    Benign(s, step) && !Fails(step) && !step.Lag?
  }

  /** A stream not at rest is never stuck: after some wait a smooth step is enabled. */
  lemma {:induction false} NeverStuck(s: State) returns (wait: nat, step: Step)
    requires Inv(s) && s.live && !AtRest(s)
    ensures var t := Do(s, Pass(wait));
      !step.Pass? && Smooth(t, step) && Enabled(t, step)
  {
    wait := 0;
    if s.unpublished != {} {
      var p :| p in s.unpublished;
      step := Publish(Announcement(s, p));
    } else if s.st.outbox != [] {
      step := Hand;
    } else if s.queue != [] {
      step := Bus;
    } else if s.st.reading.None? {
      wait, step := s.st.lastList + s.debounce, Start;
    } else if s.captured.None? {
      step := Capture;
    } else {
      ListingExists(s.captured.value);
      var list :| Lists(list, s.captured.value);
      step := Finish(Some(list));
    }
  }

  // ----- rest is within reach ---------------------------------------------------------

  /** A smooth step leads from `s` to `t`. */
  ghost predicate Moves(s: State, step: Step, t: State) {
    Smooth(s, step) && Enabled(s, step) && t == Do(s, step)
  }

  ghost predicate Path(states: seq<State>, steps: seq<Step>) {
    && |states| == |steps| + 1
    && forall i :: 0 <= i < |steps| ==> Moves(states[i], steps[i], states[i + 1])
  }

  ghost predicate Joins(states: seq<State>, steps: seq<Step>, s: State, t: State) {
    Path(states, steps) && states[0] == s && Last(states) == t
  }

  ghost predicate Leads(s: State, t: State) {
    exists states, steps :: Joins(states, steps, s, t)
  }

  lemma {:induction false} PathOn(s: State, t: State, step: Step, u: State)
    requires Leads(s, t) && Moves(t, step, u)
    ensures Leads(s, u)
  {
    var states, steps :| Joins(states, steps, s, t);
    var longer, via := states + [u], steps + [step];
    forall i | 0 <= i < |via| ensures Moves(longer[i], via[i], longer[i + 1]) {
      if i < |steps| { assert Moves(states[i], steps[i], states[i + 1]); }
    }
    assert Joins(longer, via, s, u);
  }

  lemma {:induction false} WalkToRest(s: State, t: State) returns (u: State)
    requires Leads(s, t) && Inv(t) && t.live
    ensures Leads(s, u) && Inv(u) && AtRest(u) && u.inv == t.inv
    decreases |t.unpublished|, |t.queue|, Reads(t), Stages(t), |t.st.outbox|
  {
    u := t;
    if !AtRest(t) {
      var wait, step := NeverStuck(t);
      var v := Do(t, Pass(wait));
      BenignDescends(t, Pass(wait));
      PathOn(s, t, Pass(wait), v);
      BenignDescends(v, step);
      PathOn(s, v, step, Do(v, step));
      u := WalkToRest(s, Do(v, step));
    }
  }

  /** Recovery: every reachable live state leads to rest, where the stream holds exactly the
      inventory the backend had all along. */
  lemma {:induction false} AlwaysRecoverable(r: Run, k: nat) returns (u: State)
    requires IsRun(r) && k < |r.states| && r.states[k].live
    ensures Leads(r.states[k], u) && AtRest(u)
    ensures u.st.held == u.inv == r.states[k].inv
  {
    var s := r.states[k];
    InvAlways(r, k);
    assert Joins([s], [], s, s);
    u := WalkToRest(s, s);
    RestHoldsInventory(u);
  }

  lemma {:induction false} StaysAnnounced(states: seq<State>, steps: seq<Step>, i: nat)
    requires Path(states, steps) && i < |states| && states[0].unpublished == {}
    ensures states[i].unpublished == {}
  {
    if i > 0 {
      StaysAnnounced(states, steps, i - 1);
      assert Moves(states[i - 1], steps[i - 1], states[i]);
    }
  }

  /** Once every change has been announced the stream recovers on its own: reads, bus events
      already queued and messages handed over, with nothing published at all. */
  lemma {:induction false} RecoversUnaided(r: Run, k: nat) returns (states: seq<State>, steps: seq<Step>)
    requires IsRun(r) && k < |r.states| && r.states[k].live && r.states[k].unpublished == {}
    ensures Path(states, steps) && states[0] == r.states[k] && AtRest(Last(states))
    ensures forall i :: 0 <= i < |steps| ==> !steps[i].Publish?
    ensures Last(states).st.held == Last(states).inv == r.states[k].inv
  {
    var u := AlwaysRecoverable(r, k);
    states, steps :| Joins(states, steps, r.states[k], u);
    forall i | 0 <= i < |steps| ensures !steps[i].Publish? {
      StaysAnnounced(states, steps, i);
      assert Moves(states[i], steps[i], states[i + 1]);
    }
  }

  // ----- rest comes under every fair schedule -----------------------------------------

  ghost predicate StepOf(states: nat -> State, steps: nat -> Step, n: nat) {
    Benign(states(n), steps(n)) && Enabled(states(n), steps(n)) && states(n + 1) == Do(states(n), steps(n))
  }

  /** An endless schedule of benign steps. */
  ghost predicate Schedule(states: nat -> State, steps: nat -> Step) {
    forall n: nat :: StepOf(states, steps, n)
  }

  ghost predicate Stirs(steps: nat -> Step, n: nat) {
    exists m: nat :: m >= n && !steps(m).Pass?
  }

  /** Short of rest, some step other than waiting is taken sooner or later. */
  ghost predicate Fair(states: nat -> State, steps: nat -> Step) {
    forall n: nat :: !AtRest(states(n)) ==> Stirs(steps, n)
  }

  ghost predicate Recovers(steps: nat -> Step, n: nat) {
    exists m: nat :: m >= n && Succeeds(steps(m))
  }

  /** After a failing read a later one succeeds sooner or later. */
  ghost predicate Retries(steps: nat -> Step) {
    forall n: nat :: Fails(steps(n)) ==> Recovers(steps, n)
  }

  lemma {:induction false} ScheduleKeeps(states: nat -> State, steps: nat -> Step, n: nat, m: nat)
    requires Schedule(states, steps) && Inv(states(n)) && states(n).live && n <= m
    ensures Inv(states(m)) && states(m).live && states(m).inv == states(n).inv
    decreases m - n
  {
    if n < m {
      ScheduleKeeps(states, steps, n, m - 1);
      assert StepOf(states, steps, m - 1);
      BenignDescends(states(m - 1), steps(m - 1));
    }
  }

  /** The first step after `n` that is not a wait finds the stream as it was at `n`. */
  lemma {:induction false} FirstStir(states: nat -> State, steps: nat -> Step, n: nat, m: nat) returns (k: nat)
    requires Schedule(states, steps) && Inv(states(n)) && states(n).live && n <= m && !steps(m).Pass?
    ensures n <= k && !steps(k).Pass? && states(k) == states(n).(now := states(k).now)
    decreases m - n
  {
    if !steps(n).Pass? {
      k := n;
    } else {
      assert StepOf(states, steps, n);
      BenignDescends(states(n), steps(n));
      k := FirstStir(states, steps, n + 1, m);
    }
  }

  lemma {:induction false} NeverOwesMore(states: nat -> State, steps: nat -> Step, n: nat, m: nat)
    requires Schedule(states, steps) && Inv(states(n)) && states(n).live && n <= m
    ensures OwesLess(states(m), states(n)) || OwesTheSame(states(m), states(n))
    decreases m - n
  {
    if n < m {
      NeverOwesMore(states, steps, n, m - 1);
      ScheduleKeeps(states, steps, n, m - 1);
      assert StepOf(states, steps, m - 1);
      BenignDescends(states(m - 1), steps(m - 1));
    }
  }

  lemma {:induction false} StepDescends(states: nat -> State, steps: nat -> Step, k: nat)
    requires Schedule(states, steps) && Inv(states(k)) && states(k).live
    requires !steps(k).Pass? && !Fails(steps(k))
    ensures Inv(states(k + 1)) && states(k + 1).live && Closer(states(k + 1), states(k))
    ensures Succeeds(steps(k)) ==> OwesLess(states(k + 1), states(k))
  {
    assert StepOf(states, steps, k);
    BenignDescends(states(k), steps(k));
  }

  lemma {:induction false} OwesLessThen(s: State, t: State, u: State)
    requires OwesLess(u, t) && (OwesLess(t, s) || OwesTheSame(t, s))
    ensures OwesLess(u, s)
  {}

  /** A failing read is made good. */
  lemma {:induction false} MadeGood(states: nat -> State, steps: nat -> Step, k: nat) returns (m: nat)
    requires Schedule(states, steps) && Retries(steps)
    requires Inv(states(k)) && states(k).live && Fails(steps(k))
    ensures k < m && Inv(states(m)) && states(m).live && OwesLess(states(m), states(k))
  {
    assert Recovers(steps, k);
    m :| m >= k && Succeeds(steps(m));
    ScheduleKeeps(states, steps, k, m);
    NeverOwesMore(states, steps, k, m);
    StepDescends(states, steps, m);
    OwesLessThen(states(k), states(m), states(m + 1));
    m := m + 1;
  }

  /** The next point of a schedule that is closer to rest. */
  lemma {:induction false} ComesCloser(states: nat -> State, steps: nat -> Step, n: nat) returns (k: nat)
    requires Schedule(states, steps) && Fair(states, steps) && Retries(steps)
    requires Inv(states(n)) && states(n).live && !AtRest(states(n))
    ensures n < k && Inv(states(k)) && states(k).live && Closer(states(k), states(n))
  {
    assert Stirs(steps, n);
    var m: nat :| m >= n && !steps(m).Pass?;
    var j := FirstStir(states, steps, n, m);
    ScheduleKeeps(states, steps, n, j);
    if Fails(steps(j)) {
      k := MadeGood(states, steps, j);
    } else {
      StepDescends(states, steps, j);
      k := j + 1;
    }
  }

  lemma {:induction false} RestIsReached(states: nat -> State, steps: nat -> Step, n: nat) returns (k: nat)
    requires Schedule(states, steps) && Fair(states, steps) && Retries(steps)
    requires Inv(states(n)) && states(n).live
    ensures n <= k && AtRest(states(k))
    decreases |states(n).unpublished|, |states(n).queue|, Reads(states(n)), Stages(states(n)), |states(n).st.outbox|
  {
    k := n;
    if !AtRest(states(n)) {
      k := ComesCloser(states, steps, n);
      k := RestIsReached(states, steps, k);
    }
  }

  lemma {:induction false} RestLasts(states: nat -> State, steps: nat -> Step, n: nat, m: nat)
    requires Schedule(states, steps) && AtRest(states(n)) && n <= m
    ensures AtRest(states(m))
    decreases m - n
  {
    if n < m {
      RestLasts(states, steps, n, m - 1);
      assert StepOf(states, steps, m - 1);
    }
  }

  /** Rest comes and stays, and the rows held are then the inventory there was all along. */
  lemma {:induction false} RestForGood(states: nat -> State, steps: nat -> Step) returns (from: nat)
    requires Schedule(states, steps) && Fair(states, steps) && Retries(steps)
    requires Inv(states(0)) && states(0).live
    ensures forall n: nat :: n >= from ==>
      AtRest(states(n)) && states(n).st.held == states(n).inv == states(0).inv
  {
    from := RestIsReached(states, steps, 0);
    forall n: nat | n >= from
      ensures AtRest(states(n)) && states(n).st.held == states(n).inv == states(0).inv
    {
      RestLasts(states, steps, from, n);
      ScheduleKeeps(states, steps, 0, n);
      RestHoldsInventory(states(n));
    }
  }

  /** Eventual convergence: continue any run, however it lagged and failed, with any fair
      schedule in which the backend is left alone; events may still be dropped and reads may
      fail, if only one succeeds sooner or later. From some point on the stream is at rest for
      good and holds exactly the inventory. */
  lemma {:induction false} EventuallyConverges(r: Run, k: nat, states: nat -> State, steps: nat -> Step)
      returns (from: nat)
    requires IsRun(r) && k < |r.states| && r.states[k].live && states(0) == r.states[k]
    requires Schedule(states, steps) && Fair(states, steps) && Retries(steps)
    ensures forall n: nat :: n >= from ==>
      AtRest(states(n)) && states(n).st.held == states(n).inv == r.states[k].inv
  {
    InvAlways(r, k);
    from := RestForGood(states, steps);
  }
}
