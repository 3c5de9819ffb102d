/** The client gets there: once the backend is left alone, the client of a `WatchAgents` stream
    ends up with its inventory, through the bounded channel and under every fair schedule. */
module WatchLiveness {
  import opened WatchEndToEnd   // with its abbreviations S, R and W
  import C = WatchRecovery

  /** The replication protocol's part of a step; a move on the delivery path is none. */
  function Own(step: NodeStep): S.Step {
    match step
    case Env(e) => e
    case Loop(a) => a
    case Open(list, _) => S.Open(list)
    case Hand => S.Hand
    case Path(_) => S.Pass(0)
  }

  /** The backend is left alone, and neither the token, the bus nor the client goes. */
  predicate Benign(n: Node, step: NodeStep) {
    match step
    case Path(m) => m.Permit? || m.Look? || m.Receive?
    case _ => C.Benign(n.sys, Own(step))
  }

  /** Waiting, looking at the lane, and polling an empty channel get nothing done. */
  predicate Idle(n: Node, step: NodeStep) {
    Own(step).Pass? && step != Path(W.Permit) && (step == Path(W.Receive) ==> n.pipe.stream.rx == [])
  }

  ghost predicate Live(n: Node) {
    Inv(n) && n.pipe.loop.Running? && n.pipe.client
  }

  /** The stream is at rest and the client has read all of it. */
  ghost predicate Settled(n: Node) {
    C.AtRest(n.sys) && CaughtUp(n)
  }

  /** The messages on the way: held by the loop, and in the channel. */
  function InHand(n: Node): nat {
    if n.pipe.inHand.None? then 0 else 1
  }

  function Queued(n: Node): nat {
    |n.pipe.stream.rx|
  }

  /** Same as before, but for the clock and the poll under way. */
  ghost predicate Unmoved(n: Node, m: Node) {
    m == Node(n.sys.(now := m.sys.now), n.pipe.(passed := m.pipe.passed))
  }

  lemma {:induction false} LiveStream(n: Node)
    requires Live(n)
    ensures n.sys.live && n.pipe.stream == W.StreamView(n.pipe.stream.rx, true, W.Armed, true, false)
  {}

  /** A step moves the protocol as its own part does. */
  lemma {:induction false} OwnPart(n: Node, step: NodeStep)
    requires Live(n) && Benign(n, step) && Can(n, step)
    ensures S.Enabled(n.sys, Own(step)) && C.Benign(n.sys, Own(step))
    ensures Do(n, step).sys == S.Do(n.sys, Own(step)) && Live(Do(n, step))
  {
    KeepNode(n, step);
    LiveStream(n);
  }

  /** An idle step leaves everything in place; a move of a message along the path brings it
      nearer to the client. */
  lemma {:induction false} PathDescends(n: Node, step: NodeStep)
    requires Live(n) && Benign(n, step) && Can(n, step) && Own(step).Pass?
    ensures var m := Do(n, step);
      if Idle(n, step) then Unmoved(n, m)
      else m.sys == n.sys && (InHand(m) < InHand(n) || (InHand(m) == InHand(n) && Queued(m) < Queued(n)))
  {
    LiveStream(n);
  }

  // ----- never stuck -----------------------------------------------------------------

  /** After the idle step `idle` the benign step `step` can be taken, and is not idle. */
  ghost predicate Opens(n: Node, idle: NodeStep, step: NodeStep) {
    && Benign(n, idle) && Can(n, idle) && Idle(n, idle)
    && var m := Do(n, idle); Benign(m, step) && Can(m, step) && !Idle(m, step)
  }

  lemma {:induction false} MessageMoves(n: Node) returns (idle: NodeStep, step: NodeStep)
    requires Live(n) && (n.pipe.inHand.Some? || n.pipe.stream.rx != [])
    ensures Opens(n, idle, step)
  {
    LiveStream(n);
    idle := Env(S.Pass(0));
    if n.pipe.stream.rx == [] {
      step := Path(W.Permit);
    } else {
      step := Path(W.Receive);
      if !n.pipe.passed { idle := Path(W.Look); }
    }
  }

  /** A live node that is not settled is never stuck: after at most a wait or a look at the
      lane some step gets on with it. */
  lemma {:induction false} NeverStuck(n: Node) returns (idle: NodeStep, step: NodeStep)
    requires Live(n) && !Settled(n)
    ensures Opens(n, idle, step)
  {
    LiveStream(n);
    if n.pipe.inHand.Some? || n.pipe.stream.rx != [] {
      idle, step := MessageMoves(n);
    } else {
      var wait, own := C.NeverStuck(n.sys);
      idle := Env(S.Pass(wait));
      step := if own.Hand? then Hand else if own.Publish? || own.Capture? then Env(own) else Loop(own);
    }
  }

  // ----- fair schedules --------------------------------------------------------------

  ghost predicate StepOf(nodes: nat -> Node, steps: nat -> NodeStep, i: nat) {
    Benign(nodes(i), steps(i)) && Can(nodes(i), steps(i)) && nodes(i + 1) == Do(nodes(i), steps(i))
  }

  ghost predicate Schedule(nodes: nat -> Node, steps: nat -> NodeStep) {
    forall i: nat :: StepOf(nodes, steps, i)
  }

  ghost predicate Stirs(nodes: nat -> Node, steps: nat -> NodeStep, i: nat) {
    exists j: nat :: j >= i && !Idle(nodes(j), steps(j))
  }

  /** Until it is settled, sooner or later a step is taken that is not idle: the loop is
      scheduled and the client keeps polling. */
  ghost predicate Fair(nodes: nat -> Node, steps: nat -> NodeStep) {
    forall i: nat :: !Settled(nodes(i)) ==> Stirs(nodes, steps, i)
  }

  /** After a failing read a later one succeeds sooner or later. */
  ghost predicate Retries(steps: nat -> NodeStep) {
    C.Retries((i: nat) => Own(steps(i)))
  }

  lemma {:induction false} NextLive(nodes: nat -> Node, steps: nat -> NodeStep, i: nat)
    requires Schedule(nodes, steps) && Live(nodes(i))
    ensures Live(nodes(i + 1))
  {
    assert StepOf(nodes, steps, i);
    OwnPart(nodes(i), steps(i));
  }

  lemma {:induction false} StaysLive(nodes: nat -> Node, steps: nat -> NodeStep, i: nat, j: nat)
    requires Schedule(nodes, steps) && Live(nodes(i)) && i <= j
    ensures Live(nodes(j))
    decreases j - i
  {
    if i < j {
      StaysLive(nodes, steps, i, j - 1);
      NextLive(nodes, steps, j - 1);
    }
  }

  lemma {:induction false} StepDescends(nodes: nat -> Node, steps: nat -> NodeStep, i: nat)
    requires Schedule(nodes, steps) && Live(nodes(i)) && Own(steps(i)).Pass?
    ensures Live(nodes(i + 1))
    ensures if Idle(nodes(i), steps(i)) then Unmoved(nodes(i), nodes(i + 1)) else
      && nodes(i + 1).sys == nodes(i).sys
      && (InHand(nodes(i + 1)) < InHand(nodes(i)) ||
          (InHand(nodes(i + 1)) == InHand(nodes(i)) && Queued(nodes(i + 1)) < Queued(nodes(i))))
  {
    assert StepOf(nodes, steps, i);
    OwnPart(nodes(i), steps(i));
    PathDescends(nodes(i), steps(i));
  }

  /** The first step from `i` on that is not idle finds the node as it was at `i`. */
  lemma {:induction false} FirstStir(nodes: nat -> Node, steps: nat -> NodeStep, i: nat, j: nat) returns (k: nat)
    requires Schedule(nodes, steps) && Live(nodes(i)) && i <= j && !Idle(nodes(j), steps(j))
    ensures i <= k && !Idle(nodes(k), steps(k)) && Live(nodes(k)) && Unmoved(nodes(i), nodes(k))
    decreases j - i
  {
    if !Idle(nodes(i), steps(i)) {
      k := i;
    } else {
      StepDescends(nodes, steps, i);
      k := FirstStir(nodes, steps, i + 1, j);
    }
  }

  lemma {:induction false} NextStir(nodes: nat -> Node, steps: nat -> NodeStep, i: nat) returns (k: nat)
    requires Schedule(nodes, steps) && Fair(nodes, steps) && Live(nodes(i)) && !Settled(nodes(i))
    ensures i <= k && !Idle(nodes(k), steps(k)) && Live(nodes(k)) && Unmoved(nodes(i), nodes(k))
  {
    assert Stirs(nodes, steps, i);
    var j: nat :| j >= i && !Idle(nodes(j), steps(j));
    k := FirstStir(nodes, steps, i, j);
  }

  /** Deliveries alone cannot go on forever: short of rest the protocol moves. */
  lemma {:induction false} ProtocolStirs(nodes: nat -> Node, steps: nat -> NodeStep, i: nat) returns (k: nat)
    requires Schedule(nodes, steps) && Fair(nodes, steps) && Live(nodes(i)) && !C.AtRest(nodes(i).sys)
    ensures i <= k && !Own(steps(k)).Pass?
    decreases InHand(nodes(i)), Queued(nodes(i))
  {
    k := NextStir(nodes, steps, i);
    if Own(steps(k)).Pass? {
      StepDescends(nodes, steps, k);
      k := ProtocolStirs(nodes, steps, k + 1);
    }
  }

  /** The protocol's own schedule. */
  lemma {:induction false} OwnSchedule(nodes: nat -> Node, steps: nat -> NodeStep,
                                       states: nat -> S.State, acts: nat -> S.Step)
    requires Schedule(nodes, steps) && Fair(nodes, steps) && Live(nodes(0))
    requires forall i: nat :: states(i) == nodes(i).sys && acts(i) == Own(steps(i))
    ensures C.Schedule(states, acts) && C.Fair(states, acts)
  {
    forall i: nat ensures C.StepOf(states, acts, i) {
      StaysLive(nodes, steps, 0, i);
      assert StepOf(nodes, steps, i);
      OwnPart(nodes(i), steps(i));
      assert states(i + 1) == nodes(i + 1).sys;
    }
    forall i: nat | !C.AtRest(states(i)) ensures C.Stirs(acts, i) {
      StaysLive(nodes, steps, 0, i);
      var k := ProtocolStirs(nodes, steps, i);
      assert !acts(k).Pass?;
    }
  }

  /** At rest only deliveries and waits are left. */
  lemma {:induction false} RestPasses(n: Node, step: NodeStep)
    requires Live(n) && C.AtRest(n.sys) && Benign(n, step) && Can(n, step)
    ensures Own(step).Pass?
  {}

  lemma {:induction false} Drains(nodes: nat -> Node, steps: nat -> NodeStep, i: nat) returns (k: nat)
    requires Schedule(nodes, steps) && Fair(nodes, steps) && Live(nodes(i)) && C.AtRest(nodes(i).sys)
    ensures i <= k && Settled(nodes(k)) && Live(nodes(k))
    decreases InHand(nodes(i)), Queued(nodes(i))
  {
    k := i;
    if !Settled(nodes(i)) {
      k := NextStir(nodes, steps, i);
      assert StepOf(nodes, steps, k);
      RestPasses(nodes(k), steps(k));
      StepDescends(nodes, steps, k);
      k := Drains(nodes, steps, k + 1);
    }
  }

  lemma {:induction false} SettledStep(n: Node, step: NodeStep)
    requires Live(n) && Settled(n) && Benign(n, step) && Can(n, step)
    ensures var m := Do(n, step); Live(m) && Settled(m) && m.sys.inv == n.sys.inv
  {
    RestPasses(n, step);
    OwnPart(n, step);
    PathDescends(n, step);
    assert InHand(n) == 0 && Queued(n) == 0;
  }

  lemma {:induction false} SettledLasts(nodes: nat -> Node, steps: nat -> NodeStep, i: nat, j: nat)
    requires Schedule(nodes, steps) && Live(nodes(i)) && Settled(nodes(i)) && i <= j
    ensures Live(nodes(j)) && Settled(nodes(j)) && nodes(j).sys.inv == nodes(i).sys.inv
    decreases j - i
  {
    if i < j {
      SettledLasts(nodes, steps, i, j - 1);
      assert StepOf(nodes, steps, j - 1);
      SettledStep(nodes(j - 1), steps(j - 1));
    }
  }

  /** A settled client holds the inventory. */
  lemma {:induction false} SettledHolds(n: Node)
    requires Inv(n) && Settled(n)
    ensures ClientRows(n) == n.sys.inv
  {
    assert W.Items(n.pipe.seen) == S.Decided(n.sys);
    R.RestHoldsInventory(n.sys);
  }

  /** Eventual delivery: continue any run whose loop runs and whose client is there with any
      fair schedule in which the backend is left alone and no failing read stays the last.
      From some point on nothing is on its way and the client holds exactly the inventory. */
  lemma {:induction false} ClientEventuallyConverges(r: NodeRun, k: nat, nodes: nat -> Node, steps: nat -> NodeStep)
      returns (from: nat)
    requires IsRun(r) && k < |r.nodes| && nodes(0) == r.nodes[k]
    requires r.nodes[k].pipe.loop.Running? && r.nodes[k].pipe.client
    requires Schedule(nodes, steps) && Fair(nodes, steps) && Retries(steps)
    ensures forall i: nat :: i >= from ==>
      Settled(nodes(i)) && ClientRows(nodes(i)) == nodes(i).sys.inv == r.nodes[k].sys.inv
  {
    InvAlways(r, k);
    LiveStream(nodes(0));
    var states, acts := (i: nat) => nodes(i).sys, (i: nat) => Own(steps(i));
    OwnSchedule(nodes, steps, states, acts);
    var rest := C.RestForGood(states, acts);
    assert C.AtRest(states(rest)) && states(rest).inv == states(0).inv;
    StaysLive(nodes, steps, 0, rest);
    from := Drains(nodes, steps, rest);
    assert C.AtRest(states(from)) && states(from).inv == states(0).inv;
    forall i: nat | i >= from
      ensures Settled(nodes(i)) && ClientRows(nodes(i)) == nodes(i).sys.inv == r.nodes[k].sys.inv
    {
      SettledLasts(nodes, steps, from, i);
      SettledHolds(nodes(i));
    }
  }
}
