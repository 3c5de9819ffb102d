/** What the input pump does to the user's own events, said of the events themselves: presses,
    buttons, wheel and pasted text pass, the pointer's latest place passes, nothing else does. */
module InputEvents {
  import opened Prelude
  import opened InputPumps

  /** What the user did on purpose: keys pressed, buttons and wheel, text pasted. */
  predicate Intended(e: Event) {
    match e
    case Key(kind, _) => kind == Press
    case Mouse(mouse, _, _) => mouse != Moved
    case Paste(_) => true
    case _ => false
  }

  /** The pointer moved. */
  predicate Moves(e: Event) {
    e.Mouse? && e.mouse == Moved
  }

  function Intents(s: seq<Event>): seq<Event> {
    if s == [] then [] else Intents(DropLast(s)) + if Intended(Last(s)) then [Last(s)] else []
  }

  /** Only input a user gave. */
  ghost predicate OnlyInput(s: seq<Event>) {
    forall e :: e in s ==> Intended(e) || Moves(e)
  }

  lemma {:induction false} IntentsAreOwed(s: seq<Event>)
    ensures Intents(s) == NonMoves(Kept(s))
  {
    if s != [] {
      IntentsAreOwed(DropLast(s));
      var front := Kept(DropLast(s));
      if Keep(Last(s)) {
        assert DropLast(front + [Last(s)]) == front;
      } else {
        assert front + [] == front;
      }
    }
  }

  lemma {:induction false} InputNonMoves(s: seq<Event>)
    requires OnlyInput(s)
    ensures Intents(s) == NonMoves(s)
  {
    if s != [] {
      assert Last(s) in s;
      InputNonMoves(DropLast(s));
    }
  }

  lemma {:induction false} KeptIsInput(s: seq<Event>)
    ensures OnlyInput(Kept(s))
  {
    if s != [] { KeptIsInput(DropLast(s)); }
  }

  lemma {:induction false} CoalescedIsInput(s: seq<Event>)
    requires OnlyInput(s)
    ensures OnlyInput(Coalesced(s))
  {
    if s != [] { CoalescedIsInput(s[1..]); }
  }

  lemma {:induction false} RoutedIsInput(pending: seq<Event>)
    requires OnlyInput(pending)
    ensures var (e, rest) := Routed(pending); OnlyInput(rest) && (e.Some? ==> OnlyInput([e.value]))
  {
    if pending != [] {
      RoutesLatestMove(pending);
    }
  }

  /** No release, repeat, resize or focus event is ever pending or routed. */
  lemma {:induction false} NothingElsePasses(source: seq<Answer>, ops: seq<Op>)
    ensures OnlyInput(Turns(source, ops).routed) && OnlyInput(Turns(source, ops).pending)
  {
    if ops != [] {
      NothingElsePasses(source, DropLast(ops));
      var s := Turns(source, DropLast(ops));
      RoutedIsInput(s.pending);
      var raw := Gathered(s.answers, MAX_EVENTS_PER_TICK).0;
      KeptIsInput(raw);
      CoalescedIsInput(Kept(raw));
    }
  }

  /** Every press, button, wheel and paste of a fill that succeeded is routed or pending, once
      and in order; so only a pointer move is ever superseded. */
  lemma {:induction false} IntentsPass(source: seq<Answer>, ops: seq<Op>)
    ensures var s := Turns(source, ops); Intents(s.routed) + Intents(s.pending) == Intents(s.batched)
  {
    var s := Turns(source, ops);
    BatchesArePassedOn(source, ops);
    NothingElsePasses(source, ops);
    InputNonMoves(s.routed);
    InputNonMoves(s.pending);
    IntentsAreOwed(s.batched);
  }

  // ----- the pointer's latest place --------------------------------------------------

  lemma {:induction false} CoalescedSplit(a: seq<Event>, m: Event, b: seq<Event>)
    requires b == [] || !Moves(b[0])
    ensures Coalesced(a + [m] + b) == Coalesced(a + [m]) + Coalesced(b)
  {
    if a == [] {
      assert [m] + b == [] + [m] + b && ([m] + b)[1..] == b && [] + [m] == [m];
      assert Coalesced([m]) == [m];
    } else {
      CoalescedSplit(a[1..], m, b);
      assert (a + [m] + b)[1..] == a[1..] + [m] + b && (a + [m])[1..] == a[1..] + [m];
      Regroup([a[0]], Coalesced(a[1..] + [m]), Coalesced(b));
    }
  }

  lemma {:induction false} NoneKept(s: seq<Event>)
    requires forall e :: e in s ==> !Intended(e) && !Moves(e)
    ensures Kept(s) == []
  {
    if s != [] {
      assert Last(s) in s;
      NoneKept(DropLast(s));
    }
  }

  lemma {:induction false} KeptHead(e: Event, s: seq<Event>)
    requires Intended(e) || Moves(e)
    ensures Kept([e] + s) == [e] + Kept(s)
  {
    KeptConcat([e], s);
    assert DropLast([e]) == [];
  }

  /** A pointer move that the batch follows with no other move before the next thing the user
      does, or to its end, is kept, in its place. */
  lemma {:induction false} LatestMovePasses(a: seq<Event>, m: Event, noise: seq<Event>, b: seq<Event>)
    requires Moves(m) && (forall e :: e in noise ==> !Intended(e) && !Moves(e)) && (b == [] || Intended(b[0]))
    ensures Coalesced(Kept(a + [m] + noise + b)) == Coalesced(Kept(a + [m])) + Coalesced(Kept(b))
    ensures Coalesced(Kept(a + [m])) != [] && Last(Coalesced(Kept(a + [m]))) == m
  {
    NoneKept(noise);
    KeptConcat(a + [m] + noise, b);
    KeptConcat(a + [m], noise);
    KeptConcat(a, [m]);
    assert Kept([m]) == [m] by { assert DropLast([m]) == []; }
    assert Kept(a + [m]) + [] == Kept(a) + [m];
    if b != [] {
      assert b == [b[0]] + b[1..];
      KeptHead(b[0], b[1..]);
    }
    CoalescedSplit(Kept(a), m, Kept(b));
    CoalescedLast(Kept(a) + [m]);
  }

  lemma {:induction false} RoutedStaysSettled(pending: seq<Event>)
    requires Settled(pending)
    ensures Settled(Routed(pending).1)
  {
    if pending != [] { RoutesLatestMove(pending); }
  }

  /** Of several moves in a row only the last is ever pending. */
  lemma {:induction false} PendingIsSettled(source: seq<Answer>, ops: seq<Op>)
    ensures var s := Turns(source, ops).pending;
      forall i :: 0 < i < |s| ==> !(Moves(s[i - 1]) && Moves(s[i]))
  {
    PendingSettles(source, ops);
  }

  lemma {:induction false} PendingSettles(source: seq<Answer>, ops: seq<Op>)
    ensures Settled(Turns(source, ops).pending)
  {
    if ops != [] {
      PendingSettles(source, DropLast(ops));
      var s := Turns(source, DropLast(ops));
      RoutedStaysSettled(s.pending);
      CoalescedSettles(Kept(Gathered(s.answers, MAX_EVENTS_PER_TICK).0));
    }
  }
}
