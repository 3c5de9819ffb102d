/** Counting instants that are kept a minimum distance apart: the arithmetic behind the
    re-read debounce and the heartbeat. */
module Spacing {
  import opened Prelude

  ghost predicate Spaced(times: seq<nat>, gap: nat) {
    forall i :: 0 < i < |times| ==> times[i - 1] + gap <= times[i]
  }

  /** How many of `times` fall in `[from, to]`. */
  ghost function CountIn(times: seq<nat>, from: nat, to: nat): nat {
    if times == [] then 0 else
    CountIn(DropLast(times), from, to) + if from <= Last(times) <= to then 1 else 0
  }

  lemma {:induction false} SpacedBelow(times: seq<nat>, gap: nat, from: nat, to: nat)
    requires Spaced(times, gap) && (times == [] || Last(times) < from)
    ensures CountIn(times, from, to) == 0
  {
    if times != [] { SpacedBelow(DropLast(times), gap, from, to); }
  }

  lemma {:induction false} CountUpToLast(times: seq<nat>, gap: nat, from: nat, to: nat)
    requires Spaced(times, gap) && times != [] && from <= Last(times) <= to
    ensures CountIn(times, from, to) * gap <= Last(times) - from + gap
  {
    var front := DropLast(times);
    if front != [] && from <= Last(front) {
      CountUpToLast(front, gap, from, to);
      calc {
        CountIn(times, from, to) * gap;
        (CountIn(front, from, to) + 1) * gap;
        CountIn(front, from, to) * gap + gap;
      }
    } else {
      SpacedBelow(front, gap, from, to);
    }
  }

  /** A window of length L holds at most L/gap + 1 spaced instants. */
  lemma {:induction false} WindowBound(times: seq<nat>, gap: nat, from: nat, to: nat)
    requires Spaced(times, gap) && gap > 0 && from <= to
    ensures CountIn(times, from, to) <= (to - from) / gap + 1
    decreases |times|
  {
    if times == [] {
    } else if Last(times) > to {
      WindowBound(DropLast(times), gap, from, to);
    } else if Last(times) < from {
      SpacedBelow(times, gap, from, to);
    } else {
      CountUpToLast(times, gap, from, to);
      DivBound(CountIn(times, from, to), gap, to - from);
    }
  }

  lemma {:induction false} MulMono(a: nat, b: nat, c: nat)
    requires a <= b
    ensures a * c <= b * c
  {}

  lemma {:induction false} DivBound(n: nat, gap: nat, len: nat)
    requires gap > 0 && n * gap <= len + gap
    ensures n <= len / gap + 1
  {
    var q := len / gap;
    if n >= q + 2 {
      MulMono(q + 2, n, gap);
      assert false;
    }
  }
}
