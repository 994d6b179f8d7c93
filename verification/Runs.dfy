/** Runs of a step system: a state and a sequence of events, one step each. */
module Runs {
  ghost function Run<S, E>(next: (S, E) -> S, s: S, events: seq<E>): S
    decreases |events|
  {
    if events == [] then s else Run(next, next(s, events[0]), events[1..])
  }

  lemma {:induction false} RunAppends<S, E>(next: (S, E) -> S, s: S, a: seq<E>, b: seq<E>)
    ensures Run(next, s, a + b) == Run(next, Run(next, s, a), b)
    decreases |a|
  {
    if a == [] {
      assert a + b == b;
    } else {
      assert (a + b)[0] == a[0] && (a + b)[1..] == a[1..] + b;
      RunAppends(next, next(s, a[0]), a[1..], b);
    }
  }

  /** The last step of a run. */
  lemma RunLast<S, E>(next: (S, E) -> S, s: S, events: seq<E>)
    requires events != []
    ensures var n := |events| - 1; Run(next, s, events) == next(Run(next, s, events[..n]), events[n])
  {
    var n := |events| - 1;
    assert events == events[..n] + [events[n]];
    RunAppends(next, s, events[..n], [events[n]]);
  }

  lemma TwoSteps<S, E>(next: (S, E) -> S, s: S, a: E, b: E)
    ensures Run(next, s, [a, b]) == next(next(s, a), b)
  {
    assert [a, b][1..] == [b];
    assert Run(next, next(s, a), [b]) == next(next(s, a), b);
  }

  lemma ThreeSteps<S, E>(next: (S, E) -> S, s: S, a: E, b: E, c: E)
    ensures Run(next, s, [a, b, c]) == next(next(next(s, a), b), c)
  {
    assert [a, b, c][1..] == [b, c];
    TwoSteps(next, next(s, a), b, c);
  }

  lemma FiveSteps<S, E>(next: (S, E) -> S, s: S, a: E, b: E, c: E, d: E, e: E)
    ensures Run(next, s, [a, b, c, d, e]) == next(next(next(next(next(s, a), b), c), d), e)
  {
    assert [a, b, c, d, e] == [a, b] + [c, d, e];
    RunAppends(next, s, [a, b], [c, d, e]);
    TwoSteps(next, s, a, b);
    ThreeSteps(next, next(next(s, a), b), c, d, e);
  }

  /** The state after the first n events. */
  ghost function After<S, E>(next: (S, E) -> S, s: S, events: seq<E>, n: nat): S
    requires n <= |events|
  {
    if n == 0 then s else next(After(next, s, events, n - 1), events[n - 1])
  }

  lemma {:induction false} AfterIsRun<S, E>(next: (S, E) -> S, s: S, events: seq<E>, n: nat)
    requires n <= |events|
    ensures After(next, s, events, n) == Run(next, s, events[..n])
  {
    if n > 0 {
      AfterIsRun(next, s, events, n - 1);
      RunLast(next, s, events[..n]);
      assert events[..n][..n - 1] == events[..n - 1];
    }
  }

  lemma AfterTheEnd<S, E>(next: (S, E) -> S, s: S, events: seq<E>)
    ensures After(next, s, events, |events|) == Run(next, s, events)
  {
    AfterIsRun(next, s, events, |events|);
    assert events[..|events|] == events;
  }

  /** What has changed between two states has changed in one step. */
  lemma {:induction false} ChangingStep<S, E>(next: (S, E) -> S, changed: S -> bool, s: S, events: seq<E>, m: nat, n: nat)
    returns (i: nat)
    requires m <= n <= |events| && !changed(After(next, s, events, m)) && changed(After(next, s, events, n))
    ensures m <= i < n && !changed(After(next, s, events, i)) && changed(After(next, s, events, i + 1))
    decreases n
  {
    if changed(After(next, s, events, n - 1)) {
      i := ChangingStep(next, changed, s, events, m, n - 1);
    } else {
      i := n - 1;
    }
  }

  /** What starts at some step and does not end at a later one, up to step n. */
  ghost predicate Lasts(starts: nat -> bool, ends: nat -> bool, n: nat) {
    exists i: nat :: i < n && starts(i) && forall j: nat | i < j < n :: !ends(j)
  }

  lemma LastsNext(starts: nat -> bool, ends: nat -> bool, n: nat)
    ensures Lasts(starts, ends, n + 1) <==> starts(n) || (Lasts(starts, ends, n) && !ends(n))
  {
    if Lasts(starts, ends, n + 1) && !starts(n) {
      var i: nat :| i < n + 1 && starts(i) && forall j: nat | i < j < n + 1 :: !ends(j);
      assert i < n && forall j: nat | i < j < n :: !ends(j);
    }
  }
}
