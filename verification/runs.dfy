/** Runs of a state machine: the state after the first events, the sum or the list of what the
    events contribute on the way, and the two ways to reason about all of a run at once. */
module Runs {

  // The state after the first `n` events.
  function Run<S, E>(step: (S, E) -> S, s: S, events: seq<E>, n: nat): S
    requires n <= |events|
  {
    if n == 0 then s else step(Run(step, s, events, n - 1), events[n - 1])
  }

  function After<S, E>(step: (S, E) -> S, s: S, events: seq<E>): S { Run(step, s, events, |events|) }

  lemma {:induction false} RunPrefix<S, E>(step: (S, E) -> S, s: S, a: seq<E>, b: seq<E>, n: nat)
    requires n <= |a|
    ensures Run(step, s, a + b, n) == Run(step, s, a, n)
  {
    if n > 0 {
      RunPrefix(step, s, a, b, n - 1);
    }
  }

  lemma OneMore<S, E>(step: (S, E) -> S, s: S, events: seq<E>, e: E)
    ensures After(step, s, events + [e]) == step(After(step, s, events), e)
  {
    RunPrefix(step, s, events, [e], |events|);
  }

  // What the first `n` events contribute to a total.
  function Tally<S, E>(step: (S, E) -> S, s: S, events: seq<E>, n: nat, gain: (S, E) -> int): int
    requires n <= |events|
  {
    if n == 0 then 0
    else Tally(step, s, events, n - 1, gain) + gain(Run(step, s, events, n - 1), events[n - 1])
  }

  // What the first `n` events contribute to a list.
  function Collect<S, E, R>(step: (S, E) -> S, s: S, events: seq<E>, n: nat, rows: (S, E) -> seq<R>): seq<R>
    requires n <= |events|
  {
    if n == 0 then []
    else Collect(step, s, events, n - 1, rows) + rows(Run(step, s, events, n - 1), events[n - 1])
  }

  // What holds at first and is kept by every step holds throughout.
  lemma {:induction false} Invariant<S(!new), E(!new)>(step: (S, E) -> S, s: S, events: seq<E>, n: nat, inv: S -> bool)
    requires n <= |events| && inv(s)
    requires forall x, e :: inv(x) ==> inv(step(x, e))
    ensures inv(Run(step, s, events, n))
  {
    if n > 0 {
      Invariant(step, s, events, n - 1, inv);
    }
  }

  // A state that every event leaves alone is the last one to change.
  lemma {:induction false} Stopped<S, E>(step: (S, E) -> S, s: S, events: seq<E>, n: nat, m: nat)
    requires n <= m <= |events|
    requires forall i :: n <= i < m ==> step(Run(step, s, events, n), events[i]) == Run(step, s, events, n)
    ensures Run(step, s, events, m) == Run(step, s, events, n)
  {
    if n < m {
      Stopped(step, s, events, n, m - 1);
    }
  }

  // The same, for runs whose events all meet a condition in the state they meet.
  lemma {:induction false} GuardedInvariant<S(!new), E(!new)>(step: (S, E) -> S, s: S, events: seq<E>, n: nat,
                                                               inv: S -> bool, allowed: (S, E) -> bool)
    requires n <= |events| && inv(s)
    requires forall i :: 0 <= i < n ==> allowed(Run(step, s, events, i), events[i])
    requires forall x, e :: inv(x) && allowed(x, e) ==> inv(step(x, e))
    ensures inv(Run(step, s, events, n))
  {
    if n > 0 {
      GuardedInvariant(step, s, events, n - 1, inv, allowed);
    }
  }

  // What may also depend on how many events there were.
  lemma {:induction false} CountedInvariant<S, E>(step: (S, E) -> S, s: S, events: seq<E>, n: nat, inv: (nat, S) -> bool)
    requires n <= |events| && inv(0, s)
    requires forall i :: 0 <= i < n && inv(i, Run(step, s, events, i)) ==> inv(i + 1, step(Run(step, s, events, i), events[i]))
    ensures inv(n, Run(step, s, events, n))
  {
    if n > 0 {
      CountedInvariant(step, s, events, n - 1, inv);
      assert inv(n - 1 + 1, step(Run(step, s, events, n - 1), events[n - 1]));
    }
  }

  // If every step changes `measure` by its gain, a run changes it by the sum of the gains.
  lemma {:induction false} Telescope<S(!new), E(!new)>(step: (S, E) -> S, s: S, events: seq<E>, n: nat,
                                                        inv: S -> bool, measure: S -> int, gain: (S, E) -> int)
    requires n <= |events| && inv(s)
    requires forall x, e :: inv(x) ==> inv(step(x, e)) && measure(step(x, e)) == measure(x) + gain(x, e)
    ensures inv(Run(step, s, events, n))
    ensures measure(Run(step, s, events, n)) == measure(s) + Tally(step, s, events, n, gain)
  {
    if n > 0 {
      Telescope(step, s, events, n - 1, inv, measure, gain);
    }
  }

  lemma {:induction false} TallyLinear<S(!new), E(!new)>(step: (S, E) -> S, s: S, events: seq<E>, n: nat,
                                                          a: (S, E) -> int, b: (S, E) -> int, sum: (S, E) -> int)
    requires n <= |events|
    requires forall x, e :: sum(x, e) == a(x, e) + b(x, e)
    ensures Tally(step, s, events, n, sum) == Tally(step, s, events, n, a) + Tally(step, s, events, n, b)
  {
    if n > 0 {
      TallyLinear(step, s, events, n - 1, a, b, sum);
    }
  }

  lemma {:induction false} TallyNothing<S, E>(step: (S, E) -> S, s: S, events: seq<E>, n: nat, gain: (S, E) -> int)
    requires n <= |events|
    requires forall i :: 0 <= i < n ==> gain(Run(step, s, events, i), events[i]) == 0
    ensures Tally(step, s, events, n, gain) == 0
  {
    if n > 0 {
      TallyNothing(step, s, events, n - 1, gain);
    }
  }

  lemma {:induction false} CollectNothing<S, E, R>(step: (S, E) -> S, s: S, events: seq<E>, n: nat, rows: (S, E) -> seq<R>)
    requires n <= |events|
    requires forall i :: 0 <= i < n ==> rows(Run(step, s, events, i), events[i]) == []
    ensures Collect(step, s, events, n, rows) == []
  {
    if n > 0 {
      CollectNothing(step, s, events, n - 1, rows);
    }
  }

  // If every step that does anything lowers `measure`, so many steps at most do.
  lemma {:induction false} Descends<S(!new), E(!new)>(step: (S, E) -> S, s: S, events: seq<E>, n: nat, measure: S -> nat)
    requires n <= |events|
    requires forall x, e :: step(x, e) != x ==> measure(step(x, e)) < measure(x)
    requires forall i :: 0 <= i < n ==> Run(step, s, events, i + 1) != Run(step, s, events, i)
    ensures n + measure(Run(step, s, events, n)) <= measure(s)
  {
    if n > 0 {
      Descends(step, s, events, n - 1, measure);
      assert Run(step, s, events, n - 1 + 1) != Run(step, s, events, n - 1);
    }
  }

  // ---- Refinement ----

  function MaybeOne<T, O>(exec: (T, O) -> T, t: T, ops: seq<O>): T { if ops == [] then t else exec(t, ops[0]) }

  lemma AfterAtMostOne<T, O>(exec: (T, O) -> T, t: T, ops: seq<O>, more: seq<O>)
    requires |more| <= 1
    ensures After(exec, t, ops + more) == MaybeOne(exec, After(exec, t, ops), more)
  {
    if more == [] {
      assert ops + more == ops;
    } else {
      assert more == [more[0]];
      OneMore(exec, t, ops, more[0]);
    }
  }

  // If every event is at most one operation on what it tracks, a run is the operations in order.
  lemma {:induction false} Refines<S(!new), E(!new), T(!new), O>(step: (S, E) -> S, s: S, events: seq<E>, n: nat,
                                                                 ops: (S, E) -> seq<O>, exec: (T, O) -> T, t: T,
                                                                 tracks: (T, S) -> bool)
    requires n <= |events| && tracks(t, s)
    requires forall x, y, e :: tracks(y, x) ==> |ops(x, e)| <= 1 && tracks(MaybeOne(exec, y, ops(x, e)), step(x, e))
    ensures tracks(After(exec, t, Collect(step, s, events, n, ops)), Run(step, s, events, n))
  {
    if n > 0 {
      Refines(step, s, events, n - 1, ops, exec, t, tracks);
      var before, x := Collect(step, s, events, n - 1, ops), Run(step, s, events, n - 1);
      assert |ops(x, events[n - 1])| <= 1;
      AfterAtMostOne(exec, t, before, ops(x, events[n - 1]));
    }
  }
}
