/** Turning one keyed table into another by removals and additions, over calls that may fail
    before or after taking effect.

    Keys stand for e-mail tags and values for users; `same` decides which values count as
    equal, `mine` which keys the reconciler owns, and `norm` how it reads a value. */
module Reconcile {
  import opened Results
  import opened Runs

  // How a call ends: it is carried out, unless the other side refuses it with a message, or
  // it fails, after or before taking effect.
  datatype Call = Done(refusal: string) | Fails(applied: bool, message: string) {
    function Refusal(): string { if Done? then refusal else message }
  }

  // ---- Distance ----

  // The keys that need no call.
  function Kept<K, V>(same: (V, V) -> bool, target: map<K, V>, now: map<K, V>): set<K> {
    set k | k in target && k in now && same(now[k], target[k])
  }

  function Stale<K, V>(same: (V, V) -> bool, target: map<K, V>, now: map<K, V>): set<K> {
    set k | k in now && !(k in target && same(now[k], target[k]))
  }

  function Missing<K, V>(same: (V, V) -> bool, target: map<K, V>, now: map<K, V>): set<K> {
    set k | k in target && !(k in now && same(now[k], target[k]))
  }

  // Calls that separate a table from the target; a changed value counts twice.
  function Distance<K, V>(same: (V, V) -> bool, target: map<K, V>, now: map<K, V>): nat {
    |Stale(same, target, now)| + |Missing(same, target, now)|
  }

  predicate Agree<K, V>(same: (V, V) -> bool, target: map<K, V>, now: map<K, V>) {
    target.Keys == now.Keys && forall k :: k in target ==> same(now[k], target[k])
  }

  ghost predicate Reflexive<V(!new)>(same: (V, V) -> bool) { forall v :: same(v, v) }

  lemma ZeroDistance<K, V>(same: (V, V) -> bool, target: map<K, V>, now: map<K, V>)
    ensures Distance(same, target, now) == 0 <==> Agree(same, target, now)
  {
    if Distance(same, target, now) == 0 {
      assert Stale(same, target, now) == {} && Missing(same, target, now) == {};
      forall k ensures k in target <==> k in now {
        assert k !in Stale(same, target, now) && k !in Missing(same, target, now);
      }
      forall k | k in target ensures same(now[k], target[k]) {
        assert k !in Missing(same, target, now);
      }
    }
    if Agree(same, target, now) {
      assert Stale(same, target, now) == {} && Missing(same, target, now) == {};
    }
  }

  lemma RemovalLowers<K, V>(same: (V, V) -> bool, target: map<K, V>, now: map<K, V>, k: K)
    requires k in Stale(same, target, now)
    ensures Distance(same, target, now - {k}) == Distance(same, target, now) - 1
  {
    var next := now - {k};
    assert Stale(same, target, now) == Stale(same, target, next) + {k};
    assert Missing(same, target, now) == Missing(same, target, next);
  }

  lemma AdditionStalesNothing<K, V>(same: (V, V) -> bool, target: map<K, V>, now: map<K, V>, k: K)
    requires k in target && k !in now && same(target[k], target[k])
    ensures Stale(same, target, now[k := target[k]]) == Stale(same, target, now)
  {
  }

  lemma AdditionFills<K, V>(same: (V, V) -> bool, target: map<K, V>, now: map<K, V>, k: K)
    requires k in target && k !in now && same(target[k], target[k])
    ensures Missing(same, target, now) == Missing(same, target, now[k := target[k]]) + {k}
    ensures k !in Missing(same, target, now[k := target[k]])
  {
  }

  lemma AdditionLowers<K, V(!new)>(same: (V, V) -> bool, target: map<K, V>, now: map<K, V>, k: K)
    requires Reflexive(same) && k in target && k !in now
    ensures Distance(same, target, now[k := target[k]]) == Distance(same, target, now) - 1
  {
    assert same(target[k], target[k]);
    AdditionStalesNothing(same, target, now, k);
    AdditionFills(same, target, now, k);
  }

  // ---- Calls ----

  datatype Reply<K, V> = Reply(table: map<K, V>, error: Option<string>)

  function RemoveCall<K, V>(table: map<K, V>, k: K, call: Call): Reply<K, V> {
    if call.Fails? && !call.applied then Reply(table, Some(call.message))
    else if k !in table then Reply(table, Some(call.Refusal()))
    else Reply(table - {k}, if call.Done? then None else Some(call.message))
  }

  function AddCall<K, V>(table: map<K, V>, k: K, v: V, call: Call): Reply<K, V> {
    if call.Fails? && !call.applied then Reply(table, Some(call.message))
    else if k in table then Reply(table, Some(call.Refusal()))
    else Reply(table[k := v], if call.Done? then None else Some(call.message))
  }

  // How far a loop has got: the table, the successful calls, the error that stopped it.
  // `silent` says that the failing call took effect, `misused` that some call removed an
  // absent key or added a present one.
  datatype Progress<K, V> = Progress(table: map<K, V>, count: nat, error: Option<string>, silent: bool, misused: bool)

  function Begin<K, V>(table: map<K, V>): Progress<K, V> { Progress(table, 0, None, false, false) }

  function RemoveOne<K, V>(p: Progress<K, V>, kept: set<K>, k: K, call: Call): Progress<K, V> {
    if p.error.Some? || k in kept then p
    else
      var r := RemoveCall(p.table, k, call);
      Progress(r.table, if r.error.None? then p.count + 1 else p.count, r.error,
               r.error.Some? && (k in p.table) != (k in r.table), p.misused || k !in p.table)
  }

  // Only keys of the target are ever added.
  function AddOne<K, V>(p: Progress<K, V>, target: map<K, V>, kept: set<K>, k: K, call: Call): Progress<K, V> {
    if p.error.Some? || k in kept || k !in target then p
    else
      var r := AddCall(p.table, k, target[k], call);
      Progress(r.table, if r.error.None? then p.count + 1 else p.count, r.error,
               r.error.Some? && (k in p.table) != (k in r.table), p.misused || k in p.table)
  }

  // The bodies of the two loops; `calls` says how the call for each key ends.
  function Remover<K, V>(kept: set<K>, calls: K -> Call): (Progress<K, V>, K) -> Progress<K, V> {
    (p: Progress<K, V>, k: K) => RemoveOne(p, kept, k, calls(k))
  }

  function Adder<K, V>(target: map<K, V>, kept: set<K>, calls: K -> Call): (Progress<K, V>, K) -> Progress<K, V> {
    (p: Progress<K, V>, k: K) => AddOne(p, target, kept, k, calls(k))
  }

  // The two loops over all of `keys`.
  function RemoveAll<K, V>(table: map<K, V>, kept: set<K>, keys: seq<K>, calls: K -> Call): Progress<K, V> {
    After(Remover(kept, calls), Begin(table), keys)
  }

  function AddAll<K, V>(table: map<K, V>, target: map<K, V>, kept: set<K>, keys: seq<K>, calls: K -> Call)
    : Progress<K, V>
  {
    After(Adder(target, kept, calls), Begin(table), keys)
  }

  // After an error a loop is over.
  lemma RemoverStops<K(!new), V(!new)>(table: map<K, V>, kept: set<K>, keys: seq<K>, calls: K -> Call, n: nat)
    requires n <= |keys| && Run(Remover(kept, calls), Begin(table), keys, n).error.Some?
    ensures RemoveAll(table, kept, keys, calls) == Run(Remover(kept, calls), Begin(table), keys, n)
  {
    Stopped(Remover(kept, calls), Begin(table), keys, n, |keys|);
  }

  lemma AdderStops<K(!new), V(!new)>(table: map<K, V>, target: map<K, V>, kept: set<K>, keys: seq<K>, calls: K -> Call, n: nat)
    requires n <= |keys| && Run(Adder(target, kept, calls), Begin(table), keys, n).error.Some?
    ensures AddAll(table, target, kept, keys, calls) == Run(Adder(target, kept, calls), Begin(table), keys, n)
  {
    Stopped(Adder(target, kept, calls), Begin(table), keys, n, |keys|);
  }

  // ---- A loop acts on its own keys alone ----

  function Own<K, V>(mine: K -> bool, norm: V -> V, table: map<K, V>): map<K, V> {
    map k | k in table && mine(k) :: norm(table[k])
  }

  ghost predicate SameOthers<K, V>(mine: K -> bool, a: map<K, V>, b: map<K, V>) {
    && (forall k :: k in a && !mine(k) ==> k in b && b[k] == a[k])
    && (forall k :: k in b && !mine(k) ==> k in a)
  }

  // The same progress, of which only the own part of the table is looked at.
  function View<K, V>(mine: K -> bool, norm: V -> V, p: Progress<K, V>): Progress<K, V> {
    p.(table := Own(mine, norm, p.table))
  }

  lemma OwnRemoval<K, V>(mine: K -> bool, norm: V -> V, table: map<K, V>, k: K)
    requires mine(k)
    ensures Own(mine, norm, table - {k}) == Own(mine, norm, table) - {k}
    ensures SameOthers(mine, table, table - {k})
  {
  }

  lemma OwnAddition<K, V>(mine: K -> bool, norm: V -> V, table: map<K, V>, k: K, v: V)
    requires mine(k) && norm(v) == v
    ensures Own(mine, norm, table[k := v]) == Own(mine, norm, table)[k := v]
    ensures SameOthers(mine, table, table[k := v])
  {
  }

  // A step that cannot tell a table from its own part, seen from either side.
  lemma {:induction false} RunViewed<K, V(!new)>(mine: K -> bool, norm: V -> V, step: (Progress<K, V>, K) -> Progress<K, V>,
                                           p: Progress<K, V>, keys: seq<K>, n: nat)
    requires n <= |keys|
    requires forall i, q: Progress<K, V> :: 0 <= i < n ==> View(mine, norm, step(q, keys[i])) == step(View(mine, norm, q), keys[i])
    requires forall i, q: Progress<K, V> :: 0 <= i < n ==> SameOthers(mine, q.table, step(q, keys[i]).table)
    ensures View(mine, norm, Run(step, p, keys, n)) == Run(step, View(mine, norm, p), keys, n)
    ensures SameOthers(mine, p.table, Run(step, p, keys, n).table)
  {
    if n > 0 {
      RunViewed(mine, norm, step, p, keys, n - 1);
      var q := Run(step, p, keys, n - 1);
      assert View(mine, norm, step(q, keys[n - 1])) == step(View(mine, norm, q), keys[n - 1]);
      assert SameOthers(mine, q.table, step(q, keys[n - 1]).table);
    }
  }

  lemma RemoveOneViewed<K, V>(mine: K -> bool, norm: V -> V, p: Progress<K, V>, kept: set<K>, k: K, call: Call)
    requires mine(k)
    ensures View(mine, norm, RemoveOne(p, kept, k, call)) == RemoveOne(View(mine, norm, p), kept, k, call)
    ensures SameOthers(mine, p.table, RemoveOne(p, kept, k, call).table)
  {
    OwnRemoval(mine, norm, p.table, k);
  }

  lemma AddOneViewed<K, V>(mine: K -> bool, norm: V -> V, p: Progress<K, V>, target: map<K, V>, kept: set<K>, k: K, call: Call)
    requires k in target ==> mine(k) && norm(target[k]) == target[k]
    ensures View(mine, norm, AddOne(p, target, kept, k, call)) == AddOne(View(mine, norm, p), target, kept, k, call)
    ensures SameOthers(mine, p.table, AddOne(p, target, kept, k, call).table)
  {
    if k in target {
      OwnAddition(mine, norm, p.table, k, target[k]);
    }
  }

  // ---- What the two loops do to the own keys ----

  function Seen<K>(keys: seq<K>, n: nat): set<K>
    requires n <= |keys|
  {
    if n == 0 then {} else Seen(keys, n - 1) + {keys[n - 1]}
  }

  // Every key of a table once.
  predicate Lists<K, V>(keys: seq<K>, table: map<K, V>) {
    Seen(keys, |keys|) == table.Keys && forall n :: 0 <= n < |keys| ==> keys[n] !in Seen(keys, n)
  }

  lemma {:induction false} SeenGrows<K>(keys: seq<K>, m: nat, n: nat)
    requires m <= n <= |keys|
    ensures Seen(keys, m) <= Seen(keys, n)
  {
    if m < n {
      SeenGrows(keys, m, n - 1);
    }
  }

  lemma ListedNext<K, V>(keys: seq<K>, table: map<K, V>, n: nat)
    requires n < |keys| && Lists(keys, table)
    ensures keys[n] in table && keys[n] !in Seen(keys, n)
  {
    SeenGrows(keys, n + 1, |keys|);
  }

  // Every call that took effect brought the table one call closer to the target.
  ghost predicate Balanced<K, V>(same: (V, V) -> bool, p: Progress<K, V>, before: map<K, V>, target: map<K, V>) {
    Distance(same, target, p.table) + p.count + (if p.silent then 1 else 0) == Distance(same, target, before)
  }

  // The removal loop never removes an absent key, every call that takes effect counts, and
  // without an error everything seen is gone but what is kept.
  ghost predicate Removing<K, V>(same: (V, V) -> bool, p: Progress<K, V>, target: map<K, V>, runtime: map<K, V>,
                                 kept: set<K>, seen: set<K>)
  {
    && !p.misused && Balanced(same, p, runtime, target)
    && (p.error.None? ==> !p.silent && p.table == runtime - (seen - kept))
  }

  lemma RemovalStep<K, V>(same: (V, V) -> bool, p: Progress<K, V>, target: map<K, V>, runtime: map<K, V>, kept: set<K>,
                          seen: set<K>, k: K, call: Call)
    requires kept == Kept(same, target, runtime) && k in runtime && k !in seen
    requires Removing(same, p, target, runtime, kept, seen)
    ensures Removing(same, RemoveOne(p, kept, k, call), target, runtime, kept, seen + {k})
  {
    if p.error.None? {
      if k in kept {
        assert seen + {k} - kept == seen - kept;
      } else {
        assert k in Stale(same, target, p.table);
        RemovalLowers(same, target, p.table, k);
        assert p.table - {k} == runtime - (seen + {k} - kept);
      }
    }
  }

  // What holds of no keys and the beginning, and is kept from key to key, holds at the end.
  lemma {:induction false} LoopKeeps<K, P(!new)>(step: (P, K) -> P, p: P, keys: seq<K>, n: nat, inv: (set<K>, P) -> bool)
    requires n <= |keys| && inv({}, p)
    requires forall i, q {:trigger step(q, keys[i])} :: 0 <= i < n && inv(Seen(keys, i), q) ==>
               inv(Seen(keys, i) + {keys[i]}, step(q, keys[i]))
    ensures inv(Seen(keys, n), Run(step, p, keys, n))
  {
    if n > 0 {
      LoopKeeps(step, p, keys, n - 1, inv);
      var q := Run(step, p, keys, n - 1);
      assert inv(Seen(keys, n - 1) + {keys[n - 1]}, step(q, keys[n - 1]));
    }
  }

  lemma RemovalBegins<K, V>(same: (V, V) -> bool, target: map<K, V>, runtime: map<K, V>, kept: set<K>)
    ensures Removing(same, Begin(runtime), target, runtime, kept, {})
  {
    assert runtime - ({} - kept) == runtime;
  }

  lemma RemovalLoop<K(!new), V(!new)>(same: (V, V) -> bool, target: map<K, V>, runtime: map<K, V>, kept: set<K>,
                                      keys: seq<K>, calls: K -> Call)
    requires Lists(keys, runtime) && kept == Kept(same, target, runtime)
    ensures Removing(same, RemoveAll(runtime, kept, keys, calls), target, runtime, kept, runtime.Keys)
  {
    var step := Remover<K, V>(kept, calls);
    ghost var inv := (seen: set<K>, p: Progress<K, V>) => Removing(same, p, target, runtime, kept, seen);
    forall i, q: Progress<K, V> | 0 <= i < |keys| && inv(Seen(keys, i), q)
      ensures inv(Seen(keys, i) + {keys[i]}, step(q, keys[i]))
    {
      ListedNext(keys, runtime, i);
      RemovalStep(same, q, target, runtime, kept, Seen(keys, i), keys[i], calls(keys[i]));
    }
    RemovalBegins(same, target, runtime, kept);
    LoopKeeps(step, Begin(runtime), keys, |keys|, inv);
  }

  // What the addition loop has built: what was kept and what it has added so far.
  predicate Built<K, V>(same: (V, V) -> bool, table: map<K, V>, target: map<K, V>, keys: set<K>) {
    table.Keys == keys && forall k :: k in table ==> k in target && same(table[k], target[k])
  }

  // The addition loop never adds a present key.
  ghost predicate Adding<K, V>(same: (V, V) -> bool, p: Progress<K, V>, target: map<K, V>, before: map<K, V>,
                               kept: set<K>, seen: set<K>)
  {
    && !p.misused && Balanced(same, p, before, target)
    && (p.error.None? ==> !p.silent && Built(same, p.table, target, kept + seen))
  }

  lemma AdditionStep<K, V(!new)>(same: (V, V) -> bool, p: Progress<K, V>, before: map<K, V>, target: map<K, V>,
                                 kept: set<K>, seen: set<K>, k: K, call: Call)
    requires Reflexive(same) && k in target && k !in seen && Adding(same, p, target, before, kept, seen)
    ensures Adding(same, AddOne(p, target, kept, k, call), target, before, kept, seen + {k})
  {
    if p.error.None? {
      if k !in kept {
        AdditionLowers(same, target, p.table, k);
      }
      assert kept + (seen + {k}) == (kept + seen) + {k};
    }
  }

  lemma AdditionBegins<K, V>(same: (V, V) -> bool, before: map<K, V>, target: map<K, V>, kept: set<K>)
    requires Built(same, before, target, kept)
    ensures Adding(same, Begin(before), target, before, kept, {})
  {
    assert kept + {} == kept;
  }

  lemma AdditionLoop<K(!new), V(!new)>(same: (V, V) -> bool, before: map<K, V>, target: map<K, V>, kept: set<K>,
                                       keys: seq<K>, calls: K -> Call)
    requires Reflexive(same) && Lists(keys, target) && Built(same, before, target, kept)
    ensures Adding(same, AddAll(before, target, kept, keys, calls), target, before, kept, target.Keys)
  {
    var step := Adder(target, kept, calls);
    ghost var inv := (seen: set<K>, p: Progress<K, V>) => Adding(same, p, target, before, kept, seen);
    forall i, q: Progress<K, V> | 0 <= i < |keys| && inv(Seen(keys, i), q)
      ensures inv(Seen(keys, i) + {keys[i]}, step(q, keys[i]))
    {
      ListedNext(keys, target, i);
      AdditionStep(same, q, before, target, kept, Seen(keys, i), keys[i], calls(keys[i]));
    }
    AdditionBegins(same, before, target, kept);
    LoopKeeps(step, Begin(before), keys, |keys|, inv);
  }

  // ---- Both loops ----

  datatype Diff<K, V> = Diff(removals: Progress<K, V>, additions: Progress<K, V>) {
    function Table(): map<K, V> { additions.table }

    function Calls(): nat { removals.count + additions.count }

    // The error that stopped the diff, if any.
    function Error(): Option<string> { if removals.error.Some? then removals.error else additions.error }

    function Silent(): nat { if removals.silent || additions.silent then 1 else 0 }

    predicate Misused() { removals.misused || additions.misused }
  }

  // Remove what differs, then add what is missing; an error in the first loop skips the second.
  function Apply<K, V>(table: map<K, V>, target: map<K, V>, kept: set<K>, oldKeys: seq<K>, newKeys: seq<K>,
                       removes: K -> Call, adds: K -> Call): Diff<K, V>
  {
    var r := RemoveAll(table, kept, oldKeys, removes);
    if r.error.Some? then Diff(r, Begin(r.table))
    else Diff(r, AddAll(r.table, target, kept, newKeys, adds))
  }

  lemma OnlyKeptRemain<K, V>(same: (V, V) -> bool, target: map<K, V>, runtime: map<K, V>, kept: set<K>, rest: map<K, V>)
    requires kept == Kept(same, target, runtime) && rest == runtime - (runtime.Keys - kept)
    ensures Built(same, rest, target, kept)
  {
  }

  lemma BuiltAgrees<K, V>(same: (V, V) -> bool, target: map<K, V>, table: map<K, V>, kept: set<K>)
    requires Built(same, table, target, kept + target.Keys)
    ensures Agree(same, target, table)
  {
    assert forall k :: k in table ==> k in table.Keys;
    assert table.Keys == target.Keys;
  }

  /** On the own keys: no misuse; the calls that took effect are exactly the distance covered;
      and a diff without an error ends in the target. */
  lemma ApplyReaches<K(!new), V(!new)>(same: (V, V) -> bool, runtime: map<K, V>, target: map<K, V>, oldKeys: seq<K>,
                                       newKeys: seq<K>, removes: K -> Call, adds: K -> Call)
    requires Reflexive(same) && Lists(oldKeys, runtime) && Lists(newKeys, target)
    ensures var d := Apply(runtime, target, Kept(same, target, runtime), oldKeys, newKeys, removes, adds);
            && !d.Misused()
            && Distance(same, target, d.Table()) + d.Calls() + d.Silent() == Distance(same, target, runtime)
            && (d.Error().None? ==> d.Silent() == 0 && Agree(same, target, d.Table()))
  {
    var kept := Kept(same, target, runtime);
    RemovalLoop(same, target, runtime, kept, oldKeys, removes);
    var r := RemoveAll(runtime, kept, oldKeys, removes);
    if r.error.None? {
      OnlyKeptRemain(same, target, runtime, kept, r.table);
      AdditionLoop(same, r.table, target, kept, newKeys, adds);
      var a := AddAll(r.table, target, kept, newKeys, adds);
      if a.error.None? {
        BuiltAgrees(same, target, a.table, kept);
      }
    }
  }

  lemma OnlyMissingIsLeft<K, V>(same: (V, V) -> bool, target: map<K, V>, runtime: map<K, V>, kept: set<K>, rest: map<K, V>)
    requires kept == Kept(same, target, runtime) && rest == runtime - (runtime.Keys - kept)
    ensures Stale(same, target, rest) == {} && Missing(same, target, rest) == Missing(same, target, runtime)
  {
  }

  /** A diff without an error removes exactly the keys that are stale, and adds exactly those
      that are missing. */
  lemma ApplyCounts<K(!new), V(!new)>(same: (V, V) -> bool, runtime: map<K, V>, target: map<K, V>, oldKeys: seq<K>,
                                      newKeys: seq<K>, removes: K -> Call, adds: K -> Call)
    requires Reflexive(same) && Lists(oldKeys, runtime) && Lists(newKeys, target)
    ensures var d := Apply(runtime, target, Kept(same, target, runtime), oldKeys, newKeys, removes, adds);
            d.Error().None? ==>
              d.removals.count == |Stale(same, target, runtime)| && d.additions.count == |Missing(same, target, runtime)|
  {
    var kept := Kept(same, target, runtime);
    RemovalLoop(same, target, runtime, kept, oldKeys, removes);
    var r := RemoveAll(runtime, kept, oldKeys, removes);
    if r.error.None? {
      OnlyKeptRemain(same, target, runtime, kept, r.table);
      OnlyMissingIsLeft(same, target, runtime, kept, r.table);
      AdditionLoop(same, r.table, target, kept, newKeys, adds);
      var a := AddAll(r.table, target, kept, newKeys, adds);
      if a.error.None? {
        BuiltAgrees(same, target, a.table, kept);
        ZeroDistance(same, target, a.table);
      }
    }
  }

  lemma RemovalsViewed<K(!new), V(!new)>(mine: K -> bool, norm: V -> V, table: map<K, V>, kept: set<K>, keys: seq<K>,
                                         calls: K -> Call)
    requires forall k :: k in keys ==> mine(k)
    ensures View(mine, norm, RemoveAll(table, kept, keys, calls)) == RemoveAll(Own(mine, norm, table), kept, keys, calls)
    ensures SameOthers(mine, table, RemoveAll(table, kept, keys, calls).table)
  {
    var step := Remover<K, V>(kept, calls);
    forall i: nat, q: Progress<K, V> | i < |keys|
      ensures View(mine, norm, step(q, keys[i])) == step(View(mine, norm, q), keys[i])
      ensures SameOthers(mine, q.table, step(q, keys[i]).table)
    {
      RemoveOneViewed(mine, norm, q, kept, keys[i], calls(keys[i]));
    }
    RunViewed(mine, norm, step, Begin(table), keys, |keys|);
  }

  lemma AdditionsViewed<K(!new), V(!new)>(mine: K -> bool, norm: V -> V, table: map<K, V>, target: map<K, V>, kept: set<K>,
                                          keys: seq<K>, calls: K -> Call)
    requires forall k :: k in target ==> mine(k) && norm(target[k]) == target[k]
    ensures View(mine, norm, AddAll(table, target, kept, keys, calls)) ==
            AddAll(Own(mine, norm, table), target, kept, keys, calls)
    ensures SameOthers(mine, table, AddAll(table, target, kept, keys, calls).table)
  {
    var step := Adder(target, kept, calls);
    forall i: nat, q: Progress<K, V> | i < |keys|
      ensures View(mine, norm, step(q, keys[i])) == step(View(mine, norm, q), keys[i])
      ensures SameOthers(mine, q.table, step(q, keys[i]).table)
    {
      AddOneViewed(mine, norm, q, target, kept, keys[i], calls(keys[i]));
    }
    RunViewed(mine, norm, step, Begin(table), keys, |keys|);
  }

  // The whole diff acts on the own keys alone.
  lemma ApplyViewed<K(!new), V(!new)>(mine: K -> bool, norm: V -> V, table: map<K, V>, target: map<K, V>, kept: set<K>,
                                      oldKeys: seq<K>, newKeys: seq<K>, removes: K -> Call, adds: K -> Call)
    requires forall k :: k in oldKeys ==> mine(k)
    requires forall k :: k in target ==> mine(k) && norm(target[k]) == target[k]
    ensures var d := Apply(table, target, kept, oldKeys, newKeys, removes, adds);
            && Diff(View(mine, norm, d.removals), View(mine, norm, d.additions)) ==
               Apply(Own(mine, norm, table), target, kept, oldKeys, newKeys, removes, adds)
            && SameOthers(mine, table, d.Table())
  {
    RemovalsViewed(mine, norm, table, kept, oldKeys, removes);
    var r := RemoveAll(table, kept, oldKeys, removes);
    if r.error.None? {
      AdditionsViewed(mine, norm, r.table, target, kept, newKeys, adds);
    }
  }

  // ---- No shorter way ----

  datatype Op<K, V> = Remove(key: K) | Add(key: K, value: V)

  // Calls that the runtime accepts: removing what is there, adding what is not.
  predicate Accepted<K, V>(table: map<K, V>, op: Op<K, V>) {
    match op
    case Remove(k) => k in table
    case Add(k, _) => k !in table
  }

  function Do<K, V>(table: map<K, V>, op: Op<K, V>): map<K, V> {
    match op
    case Remove(k) => table - {k}
    case Add(k, v) => table[k := v]
  }

  function DoUpTo<K, V>(table: map<K, V>, ops: seq<Op<K, V>>, n: nat): map<K, V>
    requires n <= |ops|
  {
    if n == 0 then table else Do(DoUpTo(table, ops, n - 1), ops[n - 1])
  }

  lemma SmallerByOne<K>(a: set<K>, b: set<K>, k: K)
    requires a - {k} <= b
    ensures |a| <= |b| + 1
  {
    if k in a {
      CardinalityMonotone(a - {k}, b);
    } else {
      assert a - {k} == a;
      CardinalityMonotone(a, b);
    }
  }

  lemma {:induction false} CardinalityMonotone<K>(a: set<K>, b: set<K>)
    requires a <= b
    ensures |a| <= |b|
    decreases a
  {
    if a != {} {
      var x :| x in a;
      CardinalityMonotone(a - {x}, b - {x});
    }
  }

  // No accepted call covers more than one unit of distance.
  lemma OneCallAtMost<K, V>(same: (V, V) -> bool, target: map<K, V>, table: map<K, V>, op: Op<K, V>)
    requires Accepted(table, op)
    ensures Distance(same, target, Do(table, op)) + 1 >= Distance(same, target, table)
  {
    var after, k := Do(table, op), op.key;
    if op.Remove? {
      SmallerByOne(Stale(same, target, table), Stale(same, target, after), k);
      CardinalityMonotone(Missing(same, target, table), Missing(same, target, after));
    } else {
      CardinalityMonotone(Stale(same, target, table), Stale(same, target, after));
      SmallerByOne(Missing(same, target, table), Missing(same, target, after), k);
    }
  }

  /** No sequence of accepted calls that reaches the target is shorter than the distance. */
  lemma {:induction false} NoShorterDiff<K, V>(same: (V, V) -> bool, target: map<K, V>, table: map<K, V>,
                                               ops: seq<Op<K, V>>, n: nat)
    requires n <= |ops| && forall i :: 0 <= i < n ==> Accepted(DoUpTo(table, ops, i), ops[i])
    ensures Distance(same, target, DoUpTo(table, ops, n)) + n >= Distance(same, target, table)
    ensures Agree(same, target, DoUpTo(table, ops, n)) ==> n >= Distance(same, target, table)
  {
    if n > 0 {
      NoShorterDiff(same, target, table, ops, n - 1);
      OneCallAtMost(same, target, DoUpTo(table, ops, n - 1), ops[n - 1]);
    }
    ZeroDistance(same, target, DoUpTo(table, ops, n));
  }
}
