/** internal/runtimesync/sync.go: one reconciliation pass over one node, and runs of passes.

    Every call to the database and to the runtime may fail; a failing removal or addition may
    or may not have taken effect.  Nothing else changes the managed users during a pass. */
module RuntimeSync {
  import opened Ordering
  import opened Reconcile
  import opened Results
  import opened RuntimeUsers
  import Runs
  import opened Text
  import XrayStats

  type Time = int

  // time.Time{}, what markNodeError passes as the instant of a sync.
  const ZERO_TIME: Time := 0

  const MAX_ERROR: nat := 1000

  // How the calls of one pass end; a pass removes and adds each e-mail at most once.
  datatype Plan = Plan(targets: Option<string>, listing: Option<string>, remove: string -> Call,
                       add: string -> Call, mark: bool)

  // last_runtime_sync_at and last_runtime_sync_error.
  datatype NodeStatus = NodeStatus(syncedAt: Option<Time>, error: string)

  function Truncate(message: string): string {
    var t := TrimSpace(message);
    if |t| <= MAX_ERROR then t else t[..MAX_ERROR]
  }

  function Marked(status: NodeStatus, at: Time, message: string, works: bool): NodeStatus {
    if !works then status
    else NodeStatus(if TrimSpace(message) == "" then Some(at) else status.syncedAt, Truncate(message))
  }

  // The users this project owns, as a pass sees them.
  function Managed(users: Users): Users { Own(IsManaged, NormalizeIdentity, users) }

  predicate AllTargets(target: Users) {
    forall e :: e in target ==> IsManaged(e) && NormalizeIdentity(target[e]) == target[e]
  }

  // ---- What a pass does ----

  // `lost` counts the calls, at most one, that took effect though they reported an error;
  // `failure` is the error, if any, that ended the pass early.
  datatype PassEnd = PassEnd(users: Users, added: nat, removed: nat, lost: nat, noChange: bool, failure: Option<string>)

  // A pass that would make the diff `d`; `equal` says whether the two hashes are equal.
  function EndOf(users: Users, d: Diff<string, Identity>, equal: bool, plan: Plan): PassEnd {
    if plan.targets.Some? then PassEnd(users, 0, 0, 0, false, plan.targets)
    else if plan.listing.Some? then PassEnd(users, 0, 0, 0, false, plan.listing)
    else if equal then PassEnd(users, 0, 0, 0, true, None)
    else PassEnd(d.Table(), d.additions.count, d.removals.count, d.Silent(), false, d.Error())
  }

  // What the pass then records at the node; the recording itself may fail.
  function StatusAfter(status: NodeStatus, end: PassEnd, plan: Plan, now: Time): NodeStatus {
    match end.failure
    case Some(message) => Marked(status, ZERO_TIME, message, plan.mark)
    case None => Marked(status, now, "", plan.mark)
  }

  // SyncNode returns no error.
  predicate Succeeds(end: PassEnd, plan: Plan) { end.failure.None? && plan.mark }

  ghost function DiffOf(users: Users, target: Users, plan: Plan): Diff<string, Identity> {
    var runtime := Managed(users);
    Apply(users, target, Kept(Same, target, runtime), Sorted(runtime.Keys), Sorted(target.Keys), plan.remove, plan.add)
  }

  // What the two hashes say, SHA-256 being injective and no field holding a NUL.
  predicate HashesEqual(target: Users, users: Users) { Agree(Same, Visible(target), Visible(Managed(users))) }

  ghost function Sync(users: Users, target: Users, equal: bool, plan: Plan): PassEnd {
    EndOf(users, DiffOf(users, target, plan), equal, plan)
  }

  lemma {:induction false} SeenAreMembers(keys: seq<string>, n: nat)
    requires n <= |keys|
    ensures forall k :: k in Seen(keys, n) <==> exists i :: 0 <= i < n && keys[i] == k
  {
    if n > 0 {
      SeenAreMembers(keys, n - 1);
    }
  }

  lemma SortedLists(users: Users)
    ensures Lists(Sorted(users.Keys), users)
    ensures forall k :: k in Sorted(users.Keys) ==> k in users
  {
    var keys := Sorted(users.Keys);
    SeenAreMembers(keys, |keys|);
    assert forall k :: k in users ==> k in keys;
    assert Seen(keys, |keys|) == users.Keys;
    forall n | 0 <= n < |keys| ensures keys[n] !in Seen(keys, n) {
      SeenAreMembers(keys, n);
      LessIrreflexive(keys[n]);
    }
  }

  lemma SameIsReflexive()
    ensures Reflexive(Same)
  {
    forall v: Identity ensures Same(v, v) { SameIsAnEquivalence(v, v, v); }
  }

  // What a diff achieves, on the users it manages and on the others.
  ghost predicate Achieves(d: Diff<string, Identity>, users: Users, target: Users) {
    && SameOthers(IsManaged, users, d.Table()) && !d.Misused()
    && Distance(Same, target, Managed(d.Table())) + d.Calls() + d.Silent() == Distance(Same, target, Managed(users))
    && (d.Error().None? ==> d.Silent() == 0 && Agree(Same, target, Managed(d.Table())))
  }

  // The diff as the managed users see it ...
  lemma DiffReaches(users: Users, target: Users, plan: Plan)
    ensures var runtime := Managed(users);
            var d := Apply(runtime, target, Kept(Same, target, runtime), Sorted(runtime.Keys), Sorted(target.Keys),
                           plan.remove, plan.add);
            && !d.Misused()
            && Distance(Same, target, d.Table()) + d.Calls() + d.Silent() == Distance(Same, target, runtime)
            && (d.Error().None? ==> d.Silent() == 0 && Agree(Same, target, d.Table()))
  {
    var runtime := Managed(users);
    SortedLists(runtime);
    SortedLists(target);
    SameIsReflexive();
    ApplyReaches(Same, runtime, target, Sorted(runtime.Keys), Sorted(target.Keys), plan.remove, plan.add);
  }

  // ... is the diff of the whole table, which leaves the other users alone.
  lemma DiffViewed(users: Users, target: Users, plan: Plan)
    requires AllTargets(target)
    ensures var runtime, d := Managed(users), DiffOf(users, target, plan);
            && Diff(View(IsManaged, NormalizeIdentity, d.removals), View(IsManaged, NormalizeIdentity, d.additions)) ==
               Apply(runtime, target, Kept(Same, target, runtime), Sorted(runtime.Keys), Sorted(target.Keys), plan.remove, plan.add)
            && SameOthers(IsManaged, users, d.Table())
  {
    var runtime := Managed(users);
    SortedLists(runtime);
    ApplyViewed(IsManaged, NormalizeIdentity, users, target, Kept(Same, target, runtime), Sorted(runtime.Keys),
                Sorted(target.Keys), plan.remove, plan.add);
  }

  lemma ViewedAchieves(d: Diff<string, Identity>, own: Diff<string, Identity>, users: Users, target: Users)
    requires own == Diff(View(IsManaged, NormalizeIdentity, d.removals), View(IsManaged, NormalizeIdentity, d.additions))
    requires SameOthers(IsManaged, users, d.Table()) && !own.Misused()
    requires Distance(Same, target, own.Table()) + own.Calls() + own.Silent() == Distance(Same, target, Managed(users))
    requires own.Error().None? ==> own.Silent() == 0 && Agree(Same, target, own.Table())
    ensures Achieves(d, users, target)
  {
  }

  /** The diff of a pass never removes an absent user or adds a present one, touches managed
      users only, and each of its calls that takes effect covers one unit of distance. */
  lemma DiffAchieves(users: Users, target: Users, plan: Plan)
    requires AllTargets(target)
    ensures Achieves(DiffOf(users, target, plan), users, target)
  {
    var runtime := Managed(users);
    DiffReaches(users, target, plan);
    DiffViewed(users, target, plan);
    ViewedAchieves(DiffOf(users, target, plan),
                   Apply(runtime, target, Kept(Same, target, runtime), Sorted(runtime.Keys), Sorted(target.Keys), plan.remove,
                         plan.add), users, target);
  }

  lemma EndCovers(users: Users, target: Users, d: Diff<string, Identity>, equal: bool, plan: Plan)
    requires Achieves(d, users, target)
    ensures var end := EndOf(users, d, equal, plan);
            && SameOthers(IsManaged, users, end.users)
            && Distance(Same, target, Managed(end.users)) + end.added + end.removed + end.lost ==
               Distance(Same, target, Managed(users))
            && (end.failure.None? ==> end.lost == 0 && (end.noChange || Agree(Same, target, Managed(end.users))))
  {
  }

  /** Whatever fails, a pass leaves every user it does not manage alone, and each call that
      takes effect brings the managed users exactly one call closer to the target. */
  lemma PassCoversDistance(users: Users, target: Users, equal: bool, plan: Plan)
    requires AllTargets(target)
    ensures var end := Sync(users, target, equal, plan);
            && SameOthers(IsManaged, users, end.users)
            && Distance(Same, target, Managed(end.users)) + end.added + end.removed + end.lost ==
               Distance(Same, target, Managed(users))
            && (end.failure.None? ==> end.lost == 0)
  {
    DiffAchieves(users, target, plan);
    EndCovers(users, target, DiffOf(users, target, plan), equal, plan);
  }

  // The managed e-mails that the target does not list as they are ...
  function ToRemove(target: Users, runtime: Users): set<string> {
    set e | e in runtime && !(e in target && ToLower(runtime[e].uuid) == ToLower(target[e].uuid) && runtime[e].flow == target[e].flow)
  }

  // ... and the listed ones that the runtime does not have so.
  function ToAdd(target: Users, runtime: Users): set<string> {
    set e | e in target && !(e in runtime && ToLower(runtime[e].uuid) == ToLower(target[e].uuid) && runtime[e].flow == target[e].flow)
  }

  lemma StaleOrMissing(target: Users, runtime: Users)
    ensures Stale(Same, target, runtime) == ToRemove(target, runtime) && Missing(Same, target, runtime) == ToAdd(target, runtime)
  {
    forall e | e in target && e in runtime { SameExactly(runtime[e], target[e]); }
  }

  lemma DiffCounts(users: Users, target: Users, plan: Plan)
    requires AllTargets(target) && DiffOf(users, target, plan).Error().None?
    ensures DiffOf(users, target, plan).removals.count == |ToRemove(target, Managed(users))|
    ensures DiffOf(users, target, plan).additions.count == |ToAdd(target, Managed(users))|
  {
    var runtime := Managed(users);
    SortedLists(runtime);
    SortedLists(target);
    SameIsReflexive();
    StaleOrMissing(target, runtime);
    ApplyCounts(Same, runtime, target, Sorted(runtime.Keys), Sorted(target.Keys), plan.remove, plan.add);
    DiffViewed(users, target, plan);
  }

  /** What a pass reports as removed and as added: if it runs to its end past unequal hashes, the
      managed users that the target does not list as they are, and the users it lists that were
      not there so. */
  lemma ReportsExactly(users: Users, target: Users, plan: Plan)
    requires AllTargets(target) && Sync(users, target, false, plan).failure.None?
    ensures Sync(users, target, false, plan).removed == |ToRemove(target, Managed(users))|
    ensures Sync(users, target, false, plan).added == |ToAdd(target, Managed(users))|
  {
    DiffCounts(users, target, plan);
  }

  // The managed users of a runtime.
  lemma ManagedUsersExactly(users: Users, e: string)
    ensures e in Managed(users) <==> e in users && IsTag(e)
    ensures e in Managed(users) ==> Managed(users)[e] == Identity(TrimSpace(users[e].uuid), TrimSpace(users[e].flow))
  {
    ManagedExactly(e);
  }

  // The users that the hashes cannot see are as the target wants them.
  predicate HiddenAgree(target: Users, users: Users) { Agree(Same, Hidden(target), Hidden(Managed(users))) }

  lemma HashesDecide(target: Users, users: Users)
    ensures Agree(Same, target, Managed(users)) <==> HashesEqual(target, users) && HiddenAgree(target, users)
  {
    if Agree(Same, target, Managed(users)) {
      AgreeInParts(target, Managed(users));
    }
    if HashesEqual(target, users) && HiddenAgree(target, users) {
      PartsAgree(target, Managed(users));
    }
  }

  // `reached` says what it takes for equal hashes to mean that the target is reached.
  lemma EndReaches(users: Users, target: Users, d: Diff<string, Identity>, equal: bool, reached: bool, plan: Plan)
    requires Achieves(d, users, target) && EndOf(users, d, equal, plan).failure.None?
    requires Agree(Same, target, Managed(users)) <==> equal && reached
    ensures var end := EndOf(users, d, equal, plan);
            && (Agree(Same, target, Managed(end.users)) <==> !equal || reached)
            && end.added + end.removed + Distance(Same, target, Managed(end.users)) == Distance(Same, target, Managed(users))
            && (Agree(Same, target, Managed(end.users)) ==> end.added + end.removed == Distance(Same, target, Managed(users)))
            && (end.noChange <==> equal) && (equal ==> end.users == users)
  {
    EndCovers(users, target, d, equal, plan);
    ZeroDistance(Same, target, Managed(EndOf(users, d, equal, plan).users));
  }

  /** A pass that runs to its end leaves exactly the target, by the fewest calls there can be,
      if and only if its hashes differed or the users without a UUID were as they should be. */
  lemma SuccessReachesTarget(users: Users, target: Users, plan: Plan)
    requires AllTargets(target)
    requires Sync(users, target, HashesEqual(target, users), plan).failure.None?
    ensures var end := Sync(users, target, HashesEqual(target, users), plan);
            && (Agree(Same, target, Managed(end.users)) <==> !HashesEqual(target, users) || HiddenAgree(target, users))
            && end.added + end.removed + Distance(Same, target, Managed(end.users)) == Distance(Same, target, Managed(users))
            && (Agree(Same, target, Managed(end.users)) ==> end.added + end.removed == Distance(Same, target, Managed(users)))
            && (end.noChange <==> HashesEqual(target, users)) && (HashesEqual(target, users) ==> end.users == users)
  {
    DiffAchieves(users, target, plan);
    HashesDecide(target, users);
    EndReaches(users, target, DiffOf(users, target, plan), HashesEqual(target, users), HiddenAgree(target, users), plan);
  }

  lemma HashesSettled(users: Users, target: Users, plan: Plan)
    requires AllTargets(target)
    requires Sync(users, target, HashesEqual(target, users), plan).failure.None?
    ensures HashesEqual(target, Sync(users, target, HashesEqual(target, users), plan).users)
  {
    var end := Sync(users, target, HashesEqual(target, users), plan);
    SuccessReachesTarget(users, target, plan);
    if !HashesEqual(target, users) {
      HashesDecide(target, end.users);
    }
  }

  lemma EqualEndsUnchanged(users: Users, target: Users, plan: Plan)
    requires plan.targets.None? && plan.listing.None?
    ensures Sync(users, target, true, plan) == PassEnd(users, 0, 0, 0, true, None)
  {
  }

  /** And the next pass finds nothing to do, whether or not the target was reached. */
  lemma NextPassIsUnchanged(users: Users, target: Users, plan: Plan, next: Plan)
    requires AllTargets(target) && next.targets.None? && next.listing.None?
    requires Sync(users, target, HashesEqual(target, users), plan).failure.None?
    ensures var end := Sync(users, target, HashesEqual(target, users), plan);
            Sync(end.users, target, HashesEqual(target, end.users), next) == PassEnd(end.users, 0, 0, 0, true, None)
  {
    HashesSettled(users, target, plan);
    EqualEndsUnchanged(Sync(users, target, HashesEqual(target, users), plan).users, target, next);
  }

  // What a node's row says after a pass: the time of the last success, or why it failed.
  lemma StatusTellsOutcome(status: NodeStatus, end: PassEnd, plan: Plan, now: Time)
    requires end.failure.Some? ==> TrimSpace(end.failure.value) != ""
    ensures var after := StatusAfter(status, end, plan, now);
            && (!plan.mark ==> after == status)
            && (Succeeds(end, plan) ==> after == NodeStatus(Some(now), ""))
            && (plan.mark && !Succeeds(end, plan) ==>
                  after.syncedAt == status.syncedAt && after.error != "" && |after.error| <= MAX_ERROR)
            && (plan.mark && !Succeeds(end, plan) ==>
                  var message := TrimSpace(end.failure.value);
                  after.error == if |message| <= 1000 then message else message[..1000])
  {
    TrimmedIsFixed("");
  }

  // ---- Runs of passes ----

  // Targets may differ from pass to pass, as accounts come, go and expire.
  datatype Pass = Pass(target: Users, plan: Plan)

  ghost function PassStep(): (Users, Pass) -> Users {
    (users: Users, p: Pass) => Sync(users, p.target, HashesEqual(p.target, users), p.plan).users
  }

  function ForTargets(): (Users, Pass) -> bool { (users: Users, p: Pass) => AllTargets(p.target) }

  // A run of passes leaves the users alone that are not managed.
  ghost function OthersSince(first: Users): Users -> bool { (users: Users) => SameOthers(IsManaged, first, users) }

  lemma PassKeepsOthers(first: Users, users: Users, p: Pass)
    requires SameOthers(IsManaged, first, users) && AllTargets(p.target)
    ensures SameOthers(IsManaged, first, PassStep()(users, p))
  {
    PassCoversDistance(users, p.target, HashesEqual(p.target, users), p.plan);
  }

  lemma RunKeepsOthers(first: Users, passes: seq<Pass>)
    requires forall p :: p in passes ==> AllTargets(p.target)
    ensures SameOthers(IsManaged, first, Runs.After(PassStep(), first, passes))
  {
    forall users: Users, p: Pass | OthersSince(first)(users) && ForTargets()(users, p)
      ensures OthersSince(first)(PassStep()(users, p))
    {
      PassKeepsOthers(first, users, p);
    }
    forall i | 0 <= i < |passes| ensures ForTargets()(Runs.Run(PassStep(), first, passes, i), passes[i]) {
      assert passes[i] in passes;
    }
    Runs.GuardedInvariant(PassStep(), first, passes, |passes|, OthersSince(first), ForTargets());
  }

  /** Convergence from any partial failure: after any run of passes, however they failed, the
      unmanaged users are as they were.  One successful pass then leaves the managed users equal
      to its target, if and only if its hashes differed or the users without a UUID were as they
      should be; a further pass for the same target changes nothing. */
  lemma ConvergesAfterFailures(first: Users, passes: seq<Pass>, last: Pass, next: Plan)
    requires AllTargets(last.target) && forall p :: p in passes ==> AllTargets(p.target)
    ensures var users := Runs.After(PassStep(), first, passes);
            var end := Sync(users, last.target, HashesEqual(last.target, users), last.plan);
            && SameOthers(IsManaged, first, users) && SameOthers(IsManaged, first, end.users)
            && (end.failure.None? ==>
                  (Agree(Same, last.target, Managed(end.users)) <==>
                   !HashesEqual(last.target, users) || HiddenAgree(last.target, users)))
            && (end.failure.None? && next.targets.None? && next.listing.None? ==>
                  var again := Sync(end.users, last.target, HashesEqual(last.target, end.users), next);
                  again.noChange && again.users == end.users)
  {
    var users := Runs.After(PassStep(), first, passes);
    RunKeepsOthers(first, passes);
    PassKeepsOthers(first, users, last);
    var end := Sync(users, last.target, HashesEqual(last.target, users), last.plan);
    if end.failure.None? {
      SuccessReachesTarget(users, last.target, last.plan);
      if next.targets.None? && next.listing.None? {
        NextPassIsUnchanged(users, last.target, last.plan, next);
      }
    }
  }

  lemma EqualStays(users: Users, target: Users, plan: Plan)
    ensures Sync(users, target, true, plan).users == users
  {
  }

  /** Where the condition fails the difference is never repaired: as long as the target stays the
      same, no pass of any run, failing or not, changes anything. */
  lemma HiddenDifferenceStays(users: Users, target: Users, passes: seq<Pass>)
    requires HashesEqual(target, users) && !HiddenAgree(target, users)
    requires forall p :: p in passes ==> p.target == target
    ensures Runs.After(PassStep(), users, passes) == users && !Agree(Same, target, Managed(users))
  {
    HashesDecide(target, users);
    forall i | 0 <= i < |passes| ensures PassStep()(users, passes[i]) == users {
      assert passes[i] in passes;
      EqualStays(users, target, passes[i].plan);
    }
    Runs.Stopped(PassStep(), users, passes, 0, |passes|);
  }

  // ---- Runs in which every user has a UUID ----

  predicate GoodTarget(target: Users) { AllTargets(target) && AllHaveUUIDs(target) }

  function GoodPass(): (Users, Pass) -> bool { (users: Users, p: Pass) => GoodTarget(p.target) }

  function AllSeen(): Users -> bool { (users: Users) => AllHaveUUIDs(Managed(users)) }

  ghost predicate ComesFrom<K, V>(now: map<K, V>, table: map<K, V>, target: map<K, V>) {
    forall k :: k in now ==> (k in table && table[k] == now[k]) || (k in target && target[k] == now[k])
  }

  // Whatever a diff leaves in a table was there before or is in the target.
  lemma ApplyComesFrom<K(!new), V(!new)>(table: map<K, V>, target: map<K, V>, kept: set<K>, oldKeys: seq<K>,
                                         newKeys: seq<K>, removes: K -> Call, adds: K -> Call)
    ensures ComesFrom(Apply(table, target, kept, oldKeys, newKeys, removes, adds).Table(), table, target)
  {
    var from := (p: Progress<K, V>) => ComesFrom(p.table, table, target);
    Runs.Invariant(Remover(kept, removes), Begin(table), oldKeys, |oldKeys|, from);
    var r := RemoveAll(table, kept, oldKeys, removes);
    Runs.Invariant(Adder(target, kept, adds), Begin(r.table), newKeys, |newKeys|, from);
  }

  lemma DiffKeepsUUIDs(users: Users, target: Users, plan: Plan)
    requires GoodTarget(target) && AllHaveUUIDs(Managed(users))
    ensures AllHaveUUIDs(Managed(DiffOf(users, target, plan).Table()))
  {
    var runtime := Managed(users);
    SortedLists(runtime);
    SortedLists(target);
    var kept, old_, new_ := Kept(Same, target, runtime), Sorted(runtime.Keys), Sorted(target.Keys);
    ApplyViewed(IsManaged, NormalizeIdentity, users, target, kept, old_, new_, plan.remove, plan.add);
    ApplyComesFrom(runtime, target, kept, old_, new_, plan.remove, plan.add);
  }

  lemma EndKeepsUUIDs(users: Users, d: Diff<string, Identity>, equal: bool, plan: Plan)
    requires AllHaveUUIDs(Managed(users)) && AllHaveUUIDs(Managed(d.Table()))
    ensures AllHaveUUIDs(Managed(EndOf(users, d, equal, plan).users))
  {
  }

  lemma SyncKeepsUUIDs(users: Users, target: Users, equal: bool, plan: Plan)
    requires GoodTarget(target) && AllHaveUUIDs(Managed(users))
    ensures AllHaveUUIDs(Managed(Sync(users, target, equal, plan).users))
  {
    DiffKeepsUUIDs(users, target, plan);
    EndKeepsUUIDs(users, DiffOf(users, target, plan), equal, plan);
  }

  lemma RunKeepsUUIDs(first: Users, passes: seq<Pass>)
    requires AllHaveUUIDs(Managed(first)) && forall p :: p in passes ==> GoodTarget(p.target)
    ensures AllHaveUUIDs(Managed(Runs.After(PassStep(), first, passes)))
  {
    forall users: Users, p: Pass | AllSeen()(users) && GoodPass()(users, p) ensures AllSeen()(PassStep()(users, p)) {
      SyncKeepsUUIDs(users, p.target, HashesEqual(p.target, users), p.plan);
    }
    forall i | 0 <= i < |passes| ensures GoodPass()(Runs.Run(PassStep(), first, passes, i), passes[i]) {
      assert passes[i] in passes;
    }
    Runs.GuardedInvariant(PassStep(), first, passes, |passes|, AllSeen(), GoodPass());
  }

  /** In particular, if every managed user and every target so far has a UUID, one successful
      pass always reaches its target. */
  lemma ConvergesWithUUIDs(first: Users, passes: seq<Pass>, last: Pass)
    requires AllHaveUUIDs(Managed(first)) && GoodTarget(last.target) && forall p :: p in passes ==> GoodTarget(p.target)
    ensures var users := Runs.After(PassStep(), first, passes);
            var end := Sync(users, last.target, HashesEqual(last.target, users), last.plan);
            end.failure.None? ==> Agree(Same, last.target, Managed(end.users))
  {
    var users := Runs.After(PassStep(), first, passes);
    RunKeepsUUIDs(first, passes);
    NothingHidden(last.target);
    NothingHidden(Managed(users));
    if Sync(users, last.target, HashesEqual(last.target, users), last.plan).failure.None? {
      SuccessReachesTarget(users, last.target, last.plan);
    }
  }
}
