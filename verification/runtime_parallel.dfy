/** internal/runtimesync/sync.go: syncAll, one goroutine for each configured node, at most
    `limit` of them past the semaphore at a time.  Each node has its own runtime endpoint. */
module RuntimeParallel {
  import opened Ordering
  import opened Reconcile
  import opened Results
  import opened RuntimeUsers
  import opened RuntimeSync
  import Runs
  import opened Text

  datatype Job = Job(target: Users, plan: Plan, now: Time)

  // Where a goroutine is: blocked on the semaphore, about to make a call, or done.
  datatype Phase =
    | Waiting
    | ListingTargets
    | ListingUsers
    | Removing(runtime: Users, next: nat, p: Progress<string, Identity>)
    | Adding(runtime: Users, next: nat, removals: Progress<string, Identity>, p: Progress<string, Identity>)
    | Marking(end: PassEnd)
    | Returned(end: PassEnd)
    | Finished(end: PassEnd)
    | Cancelled

  // A goroutine with the runtime it talks to and the row it reports to.
  datatype Worker = Worker(job: Job, phase: Phase, users: Users, status: NodeStatus)

  predicate Busy(w: Worker) { !w.phase.Waiting? && !w.phase.Finished? && !w.phase.Cancelled? }

  function KeptFor(job: Job, runtime: Users): set<string> { Kept(Same, job.target, runtime) }

  function RemoveStep(w: Worker, runtime: Users): (Progress<string, Identity>, string) -> Progress<string, Identity> {
    Remover(KeptFor(w.job, runtime), w.job.plan.remove)
  }

  function AddStep(w: Worker, runtime: Users): (Progress<string, Identity>, string) -> Progress<string, Identity> {
    Adder(w.job.target, KeptFor(w.job, runtime), w.job.plan.add)
  }

  // One call of a busy goroutine, with what it computes before the next call.
  ghost function Advance(w: Worker): Worker {
    match w.phase
    case ListingTargets =>
      if w.job.plan.targets.Some?
      then w.(phase := Marking(PassEnd(w.users, 0, 0, 0, false, w.job.plan.targets)))
      else w.(phase := ListingUsers)
    case ListingUsers =>
      if w.job.plan.listing.Some?
      then w.(phase := Marking(PassEnd(w.users, 0, 0, 0, false, w.job.plan.listing)))
      else if HashesEqual(w.job.target, w.users)
      then w.(phase := Marking(PassEnd(w.users, 0, 0, 0, true, None)))
      else w.(phase := Removing(Managed(w.users), 0, Begin(w.users)))
    case Removing(runtime, next, p) =>
      var keys := Sorted(runtime.Keys);
      if p.error.Some? then w.(phase := Marking(EndWith(Diff(p, Begin(p.table)))))
      else if next >= |keys| then w.(phase := Adding(runtime, 0, p, Begin(p.table)))
      else
        var q := RemoveStep(w, runtime)(p, keys[next]);
        w.(users := q.table, phase := Removing(runtime, next + 1, q))
    case Adding(runtime, next, removals, p) =>
      var keys := Sorted(w.job.target.Keys);
      if p.error.Some? || next >= |keys| then w.(phase := Marking(EndWith(Diff(removals, p))))
      else
        var q := AddStep(w, runtime)(p, keys[next]);
        w.(users := q.table, phase := Adding(runtime, next + 1, removals, q))
    case Marking(end) => w.(status := StatusAfter(w.status, end, w.job.plan, w.job.now), phase := Returned(end))
    case _ => w
  }

  function EndWith(d: Diff<string, Identity>): PassEnd {
    PassEnd(d.Table(), d.additions.count, d.removals.count, d.Silent(), false, d.Error())
  }

  ghost function Iterate(w: Worker, k: nat): Worker
    decreases k
  {
    if k == 0 then w else Iterate(Advance(w), k - 1)
  }

  ghost predicate Reaches(w: Worker, f: Worker) { exists k: nat :: Iterate(w, k) == f }

  lemma ReachNext(w: Worker, f: Worker)
    requires Reaches(Advance(w), f)
    ensures Reaches(w, f)
  {
    var k: nat :| Iterate(Advance(w), k) == f;
    assert Iterate(w, k + 1) == f;
  }

  lemma ReachSelf(w: Worker)
    ensures Reaches(w, w)
  {
    assert Iterate(w, 0) == w;
  }

  // The end of a goroutine that runs alone: SyncNode's specification.
  ghost function Alone(w: Worker): Worker {
    var end := Sync(w.users, w.job.target, HashesEqual(w.job.target, w.users), w.job.plan);
    Worker(w.job, Returned(end), end.users, StatusAfter(w.status, end, w.job.plan, w.job.now))
  }

  lemma MarkingReturns(w: Worker)
    requires w.phase.Marking?
    ensures Reaches(w, Worker(w.job, Returned(w.phase.end), w.users,
                              StatusAfter(w.status, w.phase.end, w.job.plan, w.job.now)))
  {
    ReachSelf(Advance(w));
    ReachNext(w, Advance(w));
  }

  // What a goroutine that has finished its loops reports.
  function Ended(job: Job, status: NodeStatus, d: Diff<string, Identity>): Worker {
    Worker(job, Returned(EndWith(d)), d.Table(), StatusAfter(status, EndWith(d), job.plan, job.now))
  }

  // In the addition loop, with `i` keys behind.
  ghost predicate InAdditions(w: Worker, runtime: Users, r: Progress<string, Identity>, i: nat) {
    && i <= |Sorted(w.job.target.Keys)|
    && w.phase == Adding(runtime, i, r, Runs.Run(AddStep(w, runtime), Begin(r.table), Sorted(w.job.target.Keys), i))
    && w.users == w.phase.p.table
  }

  lemma AdditionMoves(w: Worker, runtime: Users, r: Progress<string, Identity>, i: nat)
    requires InAdditions(w, runtime, r, i) && i < |Sorted(w.job.target.Keys)| && w.phase.p.error.None?
    ensures InAdditions(Advance(w), runtime, r, i + 1)
    ensures Advance(w).job == w.job && Advance(w).status == w.status
  {
    var q := AddStep(w, runtime)(w.phase.p, Sorted(w.job.target.Keys)[i]);
    assert Advance(w) == w.(users := q.table, phase := Adding(runtime, i + 1, r, q));
  }

  ghost function AdditionsFor(job: Job, runtime: Users, r: Progress<string, Identity>): Diff<string, Identity> {
    Diff(r, AddAll(r.table, job.target, KeptFor(job, runtime), Sorted(job.target.Keys), job.plan.add))
  }

  lemma AdditionEnds(w: Worker, runtime: Users, r: Progress<string, Identity>, i: nat)
    requires InAdditions(w, runtime, r, i) && (w.phase.p.error.Some? || i == |Sorted(w.job.target.Keys)|)
    ensures Reaches(w, Ended(w.job, w.status, AdditionsFor(w.job, runtime, r)))
  {
    var p := w.phase.p;
    if p.error.Some? {
      AdderStops(r.table, w.job.target, KeptFor(w.job, runtime), Sorted(w.job.target.Keys), w.job.plan.add, i);
    }
    assert p == AddAll(r.table, w.job.target, KeptFor(w.job, runtime), Sorted(w.job.target.Keys), w.job.plan.add);
    MarkingReturns(Advance(w));
    ReachNext(w, Ended(w.job, w.status, Diff(r, p)));
  }

  lemma {:induction false} AddingReturns(w: Worker, runtime: Users, r: Progress<string, Identity>, i: nat, f: Worker)
    requires InAdditions(w, runtime, r, i)
    requires f == Ended(w.job, w.status, AdditionsFor(w.job, runtime, r))
    ensures Reaches(w, f)
    decreases |Sorted(w.job.target.Keys)| - i
  {
    if w.phase.p.error.Some? || i == |Sorted(w.job.target.Keys)| {
      AdditionEnds(w, runtime, r, i);
    } else {
      AdditionMoves(w, runtime, r, i);
      AddingReturns(Advance(w), runtime, r, i + 1, f);
      ReachNext(w, f);
    }
  }

  // In the removal loop, with `i` keys behind.
  ghost predicate InRemovals(w: Worker, table: Users, runtime: Users, i: nat) {
    && i <= |Sorted(runtime.Keys)|
    && w.phase == Removing(runtime, i, Runs.Run(RemoveStep(w, runtime), Begin(table), Sorted(runtime.Keys), i))
    && w.users == w.phase.p.table
  }

  lemma RemovalMoves(w: Worker, table: Users, runtime: Users, i: nat)
    requires InRemovals(w, table, runtime, i) && i < |Sorted(runtime.Keys)| && w.phase.p.error.None?
    ensures InRemovals(Advance(w), table, runtime, i + 1)
    ensures Advance(w).job == w.job && Advance(w).status == w.status
  {
    var q := RemoveStep(w, runtime)(w.phase.p, Sorted(runtime.Keys)[i]);
    assert Advance(w) == w.(users := q.table, phase := Removing(runtime, i + 1, q));
  }

  ghost function DiffFor(job: Job, table: Users, runtime: Users): Diff<string, Identity> {
    Apply(table, job.target, KeptFor(job, runtime), Sorted(runtime.Keys), Sorted(job.target.Keys),
          job.plan.remove, job.plan.add)
  }

  lemma RemovalEnds(w: Worker, table: Users, runtime: Users, i: nat)
    requires InRemovals(w, table, runtime, i) && (w.phase.p.error.Some? || i == |Sorted(runtime.Keys)|)
    ensures Reaches(w, Ended(w.job, w.status, DiffFor(w.job, table, runtime)))
  {
    var p, f := w.phase.p, Ended(w.job, w.status, DiffFor(w.job, table, runtime));
    if p.error.Some? {
      RemoverStops(table, KeptFor(w.job, runtime), Sorted(runtime.Keys), w.job.plan.remove, i);
      assert p == RemoveAll(table, KeptFor(w.job, runtime), Sorted(runtime.Keys), w.job.plan.remove);
      MarkingReturns(Advance(w));
    } else {
      assert p == RemoveAll(table, KeptFor(w.job, runtime), Sorted(runtime.Keys), w.job.plan.remove);
      AddingReturns(Advance(w), runtime, p, 0, f);
    }
    ReachNext(w, f);
  }

  lemma {:induction false} RemovingReturns(w: Worker, table: Users, runtime: Users, i: nat, f: Worker)
    requires InRemovals(w, table, runtime, i)
    requires f == Ended(w.job, w.status, DiffFor(w.job, table, runtime))
    ensures Reaches(w, f)
    decreases |Sorted(runtime.Keys)| - i
  {
    if w.phase.p.error.Some? || i == |Sorted(runtime.Keys)| {
      RemovalEnds(w, table, runtime, i);
    } else {
      RemovalMoves(w, table, runtime, i);
      RemovingReturns(Advance(w), table, runtime, i + 1, f);
      ReachNext(w, f);
    }
  }

  /** Call by call, a goroutine that has the semaphore does exactly one pass. */
  lemma CallsMakeAPass(w: Worker)
    requires w.phase.ListingTargets?
    ensures Reaches(w, Alone(w))
  {
    var w1 := Advance(w);
    if w.job.plan.targets.Some? {
      MarkingReturns(w1);
    } else {
      var w2 := Advance(w1);
      if w.job.plan.listing.Some? || HashesEqual(w.job.target, w.users) {
        MarkingReturns(w2);
      } else {
        RemovingReturns(w2, w.users, Managed(w.users), 0, Alone(w));
      }
      ReachNext(w1, Alone(w));
    }
    ReachNext(w, Alone(w));
  }

  lemma {:induction false} ReturnedStays(w: Worker, k: nat)
    requires w.phase.Returned?
    ensures Iterate(w, k) == w
  {
    if k > 0 {
      ReturnedStays(w, k - 1);
    }
  }

  lemma {:induction false} IterateAdds(w: Worker, j: nat, k: nat)
    ensures Iterate(w, j + k) == Iterate(Iterate(w, j), k)
    decreases j
  {
    if j > 0 {
      IterateAdds(Advance(w), j - 1, k);
    }
  }

  // A goroutine can return in one way only.
  lemma OneWayToReturn(w: Worker, a: Worker, b: Worker)
    requires Reaches(w, a) && Reaches(w, b) && a.phase.Returned? && b.phase.Returned?
    ensures a == b
  {
    var j: nat :| Iterate(w, j) == a;
    var k: nat :| Iterate(w, k) == b;
    ReturnedStays(a, k);
    ReturnedStays(b, j);
    IterateAdds(w, j, k);
    IterateAdds(w, k, j);
  }

  // ---- All goroutines together ----

  datatype State = State(workers: seq<Worker>, held: nat)

  // Cancelling the context wakes a goroutine that waits; the calls of the others then fail,
  // as their plans say.
  datatype Event = Acquire(i: nat) | Call(i: nat) | Release(i: nat) | Cancel(i: nat)

  ghost function Step(limit: nat): (State, Event) -> State {
    (s: State, e: Event) =>
      if e.i >= |s.workers| then s
      else
        var w := s.workers[e.i];
        match e
        case Acquire(i) =>
          if w.phase.Waiting? && s.held < limit
          then State(s.workers[i := w.(phase := ListingTargets)], s.held + 1) else s
        case Call(i) => s.(workers := s.workers[i := Advance(w)])
        case Release(i) =>
          if w.phase.Returned? && s.held > 0
          then State(s.workers[i := w.(phase := Finished(w.phase.end))], s.held - 1) else s
        case Cancel(i) => if w.phase.Waiting? then s.(workers := s.workers[i := w.(phase := Cancelled)]) else s
  }

  function BusyUpTo(workers: seq<Worker>, n: nat): nat
    requires n <= |workers|
  {
    if n == 0 then 0 else BusyUpTo(workers, n - 1) + (if Busy(workers[n - 1]) then 1 else 0)
  }

  function InProgress(s: State): nat { BusyUpTo(s.workers, |s.workers|) }

  lemma {:induction false} BusyUpdate(workers: seq<Worker>, i: nat, w: Worker, n: nat)
    requires i < |workers| && n <= |workers|
    ensures BusyUpTo(workers[i := w], n) ==
            BusyUpTo(workers, n) + (if i < n then (if Busy(w) then 1 else 0) - (if Busy(workers[i]) then 1 else 0) else 0)
  {
    if n > 0 {
      BusyUpdate(workers, i, w, n - 1);
    }
  }

  lemma AdvanceKeepsBusy(w: Worker)
    ensures Busy(Advance(w)) == Busy(w) && Advance(w).job == w.job
    ensures !Busy(w) ==> Advance(w) == w
  {
  }

  // Where a goroutine can be, given how it started.
  ghost predicate OnItsWay(start: Worker, w: Worker) {
    || w == start
    || w == start.(phase := Cancelled)
    || Reaches(start.(phase := ListingTargets), w)
    || (w.phase.Finished? && Reaches(start.(phase := ListingTargets), w.(phase := Returned(w.phase.end))))
  }

  lemma {:induction false} IterateNext(w: Worker, k: nat)
    ensures Advance(Iterate(w, k)) == Iterate(w, k + 1)
    decreases k
  {
    if k > 0 {
      IterateNext(Advance(w), k - 1);
    }
  }

  lemma ReachMore(w: Worker, f: Worker)
    requires Reaches(w, f)
    ensures Reaches(w, Advance(f))
  {
    var k: nat :| Iterate(w, k) == f;
    IterateNext(w, k);
  }

  ghost predicate Consistent(start: seq<Worker>, limit: nat, s: State) {
    && |s.workers| == |start|
    && s.held == InProgress(s) <= limit
    && forall i :: 0 <= i < |start| ==> OnItsWay(start[i], s.workers[i])
  }

  lemma {:induction false} IterateKeepsBusy(w: Worker, k: nat)
    ensures Busy(Iterate(w, k)) == Busy(w)
    decreases k
  {
    AdvanceKeepsBusy(w);
    if k > 0 {
      IterateKeepsBusy(Advance(w), k - 1);
    }
  }

  lemma BeganStaysBusy(began: Worker, w: Worker)
    requires Busy(began) && Reaches(began, w)
    ensures Busy(w)
  {
    var k: nat :| Iterate(began, k) == w;
    IterateKeepsBusy(began, k);
  }

  lemma WorkerMoves(start: Worker, s: State, limit: nat, e: Event)
    requires start.phase.Waiting? && e.i < |s.workers| && OnItsWay(start, s.workers[e.i])
    ensures OnItsWay(start, Step(limit)(s, e).workers[e.i])
  {
    var w, began := s.workers[e.i], start.(phase := ListingTargets);
    if Reaches(began, w) {
      BeganStaysBusy(began, w);
    }
    match e
    case Acquire(_) => ReachSelf(began);
    case Call(_) =>
      AdvanceKeepsBusy(w);
      if Reaches(began, w) {
        ReachMore(began, w);
      }
    case Release(_) =>
    case Cancel(_) =>
  }

  lemma BusyCounted(s: State, limit: nat, e: Event)
    requires s.held == InProgress(s) <= limit
    ensures var t := Step(limit)(s, e); t.held == InProgress(t) <= limit
  {
    if e.i < |s.workers| {
      var t := Step(limit)(s, e);
      var w := s.workers[e.i];
      AdvanceKeepsBusy(w);
      BusyUpdate(s.workers, e.i, t.workers[e.i], |s.workers|);
      assert t.workers == s.workers[e.i := t.workers[e.i]];
    }
  }

  lemma StepConsistent(start: seq<Worker>, limit: nat, s: State, e: Event)
    requires forall i :: 0 <= i < |start| ==> start[i].phase.Waiting?
    requires Consistent(start, limit, s)
    ensures Consistent(start, limit, Step(limit)(s, e))
  {
    BusyCounted(s, limit, e);
    var t := Step(limit)(s, e);
    forall i | 0 <= i < |start| ensures OnItsWay(start[i], t.workers[i]) {
      if i == e.i {
        WorkerMoves(start[i], s, limit, e);
      } else {
        assert t.workers[i] == s.workers[i];
      }
    }
  }

  lemma {:induction false} NobodyBusy(workers: seq<Worker>, n: nat)
    requires n <= |workers| && forall i :: 0 <= i < n ==> !Busy(workers[i])
    ensures BusyUpTo(workers, n) == 0
  {
    if n > 0 {
      NobodyBusy(workers, n - 1);
    }
  }

  ghost predicate Fresh(start: seq<Worker>) { forall i :: 0 <= i < |start| ==> start[i].phase.Waiting? }

  lemma RunConsistent(start: seq<Worker>, limit: nat, events: seq<Event>)
    requires Fresh(start)
    ensures Consistent(start, limit, Runs.After(Step(limit), State(start, 0), events))
  {
    NobodyBusy(start, |start|);
    var inv := (s: State) => Consistent(start, limit, s);
    forall s: State, e: Event | inv(s) ensures inv(Step(limit)(s, e)) { StepConsistent(start, limit, s, e); }
    Runs.Invariant(Step(limit), State(start, 0), events, |events|, inv);
  }

  /** In every interleaving at most `limit` nodes are in progress. */
  lemma AtMostLimit(start: seq<Worker>, limit: nat, events: seq<Event>)
    requires Fresh(start)
    ensures InProgress(Runs.After(Step(limit), State(start, 0), events)) <= limit
  {
    RunConsistent(start, limit, events);
  }

  /** In every interleaving a node whose goroutine has finished is as a pass alone leaves it,
      and a node whose goroutine gave up waiting, or has not begun, is untouched. */
  lemma ParallelIsSequential(start: seq<Worker>, limit: nat, events: seq<Event>, i: nat)
    requires Fresh(start) && i < |start|
    ensures var s := Runs.After(Step(limit), State(start, 0), events);
            && i < |s.workers|
            && (s.workers[i].phase.Finished? ==>
                  s.workers[i].(phase := Returned(s.workers[i].phase.end)) == Alone(start[i]))
            && (s.workers[i].phase.Waiting? || s.workers[i].phase.Cancelled? ==>
                  s.workers[i].(phase := Waiting) == start[i])
  {
    RunConsistent(start, limit, events);
    var w, began := Runs.After(Step(limit), State(start, 0), events).workers[i], start[i].(phase := ListingTargets);
    assert OnItsWay(start[i], w);
    CallsMakeAPass(began);
    assert Alone(began) == Alone(start[i]);
    if Reaches(began, w) {
      BeganStaysBusy(began, w);
    } else if w.phase.Finished? {
      OneWayToReturn(began, w.(phase := Returned(w.phase.end)), Alone(began));
    }
  }

  lemma {:induction false} SomebodyBusy(workers: seq<Worker>, n: nat)
    requires n <= |workers| && BusyUpTo(workers, n) > 0
    ensures exists i :: 0 <= i < n && Busy(workers[i])
  {
    if !Busy(workers[n - 1]) {
      SomebodyBusy(workers, n - 1);
    }
  }

  // ---- Progress ----

  function Left(next: nat, keys: nat): nat { if next <= keys then keys - next else 0 }

  // A bound on the steps that a goroutine still has to take.
  ghost function Remaining(w: Worker): nat {
    var users, targets := |Sorted(Managed(w.users).Keys)|, |Sorted(w.job.target.Keys)|;
    match w.phase
    case Waiting => 8 + users + targets
    case ListingTargets => 7 + users + targets
    case ListingUsers => 6 + users + targets
    case Removing(runtime, next, _) => 5 + Left(next, |Sorted(runtime.Keys)|) + targets
    case Adding(_, next, _, _) => 4 + Left(next, targets)
    case Marking(_) => 2
    case Returned(_) => 1
    case _ => 0
  }

  predicate CanCall(w: Worker) { Busy(w) && !w.phase.Returned? }

  lemma ListingLowers(w: Worker)
    requires w.phase.ListingTargets? || w.phase.Marking?
    ensures Remaining(Advance(w)) < Remaining(w)
  {
  }

  lemma ListingUsersLowers(w: Worker)
    requires w.phase.ListingUsers?
    ensures Remaining(Advance(w)) < Remaining(w)
  {
    var u := Advance(w);
    assert u.job == w.job && (u.phase.Marking? || u.phase == Removing(Managed(w.users), 0, Begin(w.users)));
  }

  lemma RemovingLowers(w: Worker)
    requires w.phase.Removing?
    ensures Remaining(Advance(w)) < Remaining(w)
  {
    var runtime, next := w.phase.runtime, w.phase.next;
    var u := Advance(w);
    assert u.job == w.job;
    assert u.phase.Marking? || u.phase.Adding? || (u.phase.Removing? && next < |Sorted(runtime.Keys)|);
    assert u.phase.Removing? ==> u.phase.runtime == runtime && u.phase.next == next + 1;
  }

  lemma AddingLowers(w: Worker)
    requires w.phase.Adding?
    ensures Remaining(Advance(w)) < Remaining(w)
  {
    var u := Advance(w);
    assert u.job == w.job;
    assert u.phase.Marking? || (u.phase.Adding? && w.phase.next < |Sorted(w.job.target.Keys)|);
    assert u.phase.Adding? ==> u.phase.next == w.phase.next + 1;
  }

  lemma CallLowers(w: Worker)
    requires CanCall(w)
    ensures Remaining(Advance(w)) < Remaining(w)
  {
    match w.phase
    case ListingUsers => ListingUsersLowers(w);
    case Removing(_, _, _) => RemovingLowers(w);
    case Adding(_, _, _, _) => AddingLowers(w);
    case _ => ListingLowers(w);
  }

  lemma SemaphoreLowers(w: Worker)
    ensures w.phase.Waiting? ==> Remaining(w.(phase := ListingTargets)) < Remaining(w) && Remaining(w.(phase := Cancelled)) < Remaining(w)
    ensures w.phase.Returned? ==> Remaining(w.(phase := Finished(w.phase.end))) < Remaining(w)
  {
  }

  ghost function SumUpTo(workers: seq<Worker>, n: nat, f: Worker -> nat): nat
    requires n <= |workers|
  {
    if n == 0 then 0 else SumUpTo(workers, n - 1, f) + f(workers[n - 1])
  }

  ghost function Steps(): Worker -> nat { (w: Worker) => Remaining(w) }

  ghost function Pending(s: State): nat { SumUpTo(s.workers, |s.workers|, Steps()) }

  lemma {:induction false} SumUpdate(workers: seq<Worker>, i: nat, w: Worker, n: nat, f: Worker -> nat)
    requires i < |workers| && n <= |workers|
    ensures SumUpTo(workers[i := w], n, f) == SumUpTo(workers, n, f) + (if i < n then f(w) - f(workers[i]) else 0)
  {
    if n > 0 {
      SumUpdate(workers, i, w, n - 1, f);
    }
  }

  lemma IdleCall(s: State, limit: nat, i: nat)
    requires i < |s.workers|
    ensures !CanCall(s.workers[i]) ==> Step(limit)(s, Call(i)) == s
  {
    var w := s.workers[i];
    if !CanCall(w) {
      assert Advance(w) == w;
      assert s.workers[i := w] == s.workers;
    }
  }

  lemma CallStep(s: State, limit: nat, i: nat)
    requires i < |s.workers|
    ensures Step(limit)(s, Call(i)).workers == s.workers[i := Advance(s.workers[i])]
  {
  }

  lemma OtherStep(s: State, limit: nat, e: Event)
    requires e.i < |s.workers| && !e.Call? && Step(limit)(s, e) != s
    ensures var w, t := s.workers[e.i], Step(limit)(s, e).workers;
            || (w.phase.Waiting? && t == s.workers[e.i := w.(phase := ListingTargets)])
            || (w.phase.Waiting? && t == s.workers[e.i := w.(phase := Cancelled)])
            || (w.phase.Returned? && t == s.workers[e.i := w.(phase := Finished(w.phase.end))])
  {
  }

  lemma WorkerLowers(s: State, limit: nat, e: Event)
    requires e.i < |s.workers| && Step(limit)(s, e) != s
    ensures var t := Step(limit)(s, e);
            |t.workers| == |s.workers| && t.workers == s.workers[e.i := t.workers[e.i]] &&
            Remaining(t.workers[e.i]) < Remaining(s.workers[e.i])
  {
    if e.Call? {
      IdleCall(s, limit, e.i);
      CallStep(s, limit, e.i);
      CallLowers(s.workers[e.i]);
    } else {
      OtherStep(s, limit, e);
      SemaphoreLowers(s.workers[e.i]);
    }
  }

  /** Every step that does anything brings the end closer ... */
  lemma StepLowers(s: State, limit: nat, e: Event)
    requires Step(limit)(s, e) != s
    ensures Pending(Step(limit)(s, e)) < Pending(s)
  {
    WorkerLowers(s, limit, e);
    SumUpdate(s.workers, e.i, Step(limit)(s, e).workers[e.i], |s.workers|, Steps());
  }

  ghost function PendingNow(): State -> nat { (s: State) => Pending(s) }

  // ... so however the goroutines are scheduled, only so many steps do anything.
  lemma RunsEnd(limit: nat, s: State, events: seq<Event>, n: nat)
    requires n <= |events|
    requires forall i :: 0 <= i < n ==> Runs.Run(Step(limit), s, events, i + 1) != Runs.Run(Step(limit), s, events, i)
    ensures n + Pending(Runs.Run(Step(limit), s, events, n)) <= Pending(s)
  {
    forall x: State, e: Event | Step(limit)(x, e) != x ensures PendingNow()(Step(limit)(x, e)) < PendingNow()(x) {
      StepLowers(x, limit, e);
    }
    Runs.Descends(Step(limit), s, events, n, PendingNow());
  }

  predicate Done(w: Worker) { w.phase.Finished? || w.phase.Cancelled? }

  predicate AllDone(s: State) { forall i :: 0 <= i < |s.workers| ==> Done(s.workers[i]) }

  predicate NoCancel(events: seq<Event>) { forall i :: 0 <= i < |events| ==> !events[i].Cancel? }

  lemma BusyCanMove(s: State, limit: nat, j: nat)
    requires j < |s.workers| && Busy(s.workers[j]) && s.held > 0
    ensures Step(limit)(s, Call(j)) != s || Step(limit)(s, Release(j)) != s
  {
    var w := s.workers[j];
    if w.phase.Returned? {
      assert Step(limit)(s, Release(j)).held == s.held - 1;
    } else {
      CallLowers(w);
      assert Step(limit)(s, Call(j)).workers[j] == Advance(w) != w;
    }
  }

  lemma {:induction false} BusyIsCounted(workers: seq<Worker>, n: nat, j: nat)
    requires j < n <= |workers| && Busy(workers[j])
    ensures BusyUpTo(workers, n) > 0
  {
    if j < n - 1 {
      BusyIsCounted(workers, n - 1, j);
    }
  }

  lemma SomeMove(start: seq<Worker>, limit: nat, s: State, i: nat)
    requires Consistent(start, limit, s) && limit > 0 && i < |s.workers| && !Done(s.workers[i])
    ensures exists e: Event :: !e.Cancel? && Step(limit)(s, e) != s
  {
    if s.workers[i].phase.Waiting? && s.held < limit {
      assert Step(limit)(s, Acquire(i)).held == s.held + 1;
      assert !Acquire(i).Cancel? && Step(limit)(s, Acquire(i)) != s;
    } else {
      var j := i;
      if s.workers[i].phase.Waiting? {
        SomebodyBusy(s.workers, |s.workers|);
        j :| 0 <= j < |s.workers| && Busy(s.workers[j]);
      } else {
        BusyIsCounted(s.workers, |s.workers|, i);
      }
      BusyCanMove(s, limit, j);
      assert !Call(j).Cancel? && !Release(j).Cancel?;
    }
  }

  /** No interleaving gets stuck: while some node is neither finished nor cancelled, some goroutine
      can take the semaphore, make its next call or give the semaphore back, and any of these
      steps brings the end closer. */
  lemma NeverStuck(start: seq<Worker>, limit: nat, events: seq<Event>)
    requires Fresh(start) && limit > 0
    ensures var s := Runs.After(Step(limit), State(start, 0), events);
            AllDone(s) || exists e: Event :: !e.Cancel? && Step(limit)(s, e) != s && Pending(Step(limit)(s, e)) < Pending(s)
  {
    RunConsistent(start, limit, events);
    var s := Runs.After(Step(limit), State(start, 0), events);
    if !AllDone(s) {
      var i :| 0 <= i < |s.workers| && !Done(s.workers[i]);
      SomeMove(start, limit, s, i);
      var e: Event :| !e.Cancel? && Step(limit)(s, e) != s;
      StepLowers(s, limit, e);
    }
  }

  ghost function DoneAfter(start: seq<Worker>, limit: nat): seq<Event> -> bool {
    (events: seq<Event>) => AllDone(Runs.After(Step(limit), State(start, 0), events))
  }

  ghost predicate Finishable(done: seq<Event> -> bool, events: seq<Event>) {
    exists more :: NoCancel(more) && done(events + more)
  }

  lemma FinishableBefore(done: seq<Event> -> bool, events: seq<Event>, e: Event)
    requires !e.Cancel? && Finishable(done, events + [e])
    ensures Finishable(done, events)
  {
    var rest :| NoCancel(rest) && done(events + [e] + rest);
    assert events + [e] + rest == events + ([e] + rest) && NoCancel([e] + rest);
  }

  lemma {:induction false} CanBeDone(start: seq<Worker>, limit: nat, events: seq<Event>, bound: nat)
    requires Fresh(start) && limit > 0 && Pending(Runs.After(Step(limit), State(start, 0), events)) <= bound
    ensures Finishable(DoneAfter(start, limit), events)
    decreases bound
  {
    var s := Runs.After(Step(limit), State(start, 0), events);
    NeverStuck(start, limit, events);
    if AllDone(s) {
      assert events + [] == events && NoCancel([]);
    } else {
      var e: Event :| !e.Cancel? && Step(limit)(s, e) != s && Pending(Step(limit)(s, e)) < Pending(s);
      Runs.OneMore(Step(limit), State(start, 0), events, e);
      CanBeDone(start, limit, events + [e], bound - 1);
      FinishableBefore(DoneAfter(start, limit), events, e);
    }
  }

  predicate NoneCancelled(s: State) { forall i :: 0 <= i < |s.workers| ==> !s.workers[i].phase.Cancelled? }

  lemma StepCancelsNone(s: State, limit: nat, e: Event)
    requires NoneCancelled(s) && !e.Cancel?
    ensures NoneCancelled(Step(limit)(s, e))
  {
  }

  lemma {:induction false} RunCancelsNone(limit: nat, s: State, events: seq<Event>, n: nat)
    requires n <= |events| && NoneCancelled(s) && NoCancel(events)
    ensures NoneCancelled(Runs.Run(Step(limit), s, events, n))
  {
    if n > 0 {
      RunCancelsNone(limit, s, events, n - 1);
      StepCancelsNone(Runs.Run(Step(limit), s, events, n - 1), limit, events[n - 1]);
    }
  }

  // Every node is as a pass alone leaves it.
  ghost predicate AllAsAlone(start: seq<Worker>, s: State) {
    && |s.workers| == |start|
    && forall i :: 0 <= i < |start| ==>
         s.workers[i].phase.Finished? && s.workers[i].(phase := Returned(s.workers[i].phase.end)) == Alone(start[i])
  }

  /** Without cancellation every run can go on until all nodes are finished, each as a pass alone
      leaves it. */
  lemma EveryRunCanFinish(start: seq<Worker>, limit: nat, events: seq<Event>)
    requires Fresh(start) && limit > 0 && NoCancel(events)
    ensures exists more :: NoCancel(more) && AllAsAlone(start, Runs.After(Step(limit), State(start, 0), events + more))
  {
    CanBeDone(start, limit, events, Pending(Runs.After(Step(limit), State(start, 0), events)));
    var more :| NoCancel(more) && DoneAfter(start, limit)(events + more);
    DoneAsAlone(start, limit, events + more);
  }

  lemma DoneAsAlone(start: seq<Worker>, limit: nat, events: seq<Event>)
    requires Fresh(start) && NoCancel(events) && AllDone(Runs.After(Step(limit), State(start, 0), events))
    ensures AllAsAlone(start, Runs.After(Step(limit), State(start, 0), events))
  {
    var s := Runs.After(Step(limit), State(start, 0), events);
    RunConsistent(start, limit, events);
    RunCancelsNone(limit, State(start, 0), events, |events|);
    forall i | 0 <= i < |start|
      ensures s.workers[i].phase.Finished? && s.workers[i].(phase := Returned(s.workers[i].phase.end)) == Alone(start[i])
    {
      assert Done(s.workers[i]);
      ParallelIsSequential(start, limit, events, i);
    }
  }
}
