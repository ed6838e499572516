/** internal/store/migrations.go: SQL migrations as a log that several runners may extend and
    that may lose a runner at any point.

    A migration's statements and the row that records it commit together or not at all. */
module Migrations {
  import opened Ordering
  import opened Results
  import opened Runs
  import opened Text

  datatype File = File(version: string, content: string)

  datatype Applied = Applied(version: string, now: bool)

  // schema_migrations: version to checksum; the log lists what was committed, in order.
  type Table = map<string, string>

  // Where one run of ApplySQLMigrations is.  `known` is what it read of the table at the
  // start; as many files are behind it as it has results.
  datatype Runner =
    | Idle
    | Running(files: seq<File>, known: Table, results: seq<Applied>)
    | Stopped(files: seq<File>, results: seq<Applied>, complete: bool)

  datatype State = State(table: Table, log: seq<File>, runners: seq<Runner>)

  // How the next step of a run ends: as it should, with an unreadable file, with a statement
  // that fails, or with the death of the process before or after the commit.
  datatype Outcome = Works | Unreadable | Breaks | Dies(committed: bool)

  datatype Event = Start(i: nat, files: seq<File>) | Advance(i: nat, outcome: Outcome)

  // The runner, the table and the log after one step.
  datatype Effect = Effect(runner: Runner, table: Table, log: seq<File>)

  function Stop(r: Runner): Runner
    requires r.Running?
  {
    Stopped(r.files, r.results, false)
  }

  function Note(r: Runner, now: bool): Runner
    requires r.Running? && |r.results| < |r.files|
  {
    Running(r.files, r.known, r.results + [Applied(r.files[|r.results|].version, now)])
  }

  // One iteration of the loop; `sum` stands for SHA-256.
  function Iterate(sum: string -> string, r: Runner, table: Table, log: seq<File>, outcome: Outcome): Effect
    requires r.Running? && |r.results| < |r.files|
  {
    var f := r.files[|r.results|];
    if outcome.Unreadable? || TrimSpace(f.content) == "" then Effect(Stop(r), table, log)
    else if f.version in r.known then
      Effect(if r.known[f.version] != sum(f.content) then Stop(r) else Note(r, false), table, log)
    else if outcome.Breaks? || f.version in table || outcome == Dies(false) then Effect(Stop(r), table, log)
    else Effect(if outcome.Dies? then Stop(r) else Note(r, true), table[f.version := sum(f.content)], log + [f])
  }

  function Next(sum: string -> string, s: State, e: Event): State {
    if e.i >= |s.runners| then s
    else
      var r := s.runners[e.i];
      match e
      case Start(i, files) => if r.Running? then s else s.(runners := s.runners[i := Running(files, s.table, [])])
      case Advance(i, outcome) =>
        if !r.Running? then s
        else if |r.results| >= |r.files| then s.(runners := s.runners[i := Stopped(r.files, r.results, true)])
        else
          var f := Iterate(sum, r, s.table, s.log, outcome);
          State(f.table, f.log, s.runners[i := f.runner])
  }

  function Step(sum: string -> string): (State, Event) -> State { (s: State, e: Event) => Next(sum, s, e) }

  // ---- What every event keeps ----

  predicate Within(a: Table, b: Table) { forall v :: v in a ==> v in b && b[v] == a[v] }

  // Every committed version is in the table, and committed once.
  predicate LogOk(table: Table, log: seq<File>) {
    && (forall i :: 0 <= i < |log| ==> log[i].version in table)
    && (forall i, j :: 0 <= i < j < |log| ==> log[i].version != log[j].version)
  }

  predicate Recorded(sum: string -> string, table: Table, files: seq<File>, n: nat)
    requires n <= |files|
  {
    forall j :: 0 <= j < n ==> files[j].version in table && table[files[j].version] == sum(files[j].content)
  }

  // The results so far name the first files of the list, in order.
  predicate Prefix(files: seq<File>, results: seq<Applied>) {
    |results| <= |files| && forall j :: 0 <= j < |results| ==> results[j].version == files[j].version
  }

  // The results of a run are a prefix of its files, all of which are on record.
  predicate RunnerOk(sum: string -> string, table: Table, r: Runner) {
    match r
    case Idle => true
    case Running(files, known, results) =>
      Prefix(files, results) && Recorded(sum, table, files, |results|) && Within(known, table)
    case Stopped(files, results, complete) =>
      Prefix(files, results) && Recorded(sum, table, files, |results|) && (complete ==> |results| == |files|)
  }

  predicate Sound(sum: string -> string, s: State) {
    LogOk(s.table, s.log) && forall i :: 0 <= i < |s.runners| ==> RunnerOk(sum, s.table, s.runners[i])
  }

  lemma RunnerStaysOk(sum: string -> string, a: Table, b: Table, r: Runner)
    requires RunnerOk(sum, a, r) && Within(a, b)
    ensures RunnerOk(sum, b, r)
  {
  }

  lemma IterationGrows(sum: string -> string, r: Runner, table: Table, log: seq<File>, outcome: Outcome)
    requires r.Running? && |r.results| < |r.files| && LogOk(table, log)
    ensures var f := Iterate(sum, r, table, log, outcome);
            Within(table, f.table) && LogOk(f.table, f.log)
  {
  }

  lemma IterationKeepsRunner(sum: string -> string, r: Runner, table: Table, log: seq<File>, outcome: Outcome)
    requires r.Running? && |r.results| < |r.files| && RunnerOk(sum, table, r)
    ensures var f := Iterate(sum, r, table, log, outcome); RunnerOk(sum, f.table, f.runner)
  {
    var f, k := Iterate(sum, r, table, log, outcome), |r.results|;
    assert Within(table, f.table);
    RunnerStaysOk(sum, table, f.table, r);
    if f.runner.Running? {
      assert f.table[r.files[k].version] == sum(r.files[k].content);
    }
  }

  lemma EventKeeps(sum: string -> string, s: State, e: Event)
    requires Sound(sum, s)
    ensures Sound(sum, Next(sum, s, e)) && Within(s.table, Next(sum, s, e).table)
  {
    var t := Next(sum, s, e);
    if e.i < |s.runners| && e.Advance? && s.runners[e.i].Running? && |s.runners[e.i].results| < |s.runners[e.i].files| {
      var r := s.runners[e.i];
      IterationGrows(sum, r, s.table, s.log, e.outcome);
      IterationKeepsRunner(sum, r, s.table, s.log, e.outcome);
    }
    forall i | 0 <= i < |t.runners| ensures RunnerOk(sum, t.table, t.runners[i]) {
      if i != e.i {
        RunnerStaysOk(sum, s.table, t.table, s.runners[i]);
      }
    }
  }

  lemma RunKeeps(sum: string -> string, s: State, events: seq<Event>)
    requires Sound(sum, s)
    ensures Sound(sum, After(Step(sum), s, events)) && Within(s.table, After(Step(sum), s, events).table)
  {
    var inv := (x: State) => Sound(sum, x) && Within(s.table, x.table);
    forall x: State, e: Event | inv(x) ensures inv(Step(sum)(x, e)) { EventKeeps(sum, x, e); }
    Invariant(Step(sum), s, events, |events|, inv);
  }

  /** Exactly once: in every interleaving of any number of runs that stop at arbitrary points,
      no version's content is committed twice, and the results of each run are a prefix of its
      sorted list, all of it on record with the checksums of its files. */
  lemma CommittedAtMostOnce(sum: string -> string, runners: seq<Runner>, events: seq<Event>)
    requires forall i :: 0 <= i < |runners| ==> runners[i].Idle?
    ensures var s := After(Step(sum), State(map[], [], runners), events);
            && (forall i, j :: 0 <= i < j < |s.log| ==> s.log[i].version != s.log[j].version)
            && forall i :: 0 <= i < |s.runners| && !s.runners[i].Idle? ==>
                 Prefix(s.runners[i].files, s.runners[i].results) &&
                 Recorded(sum, s.table, s.runners[i].files, |s.runners[i].results|)
  {
    RunKeeps(sum, State(map[], [], runners), events);
  }

  /** A checksum that differs from the recorded one stops the run before any later file, and a
      stopped run commits nothing more. */
  lemma MismatchStops(sum: string -> string, s: State, i: nat, outcome: Outcome, later: Outcome)
    requires i < |s.runners| && s.runners[i].Running? && |s.runners[i].results| < |s.runners[i].files|
    requires var f := s.runners[i].files[|s.runners[i].results|];
             f.version in s.runners[i].known && s.runners[i].known[f.version] != sum(f.content)
    ensures var t := Next(sum, s, Advance(i, outcome));
            && t.table == s.table && t.log == s.log
            && t.runners[i] == Stopped(s.runners[i].files, s.runners[i].results, false)
            && Next(sum, t, Advance(i, later)) == t
  {
  }

  // ---- Running again ----

  // The run of `files` that found all of them on record.
  predicate Quiet(sum: string -> string, files: seq<File>, r: Runner) {
    && !r.Idle? && r.files == files
    && (forall j :: 0 <= j < |r.results| ==> !r.results[j].now)
    && (r.Running? ==> Recorded(sum, r.known, files, |files|))
  }

  // A step of a quiet run commits nothing.
  lemma QuietStep(sum: string -> string, s: State, files: seq<File>, e: Event)
    requires e.Advance? && e.i < |s.runners| && Quiet(sum, files, s.runners[e.i])
    ensures var t := Next(sum, s, e);
            t.table == s.table && t.log == s.log && e.i < |t.runners| && Quiet(sum, files, t.runners[e.i])
  {
  }

  predicate NotStarting(i: nat, e: Event) { e.Start? ==> e.i != i }

  lemma QuietEvent(sum: string -> string, s: State, files: seq<File>, i: nat, e: Event)
    requires i < |s.runners| && Quiet(sum, files, s.runners[i]) && NotStarting(i, e)
    ensures i < |Next(sum, s, e).runners| && Quiet(sum, files, Next(sum, s, e).runners[i])
  {
    if e.i == i {
      QuietStep(sum, s, files, e);
    }
  }

  /** A run after a complete one applies nothing, whatever other runners do meanwhile: none of
      its steps commits, and none of its results says that it applied a file. */
  lemma NothingAfterComplete(sum: string -> string, s: State, done: nat, i: nat, events: seq<Event>, outcome: Outcome)
    requires Sound(sum, s) && done < |s.runners| && i < |s.runners| && !s.runners[i].Running?
    requires s.runners[done].Stopped? && s.runners[done].complete
    requires forall e :: e in events ==> NotStarting(i, e)
    ensures var files := s.runners[done].files;
            var t := After(Step(sum), Next(sum, s, Start(i, files)), events);
            && i < |t.runners| && Quiet(sum, files, t.runners[i])
            && Next(sum, t, Advance(i, outcome)).table == t.table && Next(sum, t, Advance(i, outcome)).log == t.log
  {
    var files := s.runners[done].files;
    var s1 := Next(sum, s, Start(i, files));
    assert RunnerOk(sum, s.table, s.runners[done]);
    assert Quiet(sum, files, s1.runners[i]);
    var inv := (x: State) => i < |x.runners| && Quiet(sum, files, x.runners[i]);
    var allowed := (x: State, e: Event) => NotStarting(i, e);
    forall x: State, e: Event | inv(x) && allowed(x, e) ensures inv(Step(sum)(x, e)) { QuietEvent(sum, x, files, i, e); }
    forall j | 0 <= j < |events| ensures allowed(Run(Step(sum), s1, events, j), events[j]) { assert events[j] in events; }
    GuardedInvariant(Step(sum), s1, events, |events|, inv, allowed);
    QuietStep(sum, After(Step(sum), s1, events), files, Advance(i, outcome));
  }

  // ---- A run that nobody disturbs ----

  // One step, once the run has begun; a run that has ended, or is through, stays as it is.
  function Walk(sum: string -> string, e: Effect, outcome: Outcome): Effect {
    if !e.runner.Running? || |e.runner.results| >= |e.runner.files| then e
    else Iterate(sum, e.runner, e.table, e.log, outcome)
  }

  function Walks(sum: string -> string): (Effect, Outcome) -> Effect { (e: Effect, o: Outcome) => Walk(sum, e, o) }

  // Its state after `n` steps over tables that it finds at its start.
  function AloneUpTo(sum: string -> string, files: seq<File>, outcomes: seq<Outcome>, table: Table, log: seq<File>, n: nat): Effect
    requires n <= |outcomes|
  {
    Run(Walks(sum), Effect(Running(files, table, []), table, log), outcomes, n)
  }

  // A file that does not end the run: it can be read and is not blank; if it is on record, then with
  // its checksum; and if not, no file before it has its version, and its statements and commit work.
  predicate Fine(sum: string -> string, files: seq<File>, outcomes: seq<Outcome>, table: Table, i: nat)
    requires i < |files| == |outcomes|
  {
    var f := files[i];
    && outcomes[i] != Unreadable && TrimSpace(f.content) != ""
    && (f.version in table ==> table[f.version] == sum(f.content))
    && (f.version !in table ==> outcomes[i] == Works && forall j :: 0 <= j < i ==> files[j].version != f.version)
  }

  predicate AllFine(sum: string -> string, files: seq<File>, outcomes: seq<Outcome>, table: Table, n: nat)
    requires n <= |files| == |outcomes|
  {
    forall i :: 0 <= i < n ==> Fine(sum, files, outcomes, table, i)
  }

  // The files among the first `n` that are not on record.
  function NewUpTo(files: seq<File>, table: Table, n: nat): seq<File>
    requires n <= |files|
  {
    if n == 0 then []
    else NewUpTo(files, table, n - 1) + (if files[n - 1].version in table then [] else [files[n - 1]])
  }

  // The first `n` files have been gone through without an end.
  ghost predicate Through(sum: string -> string, files: seq<File>, table: Table, log: seq<File>, n: nat, e: Effect)
    requires n <= |files|
  {
    && e.runner.Running? && e.runner.files == files && e.runner.known == table && |e.runner.results| == n
    && (forall j :: 0 <= j < n ==> e.runner.results[j] == Applied(files[j].version, files[j].version !in table))
    && e.log == log + NewUpTo(files, table, n)
    && Within(table, e.table) && Recorded(sum, e.table, files, n)
    && (forall v :: v in e.table ==> v in table || exists j :: 0 <= j < n && files[j].version == v)
  }

  lemma NotFineStops(sum: string -> string, files: seq<File>, outcomes: seq<Outcome>, table: Table, log: seq<File>, n: nat, e: Effect)
    requires n < |files| == |outcomes| && Through(sum, files, table, log, n, e) && !Fine(sum, files, outcomes, table, n)
    ensures Iterate(sum, e.runner, e.table, e.log, outcomes[n]).runner == Stopped(files, e.runner.results, false)
  {
  }

  lemma KnownGoesOn(sum: string -> string, files: seq<File>, table: Table, log: seq<File>, n: nat, e: Effect)
    requires n < |files| && Through(sum, files, table, log, n, e)
    requires files[n].version in table && table[files[n].version] == sum(files[n].content)
    ensures Through(sum, files, table, log, n + 1, Effect(Note(e.runner, false), e.table, e.log))
  {
  }

  lemma NewGoesOn(sum: string -> string, files: seq<File>, table: Table, log: seq<File>, n: nat, e: Effect)
    requires n < |files| && Through(sum, files, table, log, n, e) && files[n].version !in e.table
    ensures Through(sum, files, table, log, n + 1,
                    Effect(Note(e.runner, true), e.table[files[n].version := sum(files[n].content)], e.log + [files[n]]))
  {
  }

  lemma FineGoesOn(sum: string -> string, files: seq<File>, outcomes: seq<Outcome>, table: Table, log: seq<File>, n: nat, e: Effect)
    requires n < |files| == |outcomes| && Through(sum, files, table, log, n, e) && Fine(sum, files, outcomes, table, n)
    ensures Through(sum, files, table, log, n + 1, Iterate(sum, e.runner, e.table, e.log, outcomes[n]))
  {
    var f, next := files[n], Iterate(sum, e.runner, e.table, e.log, outcomes[n]);
    if f.version in table {
      assert next == Effect(Note(e.runner, false), e.table, e.log);
      KnownGoesOn(sum, files, table, log, n, e);
    } else {
      assert f.version !in e.table;
      assert next == Effect(Note(e.runner, true), e.table[f.version := sum(f.content)], e.log + [f]);
      NewGoesOn(sum, files, table, log, n, e);
    }
  }

  ghost function ThroughIfFine(sum: string -> string, files: seq<File>, outcomes: seq<Outcome>, table: Table, log: seq<File>):
    (nat, Effect) -> bool
    requires |files| == |outcomes|
  {
    (n: nat, e: Effect) =>
      n <= |files| && AllFine(sum, files, outcomes, table, n) ==> Through(sum, files, table, log, n, e)
  }

  lemma ThroughWalks(sum: string -> string, files: seq<File>, outcomes: seq<Outcome>, table: Table, log: seq<File>, n: nat, e: Effect)
    requires n < |files| == |outcomes| && Through(sum, files, table, log, n, e) && Fine(sum, files, outcomes, table, n)
    ensures Through(sum, files, table, log, n + 1, Walk(sum, e, outcomes[n]))
  {
    FineGoesOn(sum, files, outcomes, table, log, n, e);
  }

  lemma WalkThrough(sum: string -> string, files: seq<File>, outcomes: seq<Outcome>, table: Table, log: seq<File>, n: nat, e: Effect)
    requires n < |files| == |outcomes| && ThroughIfFine(sum, files, outcomes, table, log)(n, e)
    ensures ThroughIfFine(sum, files, outcomes, table, log)(n + 1, Walks(sum)(e, outcomes[n]))
  {
    if AllFine(sum, files, outcomes, table, n + 1) {
      assert AllFine(sum, files, outcomes, table, n) && Fine(sum, files, outcomes, table, n);
      ThroughWalks(sum, files, outcomes, table, log, n, e);
    }
  }

  lemma AloneThrough(sum: string -> string, files: seq<File>, outcomes: seq<Outcome>, table: Table, log: seq<File>, n: nat)
    requires n <= |files| == |outcomes| && forall i :: 0 <= i < n ==> Fine(sum, files, outcomes, table, i)
    ensures Through(sum, files, table, log, n, AloneUpTo(sum, files, outcomes, table, log, n))
  {
    var e0, inv := Effect(Running(files, table, []), table, log), ThroughIfFine(sum, files, outcomes, table, log);
    assert Through(sum, files, table, log, 0, e0);
    forall i | 0 <= i < n && inv(i, Run(Walks(sum), e0, outcomes, i))
      ensures inv(i + 1, Walks(sum)(Run(Walks(sum), e0, outcomes, i), outcomes[i]))
    {
      WalkThrough(sum, files, outcomes, table, log, i, Run(Walks(sum), e0, outcomes, i));
    }
    CountedInvariant(Walks(sum), e0, outcomes, n, inv);
    assert inv(n, Run(Walks(sum), e0, outcomes, n));
  }

  lemma AloneStays(sum: string -> string, files: seq<File>, outcomes: seq<Outcome>, table: Table, log: seq<File>, n: nat, m: nat)
    requires n <= m <= |outcomes| && !AloneUpTo(sum, files, outcomes, table, log, n).runner.Running?
    ensures AloneUpTo(sum, files, outcomes, table, log, m) == AloneUpTo(sum, files, outcomes, table, log, n)
  {
    Runs.Stopped(Walks(sum), Effect(Running(files, table, []), table, log), outcomes, n, m);
  }

  // What one step keeps, and what a run keeps of the tables it finds.
  ghost predicate Kept(sum: string -> string, files: seq<File>, table: Table, log: seq<File>, e: Effect) {
    && !e.runner.Idle? && e.runner.files == files && RunnerOk(sum, e.table, e.runner) && Within(table, e.table)
    && (LogOk(table, log) ==> LogOk(e.table, e.log))
    && (e.runner.Running? ==> e.runner.known == table)
    && (Recorded(sum, table, files, |files|) ==> e.table == table && e.log == log && NoneNow(e.runner.results))
  }

  lemma WalkKeeps(sum: string -> string, files: seq<File>, table: Table, log: seq<File>, e: Effect, outcome: Outcome)
    requires Kept(sum, files, table, log, e)
    ensures Kept(sum, files, table, log, Walk(sum, e, outcome))
  {
    if e.runner.Running? && |e.runner.results| < |e.runner.files| {
      IterationKeepsRunner(sum, e.runner, e.table, e.log, outcome);
      IterationKeepsTable(sum, e.runner, e.table, e.log, outcome);
    }
  }

  ghost function KeptNow(sum: string -> string, files: seq<File>, table: Table, log: seq<File>): Effect -> bool {
    (e: Effect) => Kept(sum, files, table, log, e)
  }

  lemma AloneKeeps(sum: string -> string, files: seq<File>, outcomes: seq<Outcome>, table: Table, log: seq<File>, n: nat)
    requires n <= |outcomes|
    ensures Kept(sum, files, table, log, AloneUpTo(sum, files, outcomes, table, log, n))
  {
    var inv := KeptNow(sum, files, table, log);
    forall e: Effect, o: Outcome | inv(e) ensures inv(Walks(sum)(e, o)) { WalkKeeps(sum, files, table, log, e, o); }
    Invariant(Walks(sum), Effect(Running(files, table, []), table, log), outcomes, n, inv);
    assert inv(AloneUpTo(sum, files, outcomes, table, log, n));
  }

  lemma AloneNext(sum: string -> string, files: seq<File>, outcomes: seq<Outcome>, table: Table, log: seq<File>, i: nat,
                  known: Table, results: seq<Applied>, tableNow: Table, logNow: seq<File>)
    requires i < |files| == |outcomes| && |results| == i
    requires AloneUpTo(sum, files, outcomes, table, log, i) == Effect(Running(files, known, results), tableNow, logNow)
    ensures AloneUpTo(sum, files, outcomes, table, log, i + 1) ==
            Iterate(sum, Running(files, known, results), tableNow, logNow, outcomes[i])
  {
    assert AloneUpTo(sum, files, outcomes, table, log, i + 1) ==
           Walks(sum)(AloneUpTo(sum, files, outcomes, table, log, i), outcomes[i]);
  }

  // What holds at the end of a run, which may have come before the last step.
  lemma AloneEnds(sum: string -> string, files: seq<File>, outcomes: seq<Outcome>, table: Table, log: seq<File>, n: nat)
    requires n <= |files| == |outcomes|
    requires n == |files| || !AloneUpTo(sum, files, outcomes, table, log, n).runner.Running?
    ensures var e := AloneUpTo(sum, files, outcomes, table, log, n);
            && AloneUpTo(sum, files, outcomes, table, log, |files|) == e && !e.runner.Idle?
            && Prefix(files, e.runner.results) && Recorded(sum, e.table, files, |e.runner.results|) && Within(table, e.table)
            && (LogOk(table, log) ==> LogOk(e.table, e.log))
            && (Recorded(sum, table, files, |files|) ==> e.table == table && e.log == log && NoneNow(e.runner.results))
  {
    AloneKeeps(sum, files, outcomes, table, log, n);
    if n < |files| {
      AloneStays(sum, files, outcomes, table, log, n, |files|);
    }
  }

  /** A run that nobody disturbs goes through all files if and only if each of them is fine; then all
      are on record, and just those that were not have been committed, in order, and are reported as
      applied.  Otherwise it stops at the first that is not fine, with the files before it as results. */
  lemma AloneExactly(sum: string -> string, files: seq<File>, outcomes: seq<Outcome>, table: Table, log: seq<File>)
    requires |files| == |outcomes|
    ensures var e, n := AloneUpTo(sum, files, outcomes, table, log, |files|), |files|;
            && (e.runner.Running? <==> forall i :: 0 <= i < n ==> Fine(sum, files, outcomes, table, i))
            && (e.runner.Running? ==> Through(sum, files, table, log, n, e))
            && (!e.runner.Running? ==> StoppedAtFirst(sum, files, outcomes, table, e.runner))
  {
    if forall i :: 0 <= i < |files| ==> Fine(sum, files, outcomes, table, i) {
      AloneThrough(sum, files, outcomes, table, log, |files|);
    } else {
      var k := FirstUnfine(sum, files, outcomes, table);
      AloneThrough(sum, files, outcomes, table, log, k);
      StopsThere(sum, files, outcomes, table, log, k);
      AloneStays(sum, files, outcomes, table, log, k + 1, |files|);
    }
  }

  // Stopped at the first file that is not fine, with the files before it as results.
  predicate StoppedAtFirst(sum: string -> string, files: seq<File>, outcomes: seq<Outcome>, table: Table, r: Runner)
    requires |files| == |outcomes|
  {
    && r.Stopped? && !r.complete && |r.results| < |files| && !Fine(sum, files, outcomes, table, |r.results|)
    && forall i :: 0 <= i < |r.results| ==> Fine(sum, files, outcomes, table, i)
  }

  lemma StopsThere(sum: string -> string, files: seq<File>, outcomes: seq<Outcome>, table: Table, log: seq<File>, k: nat)
    requires k < |files| == |outcomes| && !Fine(sum, files, outcomes, table, k)
    requires forall i :: 0 <= i < k ==> Fine(sum, files, outcomes, table, i)
    requires Through(sum, files, table, log, k, AloneUpTo(sum, files, outcomes, table, log, k))
    ensures StoppedAtFirst(sum, files, outcomes, table, AloneUpTo(sum, files, outcomes, table, log, k + 1).runner)
  {
    var e := AloneUpTo(sum, files, outcomes, table, log, k);
    NotFineStops(sum, files, outcomes, table, log, k, e);
    assert AloneUpTo(sum, files, outcomes, table, log, k + 1) == Walks(sum)(e, outcomes[k]);
  }

  lemma FirstUnfine(sum: string -> string, files: seq<File>, outcomes: seq<Outcome>, table: Table) returns (k: nat)
    requires |files| == |outcomes| && exists i :: 0 <= i < |files| && !Fine(sum, files, outcomes, table, i)
    ensures k < |files| && !Fine(sum, files, outcomes, table, k)
    ensures forall i :: 0 <= i < k ==> Fine(sum, files, outcomes, table, i)
  {
    k := 0;
    while Fine(sum, files, outcomes, table, k)
      invariant k < |files| && forall i :: 0 <= i < k ==> Fine(sum, files, outcomes, table, i)
      invariant exists i :: k <= i < |files| && !Fine(sum, files, outcomes, table, i)
      decreases |files| - k
    {
      k := k + 1;
    }
  }

  // The events of such a run by runner `i`: one step for each file, and one to see that it is done.
  function Advances(i: nat, outcomes: seq<Outcome>): seq<Event> {
    seq(|outcomes|, k requires 0 <= k < |outcomes| => Advance(i, outcomes[k]))
  }

  // The state with one runner's part of it replaced.
  function With(s: State, i: nat, e: Effect): State
    requires i < |s.runners|
  {
    State(e.table, e.log, s.runners[i := e.runner])
  }

  lemma NextWalks(sum: string -> string, s: State, i: nat, e: Effect, outcome: Outcome, w: Effect)
    requires i < |s.runners| && e.runner.Running? && |e.runner.results| < |e.runner.files| && w == Walk(sum, e, outcome)
    ensures Next(sum, With(s, i, e), Advance(i, outcome)) == With(s, i, w)
  {
    assert s.runners[i := e.runner][i := w.runner] == s.runners[i := w.runner];
  }

  lemma AloneRuns(sum: string -> string, files: seq<File>, outcomes: seq<Outcome>, table: Table, log: seq<File>, k: nat)
    requires k < |files| == |outcomes| && AllFine(sum, files, outcomes, table, k)
    ensures var e := AloneUpTo(sum, files, outcomes, table, log, k);
            && e.runner.Running? && |e.runner.results| < |e.runner.files|
            && AloneUpTo(sum, files, outcomes, table, log, k + 1) == Walk(sum, e, outcomes[k])
  {
    AloneThrough(sum, files, outcomes, table, log, k);
  }

  ghost function WithAlone(sum: string -> string, s: State, i: nat, files: seq<File>, outcomes: seq<Outcome>): (nat, State) -> bool
    requires i < |s.runners|
  {
    (n: nat, x: State) => n <= |outcomes| && x == With(s, i, AloneUpTo(sum, files, outcomes, s.table, s.log, n))
  }

  lemma AdvanceAlone(sum: string -> string, s: State, i: nat, files: seq<File>, outcomes: seq<Outcome>, k: nat, x: State)
    requires i < |s.runners| && k < |files| == |outcomes| && AllFine(sum, files, outcomes, s.table, k)
    requires WithAlone(sum, s, i, files, outcomes)(k, x)
    ensures WithAlone(sum, s, i, files, outcomes)(k + 1, Next(sum, x, Advance(i, outcomes[k])))
  {
    var e := AloneUpTo(sum, files, outcomes, s.table, s.log, k);
    AloneRuns(sum, files, outcomes, s.table, s.log, k);
    NextWalks(sum, s, i, e, outcomes[k], AloneUpTo(sum, files, outcomes, s.table, s.log, k + 1));
  }

  lemma AdvancesAlone(sum: string -> string, s: State, i: nat, files: seq<File>, outcomes: seq<Outcome>, n: nat)
    requires i < |s.runners| && !s.runners[i].Running? && n <= |files| == |outcomes|
    requires AllFine(sum, files, outcomes, s.table, |files|)
    ensures Run(Step(sum), Next(sum, s, Start(i, files)), Advances(i, outcomes), n) ==
            With(s, i, AloneUpTo(sum, files, outcomes, s.table, s.log, n))
  {
    var s0, events, inv := Next(sum, s, Start(i, files)), Advances(i, outcomes), WithAlone(sum, s, i, files, outcomes);
    forall k | 0 <= k < n && inv(k, Run(Step(sum), s0, events, k))
      ensures inv(k + 1, Step(sum)(Run(Step(sum), s0, events, k), events[k]))
    {
      AdvanceAlone(sum, s, i, files, outcomes, k, Run(Step(sum), s0, events, k));
    }
    CountedInvariant(Step(sum), s0, events, n, inv);
    assert inv(n, Run(Step(sum), s0, events, n));
  }

  /** Migrations get applied: an undisturbed run over files that are not blank, have distinct versions
      and do not contradict the record, and whose statements all work, ends complete, with every file
      on record and just the new ones committed. */
  lemma UndisturbedCompletes(sum: string -> string, s: State, i: nat, files: seq<File>)
    requires i < |s.runners| && !s.runners[i].Running?
    requires forall j, k :: 0 <= j < k < |files| ==> files[j].version != files[k].version
    requires forall k :: 0 <= k < |files| ==> TrimSpace(files[k].content) != ""
    requires forall k :: 0 <= k < |files| && files[k].version in s.table ==> s.table[files[k].version] == sum(files[k].content)
    ensures var outcomes := seq(|files|, k => Works);
            var t := Next(sum, After(Step(sum), Next(sum, s, Start(i, files)), Advances(i, outcomes)), Advance(i, Works));
            && i < |t.runners| && t.runners[i].Stopped? && t.runners[i].complete
            && Recorded(sum, t.table, files, |files|) && t.log == s.log + NewUpTo(files, s.table, |files|)
            && |t.runners[i].results| == |files|
            && forall k :: 0 <= k < |files| ==>
                 t.runners[i].results[k] == Applied(files[k].version, files[k].version !in s.table)
  {
    var outcomes: seq<Outcome> := seq(|files|, k => Works);
    assert forall k :: 0 <= k < |files| ==> Fine(sum, files, outcomes, s.table, k);
    AdvancesAlone(sum, s, i, files, outcomes, |files|);
    AloneThrough(sum, files, outcomes, s.table, s.log, |files|);
  }

  // ---- One run as it is written ----

  datatype DirEntry = DirEntry(isDir: bool, content: string)

  const SUFFIX: string := ".sql"

  predicate IsMigration(name: string, e: DirEntry) { !e.isDir && HasSuffix(name, SUFFIX) && name != SUFFIX }

  function FileOf(name: string, e: DirEntry): File
    requires |name| >= |SUFFIX|
  {
    File(name[..|name| - |SUFFIX|], e.content)
  }

  // loadSQLMigrations: the migrations of a directory, in the order of their names.
  method LoadSQLMigrations(dir: map<string, DirEntry>) returns (names: seq<string>, files: seq<File>)
    ensures Increasing(names) && forall n :: n in names <==> n in dir && IsMigration(n, dir[n])
    ensures |files| == |names| && forall i :: 0 <= i < |names| ==> |names[i]| > |SUFFIX| && files[i] == FileOf(names[i], dir[names[i]])
    ensures forall n :: n in names <==> n in dir && !dir[n].isDir && |n| > 4 && n[|n| - 4..] == ".sql"
    ensures forall i :: 0 <= i < |names| ==> names[i] in dir && names[i] == files[i].version + ".sql"
    ensures forall i :: 0 <= i < |names| ==> files[i].content == dir[names[i]].content
  {
    var found: map<string, DirEntry> := map n | n in dir && IsMigration(n, dir[n]) :: dir[n];
    names := SortedMapKeys(found);
    files := [];
    for i := 0 to |names|
      invariant |files| == i
      invariant forall j :: 0 <= j < i ==> names[j] in dir && |names[j]| > |SUFFIX| && files[j] == FileOf(names[j], dir[names[j]])
    {
      assert names[i] in names && names[i] in found;
      LongerThanSuffix(names[i]);
      files := files + [FileOf(names[i], dir[names[i]])];
    }
    forall n | n in dir ensures IsMigration(n, dir[n]) <==> !dir[n].isDir && |n| > 4 && n[|n| - 4..] == ".sql" {
      NamedMigration(n);
    }
    forall i | 0 <= i < |names| ensures names[i] == files[i].version + ".sql" {
      assert names[i] in names;
      NamedMigration(names[i]);
    }
  }

  lemma NamedMigration(name: string)
    ensures HasSuffix(name, SUFFIX) && name != SUFFIX <==> |name| > 4 && name[|name| - 4..] == ".sql"
    ensures HasSuffix(name, SUFFIX) ==> name == name[..|name| - |SUFFIX|] + ".sql"
  {
    if HasSuffix(name, SUFFIX) {
      assert name == name[..|name| - 4] + name[|name| - 4..];
    }
  }

  lemma LongerThanSuffix(name: string)
    requires HasSuffix(name, SUFFIX) && name != SUFFIX
    ensures |name| > |SUFFIX|
  {
    assert name[0..] == name;
  }

  class Database {
    var table: Table
    var log: seq<File>

    constructor ()
      ensures table == map[] && log == []
    {
      table, log := map[], [];
    }

    // applySQLMigration: the statements and the record in one transaction.
    method ApplySQLMigration(f: File, checksum: string, outcome: Outcome) returns (ok: bool)
      modifies this
      ensures var commits := !outcome.Breaks? && f.version !in old(table) && outcome != Dies(false);
              && table == (if commits then old(table)[f.version := checksum] else old(table))
              && log == (if commits then old(log) + [f] else old(log))
              && ok == (commits && !outcome.Dies?)
    {
      if outcome.Breaks? || f.version in table || outcome == Dies(false) {
        return false;
      }
      table, log := table[f.version := checksum], log + [f];
      ok := !outcome.Dies?;
    }

    // One iteration of ApplySQLMigrations over the file after `results`.
    method ApplyNext(sum: string -> string, files: seq<File>, known: Table, results: seq<Applied>, outcome: Outcome)
      returns (next: seq<Applied>, failed: bool)
      requires |results| < |files|
      modifies this
      ensures var f := Iterate(sum, Running(files, known, results), old(table), old(log), outcome);
              && table == f.table && log == f.log && failed == !f.runner.Running? && next == f.runner.results
              && (!failed ==> f.runner == Running(files, known, next))
    {
      var file := files[|results|];
      next, failed := results, true;
      if outcome.Unreadable? || TrimSpace(file.content) == "" {
        return;
      }
      var checksum := sum(file.content);
      if file.version in known {
        if known[file.version] != checksum {
          return;
        }
        return results + [Applied(file.version, false)], false;
      }
      var ok := ApplySQLMigration(file, checksum, outcome);
      if ok {
        next, failed := results + [Applied(file.version, true)], false;
      }
    }

    // ApplySQLMigrations by a runner that nobody disturbs; `outcomes` says how each step ends.
    method ApplySQLMigrations(sum: string -> string, files: seq<File>, outcomes: seq<Outcome>)
      returns (results: seq<Applied>, failed: bool)
      requires |outcomes| == |files|
      modifies this
      ensures Prefix(files, results) && Recorded(sum, table, files, |results|) && Within(old(table), table)
      ensures !failed ==> |results| == |files|
      ensures var e := AloneUpTo(sum, files, outcomes, old(table), old(log), |files|);
              && table == e.table && log == e.log && failed == !e.runner.Running?
              && !e.runner.Idle? && results == e.runner.results
      ensures LogOk(old(table), old(log)) ==> LogOk(table, log)
      ensures Recorded(sum, old(table), files, |files|) ==> table == old(table) && log == old(log) && NoneNow(results)
    {
      var known := table;
      ghost var table0, log0 := table, log;
      results, failed := [], true;
      for i := 0 to |files|
        invariant |results| == i
        invariant AloneUpTo(sum, files, outcomes, table0, log0, i) == Effect(Running(files, known, results), table, log)
      {
        var stop;
        AloneNext(sum, files, outcomes, table0, log0, i, known, results, table, log);
        results, stop := ApplyNext(sum, files, known, results, outcomes[i]);
        if stop {
          AloneEnds(sum, files, outcomes, table0, log0, i + 1);
          return;
        }
      }
      AloneEnds(sum, files, outcomes, table0, log0, |files|);
      failed := false;
    }
  }

  predicate NoneNow(results: seq<Applied>) { forall j :: 0 <= j < |results| ==> !results[j].now }

  lemma IterationKeepsTable(sum: string -> string, r: Runner, table: Table, log: seq<File>, outcome: Outcome)
    requires r.Running? && |r.results| < |r.files|
    ensures var f := Iterate(sum, r, table, log, outcome);
            && Within(table, f.table) && (LogOk(table, log) ==> LogOk(f.table, f.log))
            && (Recorded(sum, r.known, r.files, |r.files|) ==>
                  f.table == table && f.log == log && (NoneNow(r.results) ==> NoneNow(f.runner.results)))
  {
    if LogOk(table, log) {
      IterationGrows(sum, r, table, log, outcome);
    }
  }
}
