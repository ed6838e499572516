/** The whole path of a byte: runtime counter, delta in flight, detail row, daily row, purge.

    Collections, POSTed usage, binding changes and cleanups interleave freely.  A cleanup is
    one transaction of several statements: its aggregate statement sees the detail rows
    committed before it, its delete statement those committed before that, and other
    transactions see neither until it commits.  Cleanups do not overlap each other. */
module TrafficLedger {
  import opened Results
  import opened Runs
  import opened TrafficTables
  import opened TrafficStore
  import opened XrayStats

  // Where a cleanup transaction has got to.  `seen` and `deleted` count the detail rows that
  // were committed when the aggregate and the delete statement ran.
  datatype Tx =
    | Idle
    | Aggregated(cutoff: Time, dailyCutoff: Time, seen: nat)
    | Deleted(cutoff: Time, dailyCutoff: Time, seen: nat, deleted: nat)

  // What one collection has read and not yet recorded; `bound` is what the first statement of
  // recording, the look-up of bindings, found, once it has run.
  datatype Flight = Flight(node: Id, deltas: seq<Delta>, bound: Option<set<(Id, Id)>>)

  datatype Ledger = Ledger(
    counters: map<Id, seq<Stat>>, flights: seq<Flight>, bindings: set<(Id, Id)>,
    detail: seq<Row>, daily: Daily, tx: Tx)

  datatype Event =
    | NewCounter(node: Id, name: string)
    | Traffic(node: Id, counter: nat, bytes: nat)
    | Query(node: Id, deltas: seq<Delta>)    // the counters are reset and the deltas arrive
    | QueryLost(node: Id)                    // the counters are reset but the reply is lost
    | LookUp(flight: nat)                    // the bindings are read
    | RecordBatch(flight: nat, at: Time)     // the rows are inserted
    | RecordFails(flight: nat)
    | RecordUsage(row: Row)
    | Bind(account: Id, node: Id)
    | Unbind(account: Id, node: Id)
    | Aggregate(cutoff: Time, dailyCutoff: Time)
    | DeleteDetail
    | Commit
    | Abort

  function CountersOf(s: Ledger, node: Id): seq<Stat> { if node in s.counters then s.counters[node] else [] }

  function Without<T>(xs: seq<T>, i: nat): seq<T>
    requires i < |xs|
  {
    xs[..i] + xs[i + 1..]
  }

  ghost predicate WellFormed(s: Ledger) {
    && (forall n, c :: n in s.counters && c in s.counters[n] ==> c.value >= 0)
    && (s.tx.Aggregated? ==> s.tx.seen <= |s.detail|)
    && (s.tx.Deleted? ==> s.tx.seen <= s.tx.deleted <= |s.detail|)
  }

  // A commit after both statements; their row counts are in range in every well-formed state.
  predicate Committing(s: Ledger, e: Event) {
    e.Commit? && s.tx.Deleted? && s.tx.seen <= s.tx.deleted <= |s.detail|
  }

  function Committed(s: Ledger): Ledger
    requires Committing(s, Commit)
  {
    s.(detail := Fresh(s.detail[..s.tx.deleted], s.tx.cutoff) + s.detail[s.tx.deleted..],
       daily := KeepDays(Upsert(s.daily, Old(s.detail[..s.tx.seen], s.tx.cutoff)), DayOf(s.tx.dailyCutoff)),
       tx := Idle)
  }

  // An insert statement that violates a CHECK constraint adds nothing.
  function Accepted(rows: seq<Row>): seq<Row> { if ChecksPass(rows) then rows else [] }

  function BatchOf(f: Flight, at: Time): seq<Row>
    requires f.bound.Some?
  {
    Batch(f.bound.value, f.node, f.deltas, at)
  }

  // The rows an event adds to traffic_usage.
  function Inserted(s: Ledger, e: Event): seq<Row> {
    match e
    case RecordBatch(i, at) =>
      if i < |s.flights| && s.flights[i].bound.Some? then Accepted(BatchOf(s.flights[i], at)) else []
    case RecordUsage(row) => Accepted([row])
    case _ => []
  }

  // An event that cannot happen in `s` changes nothing.
  ghost function Step(s: Ledger, e: Event): Ledger {
    match e
    case NewCounter(node, name) => s.(counters := s.counters[node := CountersOf(s, node) + [Stat(name, 0)]])
    case Traffic(node, i, bytes) =>
      var stats := CountersOf(s, node);
      if i >= |stats| then s
      else s.(counters := s.counters[node := stats[i := stats[i].(value := stats[i].value + bytes)]])
    case Query(node, deltas) =>
      if node !in s.counters || !IsDeltas(Queried(s.counters[node]), deltas) then s
      else s.(counters := s.counters[node := Reset(s.counters[node])], flights := s.flights + [Flight(node, deltas, None)])
    case QueryLost(node) =>
      if node !in s.counters then s else s.(counters := s.counters[node := Reset(s.counters[node])])
    case LookUp(i) =>
      if i >= |s.flights| || s.flights[i].bound.Some? then s
      else s.(flights := s.flights[i := s.flights[i].(bound := Some(s.bindings))])
    case RecordBatch(i, at) =>
      if i >= |s.flights| || s.flights[i].bound.None? then s
      else s.(flights := Without(s.flights, i), detail := s.detail + Inserted(s, e))
    case RecordFails(i) => if i >= |s.flights| then s else s.(flights := Without(s.flights, i))
    case RecordUsage(row) => s.(detail := s.detail + Inserted(s, e))
    case Bind(a, n) => s.(bindings := s.bindings + {(a, n)})
    case Unbind(a, n) => s.(bindings := s.bindings - {(a, n)})
    case Aggregate(cutoff, dailyCutoff) =>
      if s.tx.Idle? then s.(tx := Aggregated(cutoff, dailyCutoff, |s.detail|)) else s
    case DeleteDetail =>
      if s.tx.Aggregated? then s.(tx := Deleted(s.tx.cutoff, s.tx.dailyCutoff, s.tx.seen, |s.detail|)) else s
    case Commit => if Committing(s, e) then Committed(s) else s
    case Abort => s.(tx := Idle)
  }

  ghost function Steps(): (Ledger, Event) -> Ledger { (s: Ledger, e: Event) => Step(s, e) }

  ghost function WellFormedNow(): Ledger -> bool { s => WellFormed(s) }

  lemma {:induction false} ResetNonNegative(stats: seq<Stat>, n: nat)
    requires n <= |stats| && forall c :: c in stats ==> c.value >= 0
    ensures forall c :: c in ZeroUpTo(stats, n, Selected()) ==> c.value >= 0
  {
    if n > 0 {
      ResetNonNegative(stats, n - 1);
    }
  }

  lemma StepWellFormed(s: Ledger, e: Event)
    requires WellFormed(s)
    ensures WellFormed(Step(s, e))
  {
    match e
    case NewCounter(node, name) =>
    case Traffic(node, i, bytes) =>
    case Query(node, deltas) => ResetNonNegative(CountersOf(s, node), |CountersOf(s, node)|);
    case QueryLost(node) => ResetNonNegative(CountersOf(s, node), |CountersOf(s, node)|);
    case _ =>
  }

  // ---- What a commit does to the tables ----

  // Rows that the delete statement removed but the aggregate statement had not seen.
  function Late(s: Ledger, e: Event): seq<Row> {
    if Committing(s, e) then Old(s.detail[s.tx.seen..s.tx.deleted], s.tx.cutoff) else []
  }

  // Rows whose bytes a commit moves to the daily table.
  function Moved(s: Ledger, e: Event): seq<Row> {
    if Committing(s, e) then Old(s.detail[..s.tx.seen], s.tx.cutoff) else []
  }

  // Daily rows that a commit deletes because of their age.
  function Purged(s: Ledger, e: Event): Daily {
    if Committing(s, e) then DropDays(Upsert(s.daily, Moved(s, e)), DayOf(s.tx.dailyCutoff)) else map[]
  }

  // A condition on daily keys, read as a condition on detail rows.
  function OnRows(p: Key -> bool): Row -> bool { r => p(KeyOf(r)) }

  ghost function TableSum(s: Ledger, p: Key -> bool, dir: Direction): int {
    SumRows(s.detail, OnRows(p), dir) + SumDaily(s.daily, p, dir)
  }

  // Deleting the old rows among the first `m` takes away exactly their sum.
  lemma DeleteBalances(rows: seq<Row>, m: nat, cutoff: Time, q: Row -> bool, dir: Direction)
    requires m <= |rows|
    ensures SumRows(rows, q, dir) ==
            SumRows(Fresh(rows[..m], cutoff) + rows[m..], q, dir) + SumRows(Old(rows[..m], cutoff), q, dir)
  {
    var young := (r: Row) => q(r) && !Before(cutoff, r);
    var old_ := (r: Row) => q(r) && Before(cutoff, r);
    SumAppend(rows[..m], rows[m..], q, dir);
    assert rows[..m] + rows[m..] == rows;
    SumAppend(Fresh(rows[..m], cutoff), rows[m..], q, dir);
    SumSplit(rows[..m], q, young, old_, dir);
    SumFilter(rows[..m], q, r => !Before(cutoff, r), young, dir);
    SumFilter(rows[..m], q, r => Before(cutoff, r), old_, dir);
  }

  lemma OldAppend(rows: seq<Row>, n: nat, m: nat, cutoff: Time)
    requires n <= m <= |rows|
    ensures Old(rows[..m], cutoff) == Old(rows[..n], cutoff) + Old(rows[n..m], cutoff)
  {
    assert rows[..m] == rows[..n] + rows[n..m];
    FilterAppend(rows[..n], rows[n..m], r => Before(cutoff, r));
  }

  lemma KeepDropSplit(d: Daily, from: Day, p: Key -> bool, dir: Direction)
    ensures SumDaily(d, p, dir) == SumDaily(KeepDays(d, from), p, dir) + SumDaily(DropDays(d, from), p, dir)
  {
    SumDailySplit(d, p, KeepDays(d, from), DropDays(d, from), dir);
  }

  lemma CommittedDaily(daily: Daily, moved: seq<Row>, from: Day, p: Key -> bool, dir: Direction)
    ensures SumDaily(KeepDays(Upsert(daily, moved), from), p, dir) + SumDaily(DropDays(Upsert(daily, moved), from), p, dir) ==
            SumDaily(daily, p, dir) + SumRows(moved, OnRows(p), dir)
  {
    SumDailyUpsert(daily, moved, p, OnRows(p), dir);
    KeepDropSplit(Upsert(daily, moved), from, p, dir);
  }

  // The daily table gains what was moved and loses what was purged.
  lemma DailyBalances(s: Ledger, e: Event, p: Key -> bool, dir: Direction)
    requires WellFormed(s)
    ensures SumDaily(Step(s, e).daily, p, dir) + SumDaily(Purged(s, e), p, dir) ==
            SumDaily(s.daily, p, dir) + SumRows(Moved(s, e), OnRows(p), dir)
  {
    if Committing(s, e) {
      CommittedDaily(s.daily, Moved(s, e), DayOf(s.tx.dailyCutoff), p, dir);
    } else {
      SumDailyNothing(map[], p, dir);
    }
  }

  // The detail table gains what is inserted and loses what was moved or deleted unseen.
  lemma DetailBalances(s: Ledger, e: Event, q: Row -> bool, dir: Direction)
    requires WellFormed(s)
    ensures SumRows(Step(s, e).detail, q, dir) + SumRows(Moved(s, e), q, dir) + SumRows(Late(s, e), q, dir) ==
            SumRows(s.detail, q, dir) + SumRows(Inserted(s, e), q, dir)
  {
    if Committing(s, e) {
      DeleteBalances(s.detail, s.tx.deleted, s.tx.cutoff, q, dir);
      OldAppend(s.detail, s.tx.seen, s.tx.deleted, s.tx.cutoff);
      SumAppend(Moved(s, e), Late(s, e), q, dir);
    } else {
      SumAppend(s.detail, Inserted(s, e), q, dir);
      assert s.detail + [] == s.detail;
    }
  }

  // ---- The tables over a run ----

  function InsertedBy(): (Ledger, Event) -> seq<Row> { (s: Ledger, e: Event) => Inserted(s, e) }

  function MovedBy(): (Ledger, Event) -> seq<Row> { (s: Ledger, e: Event) => Moved(s, e) }

  function LateBy(): (Ledger, Event) -> seq<Row> { (s: Ledger, e: Event) => Late(s, e) }

  function SumOf(rows: (Ledger, Event) -> seq<Row>, q: Row -> bool, dir: Direction): (Ledger, Event) -> int {
    (s: Ledger, e: Event) => SumRows(rows(s, e), q, dir)
  }

  ghost function PurgedBy(p: Key -> bool, dir: Direction): (Ledger, Event) -> int {
    (s: Ledger, e: Event) => SumDaily(Purged(s, e), p, dir)
  }

  // All rows inserted, moved to the daily table and deleted late, and all bytes purged, in a run.
  ghost function AllInserted(s: Ledger, events: seq<Event>): seq<Row> {
    Collect(Steps(), s, events, |events|, InsertedBy())
  }

  ghost function AllMoved(s: Ledger, events: seq<Event>): seq<Row> {
    Collect(Steps(), s, events, |events|, MovedBy())
  }

  ghost function AllLate(s: Ledger, events: seq<Event>): seq<Row> {
    Collect(Steps(), s, events, |events|, LateBy())
  }

  ghost function AllPurged(s: Ledger, events: seq<Event>, p: Key -> bool, dir: Direction): int {
    Tally(Steps(), s, events, |events|, PurgedBy(p, dir))
  }

  lemma {:induction false} CollectedSum(step: (Ledger, Event) -> Ledger, s: Ledger, events: seq<Event>, n: nat,
                                        rows: (Ledger, Event) -> seq<Row>, q: Row -> bool, dir: Direction)
    requires n <= |events|
    ensures SumRows(Collect(step, s, events, n, rows), q, dir) == Tally(step, s, events, n, SumOf(rows, q, dir))
  {
    if n > 0 {
      CollectedSum(step, s, events, n - 1, rows, q, dir);
      SumAppend(Collect(step, s, events, n - 1, rows), rows(Run(step, s, events, n - 1), events[n - 1]), q, dir);
    }
  }

  ghost function DailySum(p: Key -> bool, dir: Direction): Ledger -> int { (s: Ledger) => SumDaily(s.daily, p, dir) }

  ghost function DetailSum(q: Row -> bool, dir: Direction): Ledger -> int { (s: Ledger) => SumRows(s.detail, q, dir) }

  function Minus(a: (Ledger, Event) -> int, b: (Ledger, Event) -> int): (Ledger, Event) -> int {
    (s: Ledger, e: Event) => a(s, e) - b(s, e)
  }

  lemma TallyMinus(step: (Ledger, Event) -> Ledger, s: Ledger, events: seq<Event>, a: (Ledger, Event) -> int,
                   b: (Ledger, Event) -> int)
    ensures Tally(step, s, events, |events|, Minus(a, b)) ==
            Tally(step, s, events, |events|, a) - Tally(step, s, events, |events|, b)
  {
    TallyLinear(step, s, events, |events|, Minus(a, b), b, a);
  }

  // The daily table over a run.
  lemma DailyOverRun(s: Ledger, events: seq<Event>, p: Key -> bool, dir: Direction)
    requires WellFormed(s)
    ensures SumDaily(After(Steps(), s, events).daily, p, dir) + AllPurged(s, events, p, dir) ==
            SumDaily(s.daily, p, dir) + SumRows(AllMoved(s, events), OnRows(p), dir)
  {
    var measure, moved := DailySum(p, dir), SumOf(MovedBy(), OnRows(p), dir);
    var gain := Minus(moved, PurgedBy(p, dir));
    forall x: Ledger, e: Event | WellFormedNow()(x)
      ensures WellFormedNow()(Steps()(x, e)) && measure(Steps()(x, e)) == measure(x) + gain(x, e)
    {
      StepWellFormed(x, e);
      DailyBalances(x, e, p, dir);
    }
    Telescope(Steps(), s, events, |events|, WellFormedNow(), measure, gain);
    TallyMinus(Steps(), s, events, moved, PurgedBy(p, dir));
    CollectedSum(Steps(), s, events, |events|, MovedBy(), OnRows(p), dir);
  }

  // The detail table over a run.
  lemma DetailOverRun(s: Ledger, events: seq<Event>, q: Row -> bool, dir: Direction)
    requires WellFormed(s)
    ensures SumRows(After(Steps(), s, events).detail, q, dir) + SumRows(AllMoved(s, events), q, dir) +
            SumRows(AllLate(s, events), q, dir) ==
            SumRows(s.detail, q, dir) + SumRows(AllInserted(s, events), q, dir)
  {
    var measure, n := DetailSum(q, dir), |events|;
    var inserted, moved, late := SumOf(InsertedBy(), q, dir), SumOf(MovedBy(), q, dir), SumOf(LateBy(), q, dir);
    var gain := Minus(Minus(inserted, moved), late);
    forall x: Ledger, e: Event | WellFormedNow()(x)
      ensures WellFormedNow()(Steps()(x, e)) && measure(Steps()(x, e)) == measure(x) + gain(x, e)
    {
      StepWellFormed(x, e);
      DetailBalances(x, e, q, dir);
    }
    Telescope(Steps(), s, events, n, WellFormedNow(), measure, gain);
    TallyMinus(Steps(), s, events, Minus(inserted, moved), late);
    TallyMinus(Steps(), s, events, inserted, moved);
    CollectedSum(Steps(), s, events, n, InsertedBy(), q, dir);
    CollectedSum(Steps(), s, events, n, MovedBy(), q, dir);
    CollectedSum(Steps(), s, events, n, LateBy(), q, dir);
  }

  /** Conservation in the two tables, for any selection of keys and over any run: what they
      held at first and every row inserted since is still there, was purged by retention, or
      was deleted without having been aggregated. */
  lemma TablesConserve(s: Ledger, events: seq<Event>, p: Key -> bool, dir: Direction)
    requires WellFormed(s)
    ensures TableSum(s, p, dir) + SumRows(AllInserted(s, events), OnRows(p), dir) ==
            TableSum(After(Steps(), s, events), p, dir) + AllPurged(s, events, p, dir) +
            SumRows(AllLate(s, events), OnRows(p), dir)
  {
    DailyOverRun(s, events, p, dir);
    DetailOverRun(s, events, OnRows(p), dir);
  }

  // ---- The runtime side ----

  function Pair(account: Id, node: Id): Key -> bool { (k: Key) => k.account == account && k.node == node }

  function FlightPart(f: Flight, account: Id, node: Id, dir: Direction): int {
    if f.node == node then DeltaSum(f.deltas, account, dir) else 0
  }

  function FlightSum(flights: seq<Flight>, n: nat, account: Id, node: Id, dir: Direction): int
    requires n <= |flights|
  {
    if n == 0 then 0 else FlightSum(flights, n - 1, account, node, dir) + FlightPart(flights[n - 1], account, node, dir)
  }

  function InFlight(flights: seq<Flight>, account: Id, node: Id, dir: Direction): int {
    FlightSum(flights, |flights|, account, node, dir)
  }

  // Bytes counted by the runtime and not yet in a table.
  function Unrecorded(s: Ledger, account: Id, node: Id, dir: Direction): int {
    Live(CountersOf(s, node), account, dir) + InFlight(s.flights, account, node, dir)
  }

  // Bytes an event brings into being, at a counter or by a POST.
  function Generated(s: Ledger, e: Event, account: Id, node: Id, dir: Direction): int {
    match e
    case Traffic(n, i, bytes) =>
      if n == node && i < |CountersOf(s, n)| && PlainId(account) && CountersOf(s, n)[i].name == CounterName(account, dir)
      then bytes else 0
    case RecordUsage(row) =>
      if row.volume.NonNegative() && row.account == account && row.node == node then row.volume.In(dir) else 0
    case _ => 0
  }

  // A batch takes the account's traffic into the table.
  predicate Records(f: Flight, at: Time, account: Id, node: Id)
    requires f.bound.Some?
  {
    account != "" && (account, node) in f.bound.value && ChecksPass(BatchOf(f, at))
  }

  // Bytes an event gives up: the reply or the insert failed after the reset, or the account
  // was not bound to the node when that was looked up.
  function Dropped(s: Ledger, e: Event, account: Id, node: Id, dir: Direction): int {
    match e
    case QueryLost(n) => if n == node then Live(CountersOf(s, n), account, dir) else 0
    case RecordFails(i) => if i < |s.flights| then FlightPart(s.flights[i], account, node, dir) else 0
    case RecordBatch(i, at) =>
      if i < |s.flights| && s.flights[i].bound.Some? && !Records(s.flights[i], at, account, node)
      then FlightPart(s.flights[i], account, node, dir) else 0
    case _ => 0
  }

  lemma {:induction false} FlightSumPrefix(a: seq<Flight>, b: seq<Flight>, n: nat, account: Id, node: Id, dir: Direction)
    requires n <= |a|
    ensures FlightSum(a + b, n, account, node, dir) == FlightSum(a, n, account, node, dir)
  {
    if n > 0 {
      FlightSumPrefix(a, b, n - 1, account, node, dir);
    }
  }

  lemma {:induction false} FlightSumAppend(a: seq<Flight>, b: seq<Flight>, n: nat, account: Id, node: Id, dir: Direction)
    requires n <= |b|
    ensures FlightSum(a + b, |a| + n, account, node, dir) ==
            InFlight(a, account, node, dir) + FlightSum(b, n, account, node, dir)
  {
    if n == 0 {
      FlightSumPrefix(a, b, |a|, account, node, dir);
    } else {
      FlightSumAppend(a, b, n - 1, account, node, dir);
    }
  }

  lemma FlightTakenOff(flights: seq<Flight>, i: nat, account: Id, node: Id, dir: Direction)
    requires i < |flights|
    ensures InFlight(flights, account, node, dir) ==
            InFlight(Without(flights, i), account, node, dir) + FlightPart(flights[i], account, node, dir)
  {
    var a, b := flights[..i], flights[i + 1..];
    assert flights == (a + [flights[i]]) + b;
    FlightSumAppend(a + [flights[i]], b, |b|, account, node, dir);
    FlightSumAppend(a, [flights[i]], 1, account, node, dir);
    FlightSumAppend(a, b, |b|, account, node, dir);
    assert FlightSum([flights[i]], 1, account, node, dir) == FlightPart(flights[i], account, node, dir);
  }

  lemma FlightAdded(flights: seq<Flight>, f: Flight, account: Id, node: Id, dir: Direction)
    ensures InFlight(flights + [f], account, node, dir) ==
            InFlight(flights, account, node, dir) + FlightPart(f, account, node, dir)
  {
    FlightSumAppend(flights, [f], 1, account, node, dir);
    assert FlightSum([f], 1, account, node, dir) == FlightPart(f, account, node, dir);
  }

  lemma SumOfPair(rows: seq<Row>, row: Row, account: Id, node: Id, dir: Direction)
    ensures SumRows(rows + [row], OnRows(Pair(account, node)), dir) ==
            SumRows(rows, OnRows(Pair(account, node)), dir) +
            (if row.account == account && row.node == node then row.volume.In(dir) else 0)
  {
    var p := OnRows(Pair(account, node));
    assert p(row) == Pair(account, node)(KeyOf(row));
    SumLast(rows, row, p, dir);
  }

  // A batch puts into the table what its deltas hold for the accounts bound to its node.
  lemma {:induction false} BatchSum(bindings: set<(Id, Id)>, n: Id, deltas: seq<Delta>, k: nat, at: Time, account: Id,
                                    node: Id, dir: Direction)
    requires k <= |deltas|
    ensures SumRows(BatchUpTo(bindings, n, deltas, k, at), OnRows(Pair(account, node)), dir) ==
            if n == node && account != "" && (account, node) in bindings
            then DeltaSumUpTo(deltas, k, account, dir) else 0
  {
    if k > 0 {
      BatchSum(bindings, n, deltas, k - 1, at, account, node, dir);
      var d, before := deltas[k - 1], BatchUpTo(bindings, n, deltas, k - 1, at);
      if Recordable(bindings, n, d) {
        var row := Row(d.account, n, d.volume, at);
        SumOfPair(before, row, account, node, dir);
        assert BatchUpTo(bindings, n, deltas, k, at) == before + [row];
      } else {
        assert BatchUpTo(bindings, n, deltas, k, at) == before;
      }
    }
  }

  lemma {:induction false} CounterGrows(stats: seq<Stat>, i: nat, c: Stat, n: nat, f: Stat -> nat)
    requires i < |stats| && n <= |stats|
    ensures SumStats(stats[i := c], n, f) == SumStats(stats, n, f) + (if i < n then f(c) - f(stats[i]) else 0)
  {
    if n > 0 {
      CounterGrows(stats, i, c, n - 1, f);
    }
  }

  lemma ShareGrows(c: Stat, bytes: nat, account: Id, dir: Direction)
    requires c.value >= 0
    ensures Share(c.(value := c.value + bytes), account, dir) ==
            Share(c, account, dir) + (if PlainId(account) && c.name == CounterName(account, dir) then bytes else 0)
  {
    AttributedExactly(c.name, account, dir);
  }

  lemma NewCounterBalances(s: Ledger, n: Id, name: string, account: Id, node: Id, dir: Direction)
    requires WellFormed(s)
    ensures Live(CountersOf(Step(s, NewCounter(n, name)), node), account, dir) == Live(CountersOf(s, node), account, dir)
  {
    SumStatsLast(CountersOf(s, n), Stat(name, 0), ShareOf(account, dir));
  }

  // Traffic at one counter changes a sum over the counters of a node by what it changes there.
  lemma CountersGrow(s: Ledger, n: Id, i: nat, bytes: nat, node: Id, f: Stat -> nat)
    ensures var stats, after := CountersOf(s, n), CountersOf(Step(s, Traffic(n, i, bytes)), node);
            SumStats(after, |after|, f) == SumStats(CountersOf(s, node), |CountersOf(s, node)|, f) +
            (if i < |stats| && n == node then f(stats[i].(value := stats[i].value + bytes)) - f(stats[i]) else 0)
  {
    var stats := CountersOf(s, n);
    if i < |stats| && n == node {
      CounterGrows(stats, i, stats[i].(value := stats[i].value + bytes), |stats|, f);
    }
  }

  lemma TrafficBalances(s: Ledger, n: Id, i: nat, bytes: nat, account: Id, node: Id, dir: Direction)
    requires WellFormed(s)
    ensures Live(CountersOf(Step(s, Traffic(n, i, bytes)), node), account, dir) ==
            Live(CountersOf(s, node), account, dir) + Generated(s, Traffic(n, i, bytes), account, node, dir)
  {
    CountersGrow(s, n, i, bytes, node, ShareOf(account, dir));
    var stats := CountersOf(s, n);
    if i < |stats| && n == node {
      assert stats[i] in s.counters[n];
      ShareGrows(stats[i], bytes, account, dir);
    }
  }

  lemma QueryLostBalances(s: Ledger, n: Id, account: Id, node: Id, dir: Direction)
    requires WellFormed(s)
    ensures Live(CountersOf(Step(s, QueryLost(n)), node), account, dir) +
            Dropped(s, QueryLost(n), account, node, dir) == Live(CountersOf(s, node), account, dir)
  {
    QueryTakesEverything(CountersOf(s, n), account, dir);
  }

  lemma QueryBalances(s: Ledger, e: Event, account: Id, node: Id, dir: Direction)
    requires WellFormed(s) && e.Query?
    ensures Unrecorded(Step(s, e), account, node, dir) == Unrecorded(s, account, node, dir)
  {
    var stats := CountersOf(s, e.node);
    if e.node in s.counters && IsDeltas(Queried(stats), e.deltas) {
      QueryTakesEverything(stats, account, dir);
      DeltasCarryEverything(Queried(stats), e.deltas, account, dir);
      FlightAdded(s.flights, Flight(e.node, e.deltas, None), account, node, dir);
    }
  }

  lemma {:induction false} FlightReplaced(flights: seq<Flight>, i: nat, f: Flight, n: nat, account: Id, node: Id, dir: Direction)
    requires i < |flights| && n <= |flights|
    requires FlightPart(f, account, node, dir) == FlightPart(flights[i], account, node, dir)
    ensures FlightSum(flights[i := f], n, account, node, dir) == FlightSum(flights, n, account, node, dir)
  {
    if n > 0 {
      FlightReplaced(flights, i, f, n - 1, account, node, dir);
    }
  }

  lemma LookUpBalances(s: Ledger, i: nat, account: Id, node: Id, dir: Direction)
    ensures InFlight(Step(s, LookUp(i)).flights, account, node, dir) == InFlight(s.flights, account, node, dir)
  {
    if i < |s.flights| {
      FlightReplaced(s.flights, i, s.flights[i].(bound := Some(s.bindings)), |s.flights|, account, node, dir);
    }
  }

  // What one batch inserts of an account's traffic, if it takes it in.
  lemma BatchAccepted(f: Flight, at: Time, account: Id, node: Id, dir: Direction)
    requires f.bound.Some?
    ensures SumRows(Accepted(BatchOf(f, at)), OnRows(Pair(account, node)), dir) ==
            if Records(f, at, account, node) then FlightPart(f, account, node, dir) else 0
  {
    BatchSum(f.bound.value, f.node, f.deltas, |f.deltas|, at, account, node, dir);
  }

  lemma RecordingBalances(s: Ledger, e: Event, account: Id, node: Id, dir: Direction)
    requires WellFormed(s) && (e.RecordBatch? || e.RecordFails?)
    ensures InFlight(Step(s, e).flights, account, node, dir) + Dropped(s, e, account, node, dir) +
            SumRows(Inserted(s, e), OnRows(Pair(account, node)), dir) ==
            InFlight(s.flights, account, node, dir)
  {
    if e.flight < |s.flights| {
      var f := s.flights[e.flight];
      FlightTakenOff(s.flights, e.flight, account, node, dir);
      if e.RecordBatch? && f.bound.Some? {
        BatchAccepted(f, e.at, account, node, dir);
      }
    }
  }

  lemma UsageBalances(s: Ledger, row: Row, account: Id, node: Id, dir: Direction)
    ensures SumRows(Inserted(s, RecordUsage(row)), OnRows(Pair(account, node)), dir) ==
            Generated(s, RecordUsage(row), account, node, dir)
  {
    SumOfPair([], row, account, node, dir);
    assert [] + [row] == [row] && row in [row];
  }

  // What leaves the runtime side is inserted or dropped.
  ghost predicate Balanced(s: Ledger, e: Event, account: Id, node: Id, dir: Direction) {
    Unrecorded(Step(s, e), account, node, dir) + Dropped(s, e, account, node, dir) +
    SumRows(Inserted(s, e), OnRows(Pair(account, node)), dir) ==
    Unrecorded(s, account, node, dir) + Generated(s, e, account, node, dir)
  }

  lemma CountersBalanced(s: Ledger, e: Event, account: Id, node: Id, dir: Direction)
    requires WellFormed(s) && (e.NewCounter? || e.Traffic? || e.QueryLost?)
    ensures Balanced(s, e, account, node, dir)
  {
    match e
    case NewCounter(n, name) => NewCounterBalances(s, n, name, account, node, dir);
    case Traffic(n, i, bytes) => TrafficBalances(s, n, i, bytes, account, node, dir);
    case QueryLost(n) => QueryLostBalances(s, n, account, node, dir);
  }

  lemma FlightsBalanced(s: Ledger, e: Event, account: Id, node: Id, dir: Direction)
    requires WellFormed(s) && (e.Query? || e.LookUp? || e.RecordBatch? || e.RecordFails?)
    ensures Balanced(s, e, account, node, dir)
  {
    match e
    case Query(_, _) => QueryBalances(s, e, account, node, dir);
    case LookUp(i) => LookUpBalances(s, i, account, node, dir);
    case RecordBatch(_, _) => RecordingBalances(s, e, account, node, dir);
    case RecordFails(_) => RecordingBalances(s, e, account, node, dir);
  }

  predicate OnTables(e: Event) { e.Bind? || e.Unbind? || e.Aggregate? || e.DeleteDetail? || e.Commit? || e.Abort? }

  lemma TablesBalanced(s: Ledger, e: Event, account: Id, node: Id, dir: Direction)
    requires OnTables(e)
    ensures Balanced(s, e, account, node, dir)
  {
    assert Step(s, e).counters == s.counters && Step(s, e).flights == s.flights && Inserted(s, e) == [];
  }

  lemma UnrecordedBalances(s: Ledger, e: Event, account: Id, node: Id, dir: Direction)
    requires WellFormed(s)
    ensures Balanced(s, e, account, node, dir)
  {
    if OnTables(e) {
      TablesBalanced(s, e, account, node, dir);
    } else if e.RecordUsage? {
      UsageBalances(s, e.row, account, node, dir);
    } else if e.NewCounter? || e.Traffic? || e.QueryLost? {
      CountersBalanced(s, e, account, node, dir);
    } else {
      FlightsBalanced(s, e, account, node, dir);
    }
  }

  function GeneratedBy(account: Id, node: Id, dir: Direction): (Ledger, Event) -> int {
    (s: Ledger, e: Event) => Generated(s, e, account, node, dir)
  }

  function DroppedBy(account: Id, node: Id, dir: Direction): (Ledger, Event) -> int {
    (s: Ledger, e: Event) => Dropped(s, e, account, node, dir)
  }

  ghost function AllGenerated(s: Ledger, events: seq<Event>, account: Id, node: Id, dir: Direction): int {
    Tally(Steps(), s, events, |events|, GeneratedBy(account, node, dir))
  }

  ghost function AllDropped(s: Ledger, events: seq<Event>, account: Id, node: Id, dir: Direction): int {
    Tally(Steps(), s, events, |events|, DroppedBy(account, node, dir))
  }

  function UnrecordedNow(account: Id, node: Id, dir: Direction): Ledger -> int {
    (s: Ledger) => Unrecorded(s, account, node, dir)
  }

  lemma UnrecordedOverRun(s: Ledger, events: seq<Event>, account: Id, node: Id, dir: Direction)
    requires WellFormed(s)
    ensures Unrecorded(After(Steps(), s, events), account, node, dir) + AllDropped(s, events, account, node, dir) +
            SumRows(AllInserted(s, events), OnRows(Pair(account, node)), dir) ==
            Unrecorded(s, account, node, dir) + AllGenerated(s, events, account, node, dir)
  {
    var measure, q := UnrecordedNow(account, node, dir), OnRows(Pair(account, node));
    var generated, dropped := GeneratedBy(account, node, dir), DroppedBy(account, node, dir);
    var inserted := SumOf(InsertedBy(), q, dir);
    var gain := Minus(Minus(generated, dropped), inserted);
    forall x: Ledger, e: Event | WellFormedNow()(x)
      ensures WellFormedNow()(Steps()(x, e)) && measure(Steps()(x, e)) == measure(x) + gain(x, e)
    {
      StepWellFormed(x, e);
      UnrecordedBalances(x, e, account, node, dir);
      assert Balanced(x, e, account, node, dir);
    }
    Telescope(Steps(), s, events, |events|, WellFormedNow(), measure, gain);
    TallyMinus(Steps(), s, events, Minus(generated, dropped), inserted);
    TallyMinus(Steps(), s, events, generated, dropped);
    CollectedSum(Steps(), s, events, |events|, InsertedBy(), q, dir);
  }

  // Everything an account has at a node: counters, flights, detail rows and daily rows.
  ghost function Stock(s: Ledger, account: Id, node: Id, dir: Direction): int {
    Unrecorded(s, account, node, dir) + TableSum(s, Pair(account, node), dir)
  }

  /** Conservation over every run, account by account, node by node and direction by
      direction: what there was and what was generated is still in a counter, in flight, in a
      detail row or in a daily row, or was dropped, purged by retention, or deleted late. */
  lemma TrafficIsConserved(s: Ledger, events: seq<Event>, account: Id, node: Id, dir: Direction)
    requires WellFormed(s)
    ensures Stock(s, account, node, dir) + AllGenerated(s, events, account, node, dir) ==
            Stock(After(Steps(), s, events), account, node, dir) + AllDropped(s, events, account, node, dir) +
            AllPurged(s, events, Pair(account, node), dir) +
            SumRows(AllLate(s, events), OnRows(Pair(account, node)), dir)
  {
    TablesConserve(s, events, Pair(account, node), dir);
    UnrecordedOverRun(s, events, account, node, dir);
  }

  // ---- When nothing is deleted late ----

  // Rows committed between a cleanup's aggregate and delete statements carry an instant at or
  // after its cutoff.
  predicate OnTime(s: Ledger, e: Event) {
    s.tx.Aggregated? ==> forall r :: r in Inserted(s, e) ==> r.at >= s.tx.cutoff
  }

  function OnTimeNow(): (Ledger, Event) -> bool { (s: Ledger, e: Event) => OnTime(s, e) }

  // The rows beyond those that the aggregate statement saw are all young.
  ghost predicate NothingLatePending(s: Ledger) {
    && WellFormed(s)
    && (s.tx.Aggregated? ==> forall i :: s.tx.seen <= i < |s.detail| ==> s.detail[i].at >= s.tx.cutoff)
    && (s.tx.Deleted? ==> forall i :: s.tx.seen <= i < s.tx.deleted ==> s.detail[i].at >= s.tx.cutoff)
  }

  ghost function NothingLatePendingNow(): Ledger -> bool { s => NothingLatePending(s) }

  lemma StepOnTime(s: Ledger, e: Event)
    requires NothingLatePending(s) && OnTime(s, e)
    ensures NothingLatePending(Step(s, e))
  {
    StepWellFormed(s, e);
    var rows := Inserted(s, e);
    assert forall i :: 0 <= i < |rows| ==> rows[i] in rows;
  }

  lemma NothingLate(s: Ledger, e: Event)
    requires NothingLatePending(s)
    ensures Late(s, e) == []
  {
    if Committing(s, e) {
      FilterNothing(s.detail[s.tx.seen..s.tx.deleted], (r: Row) => Before(s.tx.cutoff, r));
    }
  }

  /** Exactly when a cleanup deletes rows unseen: if and only if some row that was committed
      between its aggregate and its delete statement is dated before its cutoff. */
  lemma LateExactly(s: Ledger, e: Event)
    requires Committing(s, e)
    ensures Late(s, e) == [] <==> forall i :: s.tx.seen <= i < s.tx.deleted ==> s.detail[i].at >= s.tx.cutoff
  {
    var between, before := s.detail[s.tx.seen..s.tx.deleted], (r: Row) => Before(s.tx.cutoff, r);
    FilterMembers(between, before);
    if forall i :: s.tx.seen <= i < s.tx.deleted ==> s.detail[i].at >= s.tx.cutoff {
      FilterNothing(between, before);
    }
    forall i | s.tx.seen <= i < s.tx.deleted && s.detail[i].at < s.tx.cutoff ensures s.detail[i] in Late(s, e) {
      assert s.detail[i] == between[i - s.tx.seen] && s.detail[i] in between;
    }
  }

  /** A run whose rows are recorded on time loses nothing to the gap between the statements. */
  lemma OnTimeRunsLoseNothing(s: Ledger, events: seq<Event>)
    requires NothingLatePending(s)
    requires forall i :: 0 <= i < |events| ==> OnTime(Run(Steps(), s, events, i), events[i])
    ensures AllLate(s, events) == []
  {
    forall x: Ledger, e: Event | NothingLatePendingNow()(x) && OnTimeNow()(x, e)
      ensures NothingLatePendingNow()(Steps()(x, e))
    {
      StepOnTime(x, e);
    }
    forall i | 0 <= i < |events| ensures LateBy()(Run(Steps(), s, events, i), events[i]) == [] {
      GuardedInvariant(Steps(), s, events, i, NothingLatePendingNow(), OnTimeNow());
      NothingLate(Run(Steps(), s, events, i), events[i]);
    }
    CollectNothing(Steps(), s, events, |events|, LateBy());
  }

  /** Otherwise the loss is exactly the late rows: no pair loses anything if and only if every
      late row is empty. */
  lemma LossesAreTheLateRows(late: seq<Row>)
    requires ChecksPass(late)
    ensures (forall a, n, dir :: SumRows(late, OnRows(Pair(a, n)), dir) == 0) <==>
            (forall r :: r in late ==> r.volume.IsZero())
  {
    if forall a, n, dir :: SumRows(late, OnRows(Pair(a, n)), dir) == 0 {
      forall r | r in late ensures r.volume.IsZero() {
        var q := OnRows(Pair(r.account, r.node));
        assert q(r) == Pair(r.account, r.node)(KeyOf(r));
        SumNonNegative(late, q, Uplink);
        SumNonNegative(late, q, Downlink);
      }
    }
    if forall r :: r in late ==> r.volume.IsZero() {
      forall a, n, dir { SumNothing(late, OnRows(Pair(a, n)), dir); }
    }
  }

  // A POSTed row dated before the cutoff, committed between the two statements, disappears.
  lemma LateRowIsLost(row: Row, cutoff: Time)
    requires row.at < cutoff && row.volume.NonNegative()
    ensures var s := Ledger(map[], [], {}, [], map[], Idle);
            var s1 := Step(s, Aggregate(cutoff, cutoff));
            var s2 := Step(s1, RecordUsage(row));
            var s3 := Step(s2, DeleteDetail);
            Step(s3, Commit) == s
  {
    var s := Ledger(map[], [], {}, [], map[], Idle);
    var s1 := Step(s, Aggregate(cutoff, cutoff));
    var s2 := Step(s1, RecordUsage(row));
    var s3 := Step(s2, DeleteDetail);
    assert s3.detail == [row] && s3.tx == Deleted(cutoff, cutoff, 0, 1);
    assert s3.detail[..1] == [row] && s3.detail[1..] == [] && s3.detail[..0] == [];
    FilterNothing([row], (r: Row) => !Before(cutoff, r));
    var none: seq<Row> := [];
    assert Old(none, cutoff) == none && Upsert(map[], none) == map[];
    assert KeepDays(map[], DayOf(cutoff)) == map[];
  }

  // ---- Reading totals during a run ----

  // No commit of the run deletes a daily row that the filter could still select.
  ghost predicate Retained(s: Ledger, events: seq<Event>, f: TotalFilter) {
    && f.since.Some?
    && forall i :: 0 <= i < |events| && Committing(Run(Steps(), s, events, i), events[i]) ==>
         DayOf(Run(Steps(), s, events, i).tx.dailyCutoff) <= DayOf(f.since.value)
  }

  lemma RetainedPurgesNothing(s: Ledger, events: seq<Event>, accounts: map<Id, Id>, f: TotalFilter, dir: Direction)
    requires Retained(s, events, f)
    ensures AllPurged(s, events, DailyWindow(accounts, f), dir) == 0
  {
    var p := DailyWindow(accounts, f);
    forall i | 0 <= i < |events| ensures PurgedBy(p, dir)(Run(Steps(), s, events, i), events[i]) == 0 {
      SumDailyNothing(Purged(Run(Steps(), s, events, i), events[i]), p, dir);
    }
    TallyNothing(Steps(), s, events, |events|, PurgedBy(p, dir));
  }

  ghost function TotalNow(s: Ledger, accounts: map<Id, Id>, f: TotalFilter, dir: Direction): int {
    Total(accounts, Tables(s.detail, s.daily), f, dir)
  }

  lemma SumSame(rows: seq<Row>, p: Row -> bool, q: Row -> bool, dir: Direction)
    requires forall r :: r in rows ==> p(r) == q(r)
    ensures SumRows(rows, p, dir) == SumRows(rows, q, dir)
  {
    var none := (r: Row) => false;
    SumSplit(rows, p, q, none, dir);
    SumNothing(rows, none, dir);
  }

  // In a day-aligned window the two WHERE clauses select the same rows.
  lemma AlignedSum(rows: seq<Row>, accounts: map<Id, Id>, f: TotalFilter, dir: Direction)
    requires DayAligned(f)
    ensures SumRows(rows, DetailWindow(accounts, f), dir) == SumRows(rows, OnRows(DailyWindow(accounts, f)), dir)
  {
    forall r: Row ensures DetailWindow(accounts, f)(r) == OnRows(DailyWindow(accounts, f))(r) {
      AlignedWindowsAgree(f, r.at);
      assert OnRows(DailyWindow(accounts, f))(r) == DailyWindow(accounts, f)(KeyOf(r));
    }
    SumSame(rows, DetailWindow(accounts, f), OnRows(DailyWindow(accounts, f)), dir);
  }

  /** Window totals agree with the simple table: at any point of any run that loses nothing,
      a query for whole days that are not yet purged returns what it would have returned if
      every row ever inserted were still in traffic_usage. */
  lemma WindowTotalsAgree(s: Ledger, events: seq<Event>, accounts: map<Id, Id>, f: TotalFilter, dir: Direction)
    requires WellFormed(s) && DayAligned(f) && Retained(s, events, f)
    requires AllLate(s, events) == []
    ensures TotalNow(After(Steps(), s, events), accounts, f, dir) ==
            TotalNow(s, accounts, f, dir) + SumRows(AllInserted(s, events), DetailWindow(accounts, f), dir)
  {
    var p := DailyWindow(accounts, f);
    TablesConserve(s, events, p, dir);
    RetainedPurgesNothing(s, events, accounts, f, dir);
    AlignedSum(s.detail, accounts, f, dir);
    AlignedSum(After(Steps(), s, events).detail, accounts, f, dir);
    AlignedSum(AllInserted(s, events), accounts, f, dir);
    SumNothing([], OnRows(p), dir);
  }

  /** Overlapping read: a total whose detail statement ran in `s` and whose daily statement ran
      after any further events is the total in `s` plus what moved to the daily table meanwhile. */
  lemma OverlappingRead(s: Ledger, events: seq<Event>, accounts: map<Id, Id>, f: TotalFilter, dir: Direction)
    requires WellFormed(s) && DayAligned(f) && Retained(s, events, f)
    ensures SumRows(s.detail, DetailWindow(accounts, f), dir) +
            SumDaily(After(Steps(), s, events).daily, DailyWindow(accounts, f), dir) ==
            TotalNow(s, accounts, f, dir) + SumRows(AllMoved(s, events), DetailWindow(accounts, f), dir)
  {
    DailyOverRun(s, events, DailyWindow(accounts, f), dir);
    RetainedPurgesNothing(s, events, accounts, f, dir);
    AlignedSum(AllMoved(s, events), accounts, f, dir);
  }

  // Every row meets the CHECK constraint of traffic_usage, and so does every row moved.
  lemma StepChecked(s: Ledger, e: Event)
    requires ChecksPass(s.detail)
    ensures ChecksPass(Step(s, e).detail) && ChecksPass(Moved(s, e))
  {
    if Committing(s, e) {
      FilterMembers(s.detail[..s.tx.seen], (r: Row) => Before(s.tx.cutoff, r));
      FilterMembers(s.detail[..s.tx.deleted], (r: Row) => !Before(s.tx.cutoff, r));
    }
  }

  lemma {:induction false} MovedChecked(s: Ledger, events: seq<Event>, n: nat)
    requires ChecksPass(s.detail) && n <= |events|
    ensures ChecksPass(Run(Steps(), s, events, n).detail)
    ensures ChecksPass(Collect(Steps(), s, events, n, MovedBy()))
  {
    if n > 0 {
      MovedChecked(s, events, n - 1);
      StepChecked(Run(Steps(), s, events, n - 1), events[n - 1]);
    }
  }

  /** So such a read never undercounts the total at its first statement. */
  lemma OverlappingReadNeverUndercounts(s: Ledger, events: seq<Event>, accounts: map<Id, Id>, f: TotalFilter,
                                        dir: Direction)
    requires WellFormed(s) && ChecksPass(s.detail) && DayAligned(f) && Retained(s, events, f)
    ensures SumRows(s.detail, DetailWindow(accounts, f), dir) +
            SumDaily(After(Steps(), s, events).daily, DailyWindow(accounts, f), dir) >=
            TotalNow(s, accounts, f, dir)
  {
    OverlappingRead(s, events, accounts, f, dir);
    MovedChecked(s, events, |events|);
    SumNonNegative(AllMoved(s, events), DetailWindow(accounts, f), dir);
  }
}
