/** internal/store/traffic.go and internal/store/maintenance.go: the store that owns the
    traffic tables. */
module TrafficStore {
  import opened Results
  import opened TrafficTables

  // One account's traffic at one node since the last collection.
  datatype Delta = Delta(account: Id, volume: Volume)

  // ---- Recording a batch ----

  predicate Recordable(bindings: set<(Id, Id)>, node: Id, d: Delta) {
    d.account != "" && (d.account, node) in bindings && !d.volume.IsZero()
  }

  // The rows that the first `n` deltas become: bound accounts with some traffic only.
  function BatchUpTo(bindings: set<(Id, Id)>, node: Id, deltas: seq<Delta>, n: nat, at: Time): seq<Row>
    requires n <= |deltas|
  {
    if n == 0 then []
    else
      BatchUpTo(bindings, node, deltas, n - 1, at) +
      (if Recordable(bindings, node, deltas[n - 1])
       then [Row(deltas[n - 1].account, node, deltas[n - 1].volume, at)] else [])
  }

  function Batch(bindings: set<(Id, Id)>, node: Id, deltas: seq<Delta>, at: Time): seq<Row> {
    BatchUpTo(bindings, node, deltas, |deltas|, at)
  }

  lemma {:induction false} BatchRows(bindings: set<(Id, Id)>, node: Id, deltas: seq<Delta>, n: nat, at: Time)
    requires n <= |deltas|
    ensures forall r :: r in BatchUpTo(bindings, node, deltas, n, at) ==>
      r.node == node && r.at == at && (r.account, node) in bindings &&
      exists i :: 0 <= i < n && deltas[i] == Delta(r.account, r.volume)
  {
    if n > 0 {
      BatchRows(bindings, node, deltas, n - 1, at);
    }
  }

  // One row for each delta with some traffic on a bound account, and no other.
  lemma {:induction false} BatchExactly(bindings: set<(Id, Id)>, node: Id, deltas: seq<Delta>, at: Time)
    ensures |Batch(bindings, node, deltas, at)| == HowMany(deltas, (d: Delta) =>
              d.account != "" && (d.account, node) in bindings && (d.volume.up != 0 || d.volume.down != 0))
    ensures forall r :: r in Batch(bindings, node, deltas, at) ==>
      r.account != "" && (r.volume.up != 0 || r.volume.down != 0)
    decreases |deltas|
  {
    var wanted := (d: Delta) =>
      d.account != "" && (d.account, node) in bindings && (d.volume.up != 0 || d.volume.down != 0);
    if deltas == [] {
      assert HowMany(deltas, wanted) == 0;
    } else {
      var init, last := deltas[..|deltas| - 1], deltas[|deltas| - 1];
      assert deltas == init + [last];
      BatchExactly(bindings, node, init, at);
      BatchPrefix(bindings, node, init, [last], |init|, at);
      HowManyMore(init, last, wanted);
    }
  }

  lemma {:induction false} BatchPrefix(bindings: set<(Id, Id)>, node: Id, a: seq<Delta>, b: seq<Delta>, n: nat, at: Time)
    requires n <= |a|
    ensures BatchUpTo(bindings, node, a + b, n, at) == BatchUpTo(bindings, node, a, n, at)
  {
    if n > 0 {
      BatchPrefix(bindings, node, a, b, n - 1, at);
    }
  }

  lemma {:induction false} NothingToRecord(bindings: set<(Id, Id)>, node: Id, deltas: seq<Delta>, n: nat, at: Time)
    requires n <= |deltas| && forall i :: 0 <= i < n ==> !Recordable(bindings, node, deltas[i])
    ensures BatchUpTo(bindings, node, deltas, n, at) == []
  {
    if n > 0 {
      NothingToRecord(bindings, node, deltas, n - 1, at);
    }
  }

  predicate ChecksPass(rows: seq<Row>) { forall r :: r in rows ==> r.volume.NonNegative() }

  // ---- Reading totals ----

  // An empty string selects everything, as an absent query parameter does.
  datatype TotalFilter = TotalFilter(customer: Id, account: Id, since: Option<Time>, until: Option<Time>)

  // The join with proxy_accounts and the two identity conditions.
  predicate Selects(accounts: map<Id, Id>, f: TotalFilter, account: Id) {
    && account in accounts
    && (f.customer == "" || accounts[account] == f.customer)
    && (f.account == "" || account == f.account)
  }

  predicate InstantInWindow(f: TotalFilter, at: Time) {
    && (f.since.Some? ==> at >= f.since.value)
    && (f.until.Some? ==> at < f.until.value)
  }

  predicate DayInWindow(f: TotalFilter, day: Day) {
    && (f.since.Some? ==> day >= DayOf(f.since.value))
    && (f.until.Some? ==> day < DayOf(f.until.value))
  }

  function DetailWindow(accounts: map<Id, Id>, f: TotalFilter): Row -> bool {
    (r: Row) => Selects(accounts, f, r.account) && InstantInWindow(f, r.at)
  }

  function DailyWindow(accounts: map<Id, Id>, f: TotalFilter): Key -> bool {
    (k: Key) => Selects(accounts, f, k.account) && DayInWindow(f, k.day)
  }

  ghost function Total(accounts: map<Id, Id>, t: Tables, f: TotalFilter, dir: Direction): int {
    SumRows(t.detail, DetailWindow(accounts, f), dir) + SumDaily(t.daily, DailyWindow(accounts, f), dir)
  }

  // ---- Which rows a total adds up ----

  ghost function AddUp(rows: seq<Row>, bytes: Row -> int): int {
    if rows == [] then 0 else AddUp(rows[..|rows| - 1], bytes) + bytes(rows[|rows| - 1])
  }

  // A detail row counts if its account is one of the customer's, or the one asked for, and its
  // instant lies in the window ...
  ghost predicate RowCounts(accounts: map<Id, Id>, f: TotalFilter, r: Row) {
    && r.account in accounts
    && (f.customer == "" || accounts[r.account] == f.customer)
    && (f.account == "" || r.account == f.account)
    && (f.since.None? || r.at >= f.since.value)
    && (f.until.None? || r.at < f.until.value)
  }

  // ... and a daily row likewise, by the days of the two instants.
  ghost predicate DayCounts(accounts: map<Id, Id>, f: TotalFilter, k: Key) {
    && k.account in accounts
    && (f.customer == "" || accounts[k.account] == f.customer)
    && (f.account == "" || k.account == f.account)
    && (f.since.None? || k.day >= f.since.value / 86_400_000_000)
    && (f.until.None? || k.day < f.until.value / 86_400_000_000)
  }

  ghost predicate DetailAddedUp(accounts: map<Id, Id>, rows: seq<Row>, f: TotalFilter, sum: Volume) {
    && sum.up == AddUp(rows, (r: Row) => if RowCounts(accounts, f, r) then r.volume.up else 0)
    && sum.down == AddUp(rows, (r: Row) => if RowCounts(accounts, f, r) then r.volume.down else 0)
  }

  ghost predicate DailyAddedUp(accounts: map<Id, Id>, d: Daily, f: TotalFilter, sum: Volume) {
    && sum.up == SumKeys(d.Keys, k => if k in d && DayCounts(accounts, f, k) then d[k].up else 0)
    && sum.down == SumKeys(d.Keys, k => if k in d && DayCounts(accounts, f, k) then d[k].down else 0)
  }

  lemma {:induction false} SumIsAddUp(rows: seq<Row>, p: Row -> bool, dir: Direction, bytes: Row -> int)
    requires forall r :: r in rows ==> bytes(r) == if p(r) then r.volume.In(dir) else 0
    ensures SumRows(rows, p, dir) == AddUp(rows, bytes)
    decreases |rows|
  {
    if rows != [] {
      var init, last := rows[..|rows| - 1], rows[|rows| - 1];
      assert rows == init + [last];
      SumIsAddUp(init, p, dir, bytes);
      SumLast(init, last, p, dir);
    }
  }

  /** The totals are the bytes of exactly these rows. */
  lemma DetailTotalExactly(accounts: map<Id, Id>, rows: seq<Row>, f: TotalFilter)
    ensures var window := DetailWindow(accounts, f);
            DetailAddedUp(accounts, rows, f, Volume(SumRows(rows, window, Uplink), SumRows(rows, window, Downlink)))
  {
    var window := DetailWindow(accounts, f);
    SumIsAddUp(rows, window, Uplink, (r: Row) => if RowCounts(accounts, f, r) then r.volume.up else 0);
    SumIsAddUp(rows, window, Downlink, (r: Row) => if RowCounts(accounts, f, r) then r.volume.down else 0);
  }

  lemma DailyTotalExactly(accounts: map<Id, Id>, d: Daily, f: TotalFilter)
    ensures var window := DailyWindow(accounts, f);
            DailyAddedUp(accounts, d, f, Volume(SumDaily(d, window, Uplink), SumDaily(d, window, Downlink)))
  {
    var window := DailyWindow(accounts, f);
    SumKeysAgree(d.Keys, Entry(d, window, Uplink), k => if k in d && DayCounts(accounts, f, k) then d[k].up else 0);
    SumKeysAgree(d.Keys, Entry(d, window, Downlink), k => if k in d && DayCounts(accounts, f, k) then d[k].down else 0);
  }

  /** Rows of other accounts than those asked for add nothing. */
  lemma OnlyTheCustomersRows(accounts: map<Id, Id>, rows: seq<Row>, f: TotalFilter, sum: Volume)
    requires DetailAddedUp(accounts, rows, f, sum)
    requires forall i :: 0 <= i < |rows| && rows[i].account in accounts ==>
      (f.customer != "" && accounts[rows[i].account] != f.customer) || (f.account != "" && rows[i].account != f.account)
    ensures sum == Volume(0, 0)
  {
    AddNothing(rows, (r: Row) => if RowCounts(accounts, f, r) then r.volume.up else 0);
    AddNothing(rows, (r: Row) => if RowCounts(accounts, f, r) then r.volume.down else 0);
  }

  lemma {:induction false} AddNothing(rows: seq<Row>, bytes: Row -> int)
    requires forall i :: 0 <= i < |rows| ==> bytes(rows[i]) == 0
    ensures AddUp(rows, bytes) == 0
    decreases |rows|
  {
    if rows != [] {
      AddNothing(rows[..|rows| - 1], bytes);
    }
  }

  // trafficUsageTotalFilterFromQuery: `since` and `until` name whole days, both included.
  function FilterFromQuery(customer: Id, account: Id, since: Option<Day>, until: Option<Day>): Result<TotalFilter> {
    var from := if since.Some? then Some(since.value * MICROS_PER_DAY) else None;
    var to := if until.Some? then Some((until.value + 1) * MICROS_PER_DAY) else None;
    if from.Some? && to.Some? && to.value <= from.value then Err(Invalid)
    else Ok(TotalFilter(customer, account, from, to))
  }

  predicate DayAligned(f: TotalFilter) {
    && (f.since.Some? ==> f.since.value % MICROS_PER_DAY == 0)
    && (f.until.Some? ==> f.until.value % MICROS_PER_DAY == 0)
  }

  lemma QueryFiltersAreDayAligned(customer: Id, account: Id, since: Option<Day>, until: Option<Day>)
    ensures var r := FilterFromQuery(customer, account, since, until);
            && (r.Err? <==> since.Some? && until.Some? && until.value < since.value)
            && (r.Ok? ==> DayAligned(r.value) && r.value.customer == customer && r.value.account == account)
            && (r.Ok? ==> r.value.since == if since.Some? then Some(since.value * 86_400_000_000) else None)
            && (r.Ok? ==> r.value.until == if until.Some? then Some((until.value + 1) * 86_400_000_000) else None)
            && (r.Ok? ==> forall day :: DayInWindow(r.value, day) <==>
                            (since.Some? ==> since.value <= day) && (until.Some? ==> day <= until.value))
  {
    if since.Some? {
      assert DayOf(since.value * MICROS_PER_DAY) == since.value;
    }
    if until.Some? {
      assert DayOf((until.value + 1) * MICROS_PER_DAY) == until.value + 1;
    }
  }

  // In a day-aligned window a detail row is counted exactly when its day is.
  lemma AlignedWindowsAgree(f: TotalFilter, at: Time)
    requires DayAligned(f)
    ensures InstantInWindow(f, at) <==> DayInWindow(f, DayOf(at))
  {
  }

  // ---- Cleanup ----

  datatype RefreshStamp = RefreshStamp(expiresAt: Time, revokedAt: Option<Time>)

  predicate StampExpired(s: RefreshStamp, cutoff: Time) {
    s.expiresAt < cutoff || (s.revokedAt.Some? && s.revokedAt.value < cutoff)
  }

  // The elements that stay, in order.
  function KeepIf<T>(xs: seq<T>, stays: T -> bool): seq<T> {
    if xs == [] then [] else (if stays(xs[0]) then [xs[0]] else []) + KeepIf(xs[1..], stays)
  }

  function KeepStamps(stamps: seq<RefreshStamp>, cutoff: Time): seq<RefreshStamp> {
    KeepIf(stamps, (s: RefreshStamp) => !StampExpired(s, cutoff))
  }

  function KeepTimes(times: seq<Time>, cutoff: Time): seq<Time> { KeepIf(times, (t: Time) => t >= cutoff) }

  datatype Retention = Retention(audit: int, traffic: int, trafficDaily: int, domainAccess: int, authRefresh: int) {
    predicate Positive() { audit > 0 && traffic > 0 && trafficDaily > 0 && domainAccess > 0 && authRefresh > 0 }
  }

  // The instants before which rows go.
  datatype Cutoffs = Cutoffs(traffic: Time, daily: Time, audit: Time, domainAccess: Time, authRefresh: Time)

  function CutoffsAt(keep: Retention, now: Time): Cutoffs {
    Cutoffs(now - keep.traffic, now - keep.trafficDaily, now - keep.audit, now - keep.domainAccess, now - keep.authRefresh)
  }

  datatype CleanupCounts = CleanupCounts(
    trafficDeleted: int, dailyUpserted: int, auditDeleted: int, domainAccessDeleted: int,
    dailyDeleted: int, authRefreshDeleted: int)

  // The rows an aggregate statement reports: one for each group.
  function GroupCount(rows: seq<Row>, cutoff: Time): nat { |KeysOf(Old(rows, cutoff))| }

  // The other tables that a cleanup purges.
  datatype Logs = Logs(audits: seq<Time>, domainAccesses: seq<Time>, refreshStamps: seq<RefreshStamp>)

  function PurgedLogs(l: Logs, c: Cutoffs): Logs {
    Logs(KeepTimes(l.audits, c.audit), KeepTimes(l.domainAccesses, c.domainAccess), KeepStamps(l.refreshStamps, c.authRefresh))
  }

  // The counts of a dry run ...
  function Predicted(t: Tables, l: Logs, c: Cutoffs): CleanupCounts {
    var kept := PurgedLogs(l, c);
    CleanupCounts(|Old(t.detail, c.traffic)|, GroupCount(t.detail, c.traffic), |l.audits| - |kept.audits|,
                  |l.domainAccesses| - |kept.domainAccesses|, |DropDays(t.daily, DayOf(c.daily))|,
                  |l.refreshStamps| - |kept.refreshStamps|)
  }

  // ... and of a real one, which meets the daily rows it has just made.
  function Performed(t: Tables, l: Logs, c: Cutoffs): CleanupCounts {
    Predicted(t, l, c).(dailyDeleted := |DropDays(Upsert(t.daily, Old(t.detail, c.traffic)), DayOf(c.daily))|)
  }

  // The groups that the cleanup inserts as new daily rows only to delete them again.
  function Stillborn(t: Tables, cutoff: Time, dailyCutoff: Time): set<Key> {
    set k | k in KeysOf(Old(t.detail, cutoff)) && k !in t.daily && k.day < DayOf(dailyCutoff)
  }

  // A dry run predicts every count except the deleted daily rows, which it underestimates by
  // the groups that reach the daily table and leave it within the same real run.
  lemma DryRunUnderestimate(t: Tables, l: Logs, c: Cutoffs)
    ensures var dry, actual := Predicted(t, l, c), Performed(t, l, c);
            && actual == dry.(dailyDeleted := actual.dailyDeleted)
            && actual.dailyDeleted == dry.dailyDeleted + |Stillborn(t, c.traffic, c.daily)|
  {
    DropAfterUpsert(t, c.traffic, c.daily);
  }

  lemma DropAfterUpsert(t: Tables, cutoff: Time, dailyCutoff: Time)
    ensures |DropDays(Upsert(t.daily, Old(t.detail, cutoff)), DayOf(dailyCutoff))| ==
            |DropDays(t.daily, DayOf(dailyCutoff))| + |Stillborn(t, cutoff, dailyCutoff)|
  {
    var day, rows := DayOf(dailyCutoff), Old(t.detail, cutoff);
    UpsertKeys(t.daily, rows);
    var actual, dry := DropDays(Upsert(t.daily, rows), day).Keys, DropDays(t.daily, day).Keys;
    var extra := Stillborn(t, cutoff, dailyCutoff);
    assert actual == dry + extra;
    assert |dry + extra| == |dry| + |extra|;
  }

  predicate RowsFit(rows: seq<Row>, accounts: map<Id, Id>, nodes: set<Id>) {
    forall r :: r in rows ==> r.account in accounts && r.node in nodes && r.volume.NonNegative()
  }

  predicate DailyFits(d: Daily, accounts: map<Id, Id>, nodes: set<Id>) {
    forall k :: k in d ==> k.account in accounts && k.node in nodes && d[k].NonNegative()
  }

  // Cleanup respects the foreign keys and CHECK constraints of both tables.
  lemma CleanupKeepsConstraints(detail: seq<Row>, daily: Daily, cutoff: Time, dailyCutoff: Time,
                                accounts: map<Id, Id>, nodes: set<Id>)
    requires RowsFit(detail, accounts, nodes) && DailyFits(daily, accounts, nodes)
    ensures var after := Cleanup(Tables(detail, daily), cutoff, dailyCutoff);
            RowsFit(after.detail, accounts, nodes) && DailyFits(after.daily, accounts, nodes)
  {
    var rows := Old(detail, cutoff);
    FilterMembers(detail, r => Before(cutoff, r));
    FilterMembers(detail, r => !Before(cutoff, r));
    GroupSums(daily, rows);
    var d := Upsert(daily, rows);
    forall k | k in d ensures k.account in accounts && k.node in nodes && d[k].NonNegative() {
      SumNonNegative(rows, At(k), Uplink);
      SumNonNegative(rows, At(k), Downlink);
      assert d[k].up == Stored(d, k, Uplink) && d[k].down == Stored(d, k, Downlink);
      if k !in daily {
        assert k in KeysOf(rows);
      }
    }
  }

  // ---- Which rows go ----

  ghost function HowMany<T>(xs: seq<T>, goes: T -> bool): nat { |set i | 0 <= i < |xs| && goes(xs[i])| }

  // After the deletion a row is there as often as before if it stays, and not at all if it goes.
  ghost predicate Deleted<T(!new)>(before: seq<T>, after: seq<T>, goes: T -> bool) {
    && (forall x :: multiset(after)[x] == if goes(x) then 0 else multiset(before)[x])
    && |after| + HowMany(before, goes) == |before|
  }

  lemma HowManyMore<T>(init: seq<T>, last: T, goes: T -> bool)
    ensures HowMany(init + [last], goes) == HowMany(init, goes) + (if goes(last) then 1 else 0)
  {
    var xs := init + [last];
    var before, all := set i | 0 <= i < |init| && goes(init[i]), set i | 0 <= i < |xs| && goes(xs[i]);
    if goes(last) {
      assert all == before + {|init|};
    } else {
      assert all == before;
    }
  }

  lemma HowManyFirst<T>(first: T, rest: seq<T>, goes: T -> bool)
    ensures HowMany([first] + rest, goes) == (if goes(first) then 1 else 0) + HowMany(rest, goes)
    decreases |rest|
  {
    if rest == [] {
      HowManyMore([], first, goes);
      assert [first] + rest == [] + [first];
      assert HowMany(rest, goes) == 0;
    } else {
      var init, last := rest[..|rest| - 1], rest[|rest| - 1];
      HowManyFirst(first, init, goes);
      HowManyMore([first] + init, last, goes);
      HowManyMore(init, last, goes);
      assert [first] + rest == [first] + init + [last] && rest == init + [last];
    }
  }

  lemma {:induction false} KeepDeletes<T(!new)>(xs: seq<T>, stays: T -> bool, goes: T -> bool)
    requires forall x :: goes(x) <==> !stays(x)
    ensures Deleted(xs, KeepIf(xs, stays), goes)
  {
    if xs == [] {
      assert HowMany(xs, goes) == 0;
    } else {
      KeepDeletes(xs[1..], stays, goes);
      assert xs == [xs[0]] + xs[1..];
      HowManyFirst(xs[0], xs[1..], goes);
    }
  }

  lemma {:induction false} FilterDeletes(rows: seq<Row>, stays: Row -> bool, goes: Row -> bool)
    requires forall r :: goes(r) <==> !stays(r)
    ensures Deleted(rows, Filter(rows, stays), goes)
    decreases |rows|
  {
    if rows == [] {
      assert HowMany(rows, goes) == 0;
    } else {
      var init, last := LastRow(rows);
      FilterDeletes(init, stays, goes);
      FilterLast(init, last, stays);
      HowManyMore(init, last, goes);
    }
  }

  // What one run at `at` deletes, retention by retention.
  ghost predicate DetailDeleted(before: seq<Row>, after: seq<Row>, keep: Retention, at: Time) {
    Deleted(before, after, (r: Row) => r.at < at - keep.traffic)
  }

  ghost predicate LogsDeleted(before: Logs, after: Logs, keep: Retention, at: Time) {
    && Deleted(before.audits, after.audits, (t: Time) => t < at - keep.audit)
    && Deleted(before.domainAccesses, after.domainAccesses, (t: Time) => t < at - keep.domainAccess)
    && Deleted(before.refreshStamps, after.refreshStamps,
               (s: RefreshStamp) => s.expiresAt < at - keep.authRefresh ||
                                    (s.revokedAt.Some? && s.revokedAt.value < at - keep.authRefresh))
  }

  // The days of the detail rows that are due.
  function DueKeys(detail: seq<Row>, keep: Retention, at: Time): set<Key> {
    set r | r in detail && r.at < at - keep.traffic :: Key(r.account, r.node, r.at / 86_400_000_000)
  }

  // A daily row stays, or is made, exactly if its day is not before that of the daily cutoff.
  ghost predicate DailyDeleted(t: Tables, after: Daily, keep: Retention, at: Time) {
    forall k :: k in after <==> (k in t.daily || k in DueKeys(t.detail, keep, at)) &&
                                k.day >= (at - keep.trafficDaily) / 86_400_000_000
  }

  lemma DueKeysAreOld(detail: seq<Row>, keep: Retention, at: Time)
    ensures DueKeys(detail, keep, at) == KeysOf(Old(detail, at - keep.traffic))
  {
    var c := at - keep.traffic;
    FilterMembers(detail, r => Before(c, r));
    forall k | k in DueKeys(detail, keep, at) ensures k in KeysOf(Old(detail, c)) {
      var r :| r in detail && r.at < c && k == Key(r.account, r.node, r.at / 86_400_000_000);
      assert r in Old(detail, c) && KeyOf(r) == k;
    }
    forall k | k in KeysOf(Old(detail, c)) ensures k in DueKeys(detail, keep, at) {
      var r :| r in Old(detail, c) && KeyOf(r) == k;
      assert r in detail && r.at < c;
    }
  }

  lemma CleanupDeletesDetail(t: Tables, keep: Retention, at: Time)
    ensures DetailDeleted(t.detail, Fresh(t.detail, CutoffsAt(keep, at).traffic), keep, at)
  {
    var c := CutoffsAt(keep, at);
    FilterDeletes(t.detail, r => !Before(c.traffic, r), (r: Row) => r.at < at - keep.traffic);
  }

  lemma CleanupDeletesDaily(t: Tables, keep: Retention, at: Time)
    ensures var c := CutoffsAt(keep, at);
            DailyDeleted(t, KeepDays(Upsert(t.daily, Old(t.detail, c.traffic)), DayOf(c.daily)), keep, at)
  {
    var c := CutoffsAt(keep, at);
    DueKeysAreOld(t.detail, keep, at);
    UpsertKeys(t.daily, Old(t.detail, c.traffic));
  }

  /** Which rows a cleanup at `at` deletes, each table by its own retention: detail, audit and
      domain-access rows dated before their cutoff, daily rows of days before that of the daily
      cutoff, and refresh tokens that expired or were revoked before theirs. */
  lemma CleanupDeletes(t: Tables, l: Logs, keep: Retention, at: Time)
    ensures var c := CutoffsAt(keep, at);
            var after := Cleanup(t, c.traffic, c.daily);
            && DetailDeleted(t.detail, after.detail, keep, at) && DailyDeleted(t, after.daily, keep, at)
            && LogsDeleted(l, PurgedLogs(l, c), keep, at)
  {
    CleanupDeletesDetail(t, keep, at);
    CleanupDeletesDaily(t, keep, at);
    CleanupDeletesLogs(l, keep, at);
  }

  lemma CleanupDeletesLogs(l: Logs, keep: Retention, at: Time)
    ensures LogsDeleted(l, PurgedLogs(l, CutoffsAt(keep, at)), keep, at)
  {
    var c := CutoffsAt(keep, at);
    KeepDeletes(l.audits, (t: Time) => t >= c.audit, (t: Time) => t < at - keep.audit);
    KeepDeletes(l.domainAccesses, (t: Time) => t >= c.domainAccess, (t: Time) => t < at - keep.domainAccess);
    KeepDeletes(l.refreshStamps, (s: RefreshStamp) => !StampExpired(s, c.authRefresh),
                (s: RefreshStamp) => s.expiresAt < at - keep.authRefresh ||
                                     (s.revokedAt.Some? && s.revokedAt.value < at - keep.authRefresh));
  }

  // What a dry run at `at` counts.
  ghost predicate Counted(t: Tables, l: Logs, counts: CleanupCounts, keep: Retention, at: Time) {
    && counts.trafficDeleted == HowMany(t.detail, (r: Row) => r.at < at - keep.traffic)
    && counts.dailyUpserted == |DueKeys(t.detail, keep, at)|
    && counts.dailyDeleted == |set k | k in t.daily && k.day < (at - keep.trafficDaily) / 86_400_000_000|
    && counts.auditDeleted == HowMany(l.audits, (x: Time) => x < at - keep.audit)
    && counts.domainAccessDeleted == HowMany(l.domainAccesses, (x: Time) => x < at - keep.domainAccess)
    && counts.authRefreshDeleted ==
       HowMany(l.refreshStamps, (s: RefreshStamp) => s.expiresAt < at - keep.authRefresh ||
                                                     (s.revokedAt.Some? && s.revokedAt.value < at - keep.authRefresh))
  }

  lemma OldCounted(detail: seq<Row>, keep: Retention, at: Time)
    ensures |Old(detail, at - keep.traffic)| == HowMany(detail, (r: Row) => r.at < at - keep.traffic)
  {
    var c := at - keep.traffic;
    var young, old_ := (r: Row) => r.at >= c, (r: Row) => r.at < c;
    FilterDeletes(detail, r => Before(c, r), young);
    Complementary(detail, young, (r: Row) => r.at < at - keep.traffic);
  }

  lemma {:induction false} Complementary<T(!new)>(xs: seq<T>, p: T -> bool, q: T -> bool)
    requires forall x :: p(x) <==> !q(x)
    ensures HowMany(xs, p) + HowMany(xs, q) == |xs|
    decreases |xs|
  {
    if xs == [] {
      assert HowMany(xs, p) == 0 && HowMany(xs, q) == 0;
    } else {
      var init, last := xs[..|xs| - 1], xs[|xs| - 1];
      Complementary(init, p, q);
      HowManyMore(init, last, p);
      HowManyMore(init, last, q);
      assert xs == init + [last];
    }
  }

  /** A dry run counts exactly these rows. */
  lemma PredictedExactly(t: Tables, l: Logs, keep: Retention, at: Time)
    ensures Counted(t, l, Predicted(t, l, CutoffsAt(keep, at)), keep, at)
  {
    var c := CutoffsAt(keep, at);
    OldCounted(t.detail, keep, at);
    DueKeysAreOld(t.detail, keep, at);
    CleanupDeletesLogs(l, keep, at);
    assert DropDays(t.daily, DayOf(c.daily)).Keys == set k | k in t.daily && k.day < (at - keep.trafficDaily) / 86_400_000_000;
  }

  // Which statement of a cleanup transaction fails, or its commit, if any does; of a dry run, which
  // of the queries that count what these statements would do.
  datatype Fault = NoFault | AtAggregate | AtTrafficDelete | AtAuditDelete | AtDomainAccessDelete
                 | AtDailyDelete | AtAuthRefreshDelete | AtCommit

  class Store {
    var accounts: map<Id, Id>           // proxy_accounts: id to customer_id
    var nodes: set<Id>                  // proxy_nodes
    var bindings: set<(Id, Id)>         // proxy_account_nodes
    var detail: seq<Row>                // traffic_usage
    var daily: Daily                    // traffic_usage_daily
    var audits: seq<Time>               // audit_logs: created_at
    var domainAccesses: seq<Time>       // domain_access_logs: accessed_at
    var refreshStamps: seq<RefreshStamp> // auth_refresh_tokens: expires_at, revoked_at

    // The foreign keys and CHECK constraints of the schema.
    ghost predicate Valid()
      reads this
    {
      && (forall a, n :: (a, n) in bindings ==> a in accounts && n in nodes)
      && RowsFit(detail, accounts, nodes)
      && DailyFits(daily, accounts, nodes)
    }

    constructor (accounts: map<Id, Id>, nodes: set<Id>, bindings: set<(Id, Id)>)
      requires forall a, n :: (a, n) in bindings ==> a in accounts && n in nodes
      ensures Valid() && detail == [] && daily == map[]
      ensures this.accounts == accounts && this.nodes == nodes && this.bindings == bindings
    {
      this.accounts, this.nodes, this.bindings := accounts, nodes, bindings;
      detail, daily, audits, domainAccesses, refreshStamps := [], map[], [], [], [];
    }

    ghost function TablesNow(): Tables
      reads this
    {
      Tables(detail, daily)
    }

    ghost function LogsNow(): Logs
      reads this
    {
      Logs(audits, domainAccesses, refreshStamps)
    }

    // RecordTrafficUsage: the POST handler's insert, dated by its caller or now.
    method RecordTrafficUsage(account: Id, node: Id, volume: Volume, recordedAt: Option<Time>, clock: Time, insertFails: bool)
      returns (r: Result<Row>)
      requires Valid()
      modifies this`detail
      ensures Valid()
      ensures r.Ok? <==> account in accounts && node in nodes && volume.NonNegative() && !insertFails
      ensures detail == if r.Ok? then old(detail) + [r.value] else old(detail)
      ensures r.Ok? ==> r.value == Row(account, node, volume, match recordedAt case Some(at) => at case None => clock)
      ensures r.Err? ==> r.error == if insertFails || (account in accounts && node in nodes) then Failed else Invalid
    {
      var usage := Row(account, node, volume, clock);
      if recordedAt.Some? {
        usage := usage.(at := recordedAt.value);
      }
      if insertFails {
        return Err(Failed);
      }
      if usage.account !in accounts || usage.node !in nodes {
        return Err(Invalid);
      }
      if !usage.volume.NonNegative() {
        return Err(Failed);
      }
      detail := detail + [usage];
      r := Ok(usage);
    }

    // RecordTrafficUsageBatch: all rows of the batch are inserted by one statement, or none is.
    method RecordTrafficUsageBatch(node: Id, deltas: seq<Delta>, recordedAt: Option<Time>, clock: Time,
                                   lookupFails: bool, insertFails: bool) returns (r: Result<nat>)
      requires Valid()
      modifies this`detail
      ensures Valid()
      ensures var at := if recordedAt.Some? then recordedAt.value else clock;
              var rows := if node == "" then [] else Batch(bindings, node, deltas, at);
              && detail == (if r.Ok? then old(detail) + rows else old(detail))
              && (r.Ok? ==> r.value == |rows|)
              && (r.Err? ==> lookupFails || insertFails || !ChecksPass(rows))
              && (rows != [] && (lookupFails || insertFails || !ChecksPass(rows)) ==> r.Err?)
    {
      if node == "" {
        return Ok(0);
      }
      var at := if recordedAt.Some? then recordedAt.value else clock;
      var accountIds, seen := [], {};
      for i := 0 to |deltas|
        invariant forall a :: a in seen <==> a in accountIds
        invariant "" !in seen
        invariant forall j :: 0 <= j < i && deltas[j].account != "" && !deltas[j].volume.IsZero() ==>
          deltas[j].account in seen
      {
        var delta := deltas[i];
        if delta.account == "" || delta.volume.IsZero() || delta.account in seen {
          continue;
        }
        seen := seen + {delta.account};
        accountIds := accountIds + [delta.account];
      }
      if |accountIds| == 0 {
        assert seen == {};
        NothingToRecord(bindings, node, deltas, |deltas|, at);
        return Ok(0);
      }
      if lookupFails {
        return Err(Failed);
      }
      var bound := set a | a in accountIds && (a, node) in bindings;
      var usages: seq<Row> := [];
      for i := 0 to |deltas|
        invariant usages == BatchUpTo(bindings, node, deltas, i, at)
      {
        var delta := deltas[i];
        assert Recordable(bindings, node, delta) <==> delta.account in bound && !delta.volume.IsZero();
        if delta.account !in bound || delta.volume.IsZero() {
          continue;
        }
        usages := usages + [Row(delta.account, node, delta.volume, at)];
      }
      if |usages| == 0 {
        return Ok(0);
      }
      if insertFails || exists u :: u in usages && !u.volume.NonNegative() {
        return Err(Failed);
      }
      BatchRows(bindings, node, deltas, |deltas|, at);
      detail := detail + usages;
      r := Ok(|usages|);
    }

    method TrafficUsageDetailTotal(f: TotalFilter) returns (sum: Volume)
      ensures forall dir :: sum.In(dir) == SumRows(detail, DetailWindow(accounts, f), dir)
      ensures DetailAddedUp(accounts, detail, f, sum)
    {
      var up, down := 0, 0;
      ghost var window := DetailWindow(accounts, f);
      for i := 0 to |detail|
        invariant up == SumUpTo(detail, i, window, Uplink) && down == SumUpTo(detail, i, window, Downlink)
      {
        if Selects(accounts, f, detail[i].account) && InstantInWindow(f, detail[i].at) {
          up, down := up + detail[i].volume.up, down + detail[i].volume.down;
        }
      }
      DetailTotalExactly(accounts, detail, f);
      sum := Volume(up, down);
    }

    method TrafficUsageDailyTotal(f: TotalFilter) returns (sum: Volume)
      ensures forall dir :: sum.In(dir) == SumDaily(daily, DailyWindow(accounts, f), dir)
      ensures DailyAddedUp(accounts, daily, f, sum)
    {
      var up, down, rest := 0, 0, daily.Keys;
      ghost var window := DailyWindow(accounts, f);
      ghost var ups, downs := Entry(daily, window, Uplink), Entry(daily, window, Downlink);
      while rest != {}
        invariant rest <= daily.Keys
        invariant up + SumKeys(rest, ups) == SumDaily(daily, window, Uplink)
        invariant down + SumKeys(rest, downs) == SumDaily(daily, window, Downlink)
        decreases rest
      {
        var k :| k in rest;
        SumKeysTake(rest, ups, k);
        SumKeysTake(rest, downs, k);
        if Selects(accounts, f, k.account) && DayInWindow(f, k.day) {
          up, down := up + daily[k].up, down + daily[k].down;
        }
        rest := rest - {k};
      }
      DailyTotalExactly(accounts, daily, f);
      sum := Volume(up, down);
    }

    method TrafficUsageTotal(f: TotalFilter) returns (total: Volume)
      ensures forall dir :: total.In(dir) == Total(accounts, TablesNow(), f, dir)
      ensures exists fromDetail, fromDaily :: DetailAddedUp(accounts, detail, f, fromDetail) &&
                DailyAddedUp(accounts, daily, f, fromDaily) &&
                total == Volume(fromDetail.up + fromDaily.up, fromDetail.down + fromDaily.down)
    {
      var fromDetail := TrafficUsageDetailTotal(f);
      var fromDaily := TrafficUsageDailyTotal(f);
      assert forall dir :: fromDetail.In(dir) + fromDaily.In(dir) == Total(accounts, TablesNow(), f, dir);
      total := Volume(fromDetail.up + fromDaily.up, fromDetail.down + fromDaily.down);
    }

    // The cleanup transaction works on its own view of the tables, which the fields take over
    // when it commits; a failing statement or commit leaves the fields as they were.
    method CleanupTransaction(c: Cutoffs, fault: Fault) returns (r: Result<CleanupCounts>)
      modifies this`detail, this`daily, this`audits, this`domainAccesses, this`refreshStamps
      ensures r == if fault == NoFault then Ok(Performed(old(TablesNow()), old(LogsNow()), c)) else Err(Failed)
      ensures r.Err? ==> unchanged(this)
      ensures r.Ok? ==> TablesNow() == Cleanup(old(TablesNow()), c.traffic, c.daily)
      ensures r.Ok? ==> LogsNow() == PurgedLogs(old(LogsNow()), c)
    {
      var counts, txDetail, txDaily := CleanupCounts(0, 0, 0, 0, 0, 0), detail, daily;
      if fault == AtAggregate {
        return Err(Failed);
      }
      counts := counts.(dailyUpserted := GroupCount(txDetail, c.traffic));
      txDaily := Upsert(txDaily, Old(txDetail, c.traffic));
      if fault == AtTrafficDelete {
        return Err(Failed);
      }
      counts := counts.(trafficDeleted := |Old(txDetail, c.traffic)|);
      txDetail := Fresh(txDetail, c.traffic);
      if fault == AtAuditDelete {
        return Err(Failed);
      }
      var txAudits := KeepTimes(audits, c.audit);
      counts := counts.(auditDeleted := |audits| - |txAudits|);
      if fault == AtDomainAccessDelete {
        return Err(Failed);
      }
      var txDomainAccesses := KeepTimes(domainAccesses, c.domainAccess);
      counts := counts.(domainAccessDeleted := |domainAccesses| - |txDomainAccesses|);
      if fault == AtDailyDelete {
        return Err(Failed);
      }
      counts := counts.(dailyDeleted := |DropDays(txDaily, DayOf(c.daily))|);
      txDaily := KeepDays(txDaily, DayOf(c.daily));
      if fault == AtAuthRefreshDelete {
        return Err(Failed);
      }
      var txStamps := KeepStamps(refreshStamps, c.authRefresh);
      counts := counts.(authRefreshDeleted := |refreshStamps| - |txStamps|);
      if fault == AtCommit {
        return Err(Failed);
      }
      detail, daily, audits, domainAccesses, refreshStamps := txDetail, txDaily, txAudits, txDomainAccesses, txStamps;
      r := Ok(counts);
    }

    // The transaction, with what it keeps of the schema's constraints.
    method CleanupValid(c: Cutoffs, fault: Fault) returns (r: Result<CleanupCounts>)
      requires Valid()
      modifies this`detail, this`daily, this`audits, this`domainAccesses, this`refreshStamps
      ensures Valid()
      ensures r == if fault == NoFault then Ok(Performed(old(TablesNow()), old(LogsNow()), c)) else Err(Failed)
      ensures r.Err? ==> unchanged(this)
      ensures r.Ok? ==> TablesNow() == Cleanup(old(TablesNow()), c.traffic, c.daily)
      ensures r.Ok? ==> LogsNow() == PurgedLogs(old(LogsNow()), c)
    {
      CleanupKeepsConstraints(detail, daily, c.traffic, c.daily, accounts, nodes);
      r := CleanupTransaction(c, fault);
      assert RowsFit(detail, accounts, nodes) && DailyFits(daily, accounts, nodes);
    }

    // maintenanceCleanupDryRun: one query for each count.
    method MaintenanceCleanupDryRun(c: Cutoffs, fault: Fault) returns (r: Result<CleanupCounts>)
      ensures r == if fault == NoFault || fault == AtCommit then Ok(Predicted(TablesNow(), LogsNow(), c)) else Err(Failed)
    {
      var counts := CleanupCounts(0, 0, 0, 0, 0, 0);
      if fault == AtTrafficDelete {
        return Err(Failed);
      }
      counts := counts.(trafficDeleted := |Old(detail, c.traffic)|);
      if fault == AtAggregate {
        return Err(Failed);
      }
      counts := counts.(dailyUpserted := GroupCount(detail, c.traffic));
      if fault == AtAuditDelete {
        return Err(Failed);
      }
      counts := counts.(auditDeleted := |audits| - |KeepTimes(audits, c.audit)|);
      if fault == AtDomainAccessDelete {
        return Err(Failed);
      }
      counts := counts.(domainAccessDeleted := |domainAccesses| - |KeepTimes(domainAccesses, c.domainAccess)|);
      if fault == AtDailyDelete {
        return Err(Failed);
      }
      counts := counts.(dailyDeleted := |DropDays(daily, DayOf(c.daily))|);
      if fault == AtAuthRefreshDelete {
        return Err(Failed);
      }
      r := Ok(counts.(authRefreshDeleted := |refreshStamps| - |KeepStamps(refreshStamps, c.authRefresh)|));
    }

    // MaintenanceCleanup: a dry run only counts.
    method MaintenanceCleanup(keep: Retention, dryRun: bool, now: Option<Time>, clock: Time, fault: Fault)
      returns (r: Result<CleanupCounts>)
      requires Valid()
      modifies this`detail, this`daily, this`audits, this`domainAccesses, this`refreshStamps
      ensures Valid()
      ensures r == Err(Invalid) <==>
        keep.audit <= 0 || keep.traffic <= 0 || keep.trafficDaily <= 0 || keep.domainAccess <= 0 || keep.authRefresh <= 0
      ensures r.Err? <==> !keep.Positive() || (fault != NoFault && !(dryRun && fault == AtCommit))
      ensures r.Err? ==> r.error == if keep.Positive() then Failed else Invalid
      ensures r.Err? || dryRun ==> unchanged(this)
      ensures r.Ok? ==>
        var c := CutoffsAt(keep, if now.Some? then now.value else clock);
        r.value == if dryRun then Predicted(old(TablesNow()), old(LogsNow()), c)
                   else Performed(old(TablesNow()), old(LogsNow()), c)
      ensures r.Ok? && !dryRun ==>
        var c := CutoffsAt(keep, if now.Some? then now.value else clock);
        && TablesNow() == Cleanup(old(TablesNow()), c.traffic, c.daily)
        && LogsNow() == PurgedLogs(old(LogsNow()), c)
      ensures r.Ok? && !dryRun ==>
        var at := if now.Some? then now.value else clock;
        && DetailDeleted(old(detail), detail, keep, at) && DailyDeleted(old(TablesNow()), daily, keep, at)
        && LogsDeleted(old(LogsNow()), LogsNow(), keep, at)
      ensures r.Ok? && dryRun ==> Counted(TablesNow(), LogsNow(), r.value, keep, if now.Some? then now.value else clock)
    {
      if keep.audit <= 0 || keep.traffic <= 0 || keep.trafficDaily <= 0 || keep.domainAccess <= 0 || keep.authRefresh <= 0 {
        return Err(Invalid);
      }
      var at := if now.Some? then now.value else clock;
      var c := CutoffsAt(keep, at);
      PredictedExactly(TablesNow(), LogsNow(), keep, at);
      CleanupDeletes(TablesNow(), LogsNow(), keep, at);
      if dryRun {
        r := MaintenanceCleanupDryRun(c, fault);
        return;
      }
      r := CleanupValid(c, fault);
    }
  }
}
