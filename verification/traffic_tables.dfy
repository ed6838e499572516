/** The two traffic tables as values, the sums the queries take over them, and what the
    cleanup statements do to them.

    Instants are microseconds since the epoch in UTC, so a `::date` cast is a division.
    Sums are taken for one direction at a time; every statement below holds for both. */
module TrafficTables {

  type Id = string

  type Time = int

  type Day = int

  const MICROS_PER_DAY: int := 86_400_000_000

  function DayOf(t: Time): Day { t / MICROS_PER_DAY }

  datatype Direction = Uplink | Downlink

  // Upload and download bytes.
  datatype Volume = Volume(up: int, down: int) {
    function In(dir: Direction): int { if dir.Uplink? then up else down }

    predicate NonNegative() { up >= 0 && down >= 0 }

    predicate IsZero() { up == 0 && down == 0 }
  }

  // A row of traffic_usage.  Its random primary key never matters, so rows are told apart
  // by their position in the table.
  datatype Row = Row(account: Id, node: Id, volume: Volume, at: Time)

  // The primary key of traffic_usage_daily.
  datatype Key = Key(account: Id, node: Id, day: Day)

  type Daily = map<Key, Volume>

  function KeyOf(r: Row): Key { Key(r.account, r.node, DayOf(r.at)) }

  // The day of an instant starts at or before it and ends after it.
  lemma DayHoldsInstant(t: Time)
    ensures DayOf(t) * 86_400_000_000 <= t < (DayOf(t) + 1) * 86_400_000_000
  {
  }

  // The rows among the first `n` that satisfy `p`, in table order.
  function FilterUpTo(rows: seq<Row>, n: nat, p: Row -> bool): seq<Row>
    requires n <= |rows|
  {
    if n == 0 then []
    else FilterUpTo(rows, n - 1, p) + (if p(rows[n - 1]) then [rows[n - 1]] else [])
  }

  function Filter(rows: seq<Row>, p: Row -> bool): seq<Row> { FilterUpTo(rows, |rows|, p) }

  function SumUpTo(rows: seq<Row>, n: nat, p: Row -> bool, dir: Direction): int
    requires n <= |rows|
  {
    if n == 0 then 0
    else SumUpTo(rows, n - 1, p, dir) + (if p(rows[n - 1]) then rows[n - 1].volume.In(dir) else 0)
  }

  // What a query over traffic_usage with the condition `p` adds up.
  function SumRows(rows: seq<Row>, p: Row -> bool, dir: Direction): int { SumUpTo(rows, |rows|, p, dir) }

  ghost function Pick(ks: set<Key>): (k: Key)
    requires ks != {}
    ensures k in ks
  {
    var k :| k in ks; k
  }

  ghost function SumKeys(ks: set<Key>, f: Key -> int): int {
    if ks == {} then 0 else f(Pick(ks)) + SumKeys(ks - {Pick(ks)}, f)
  }

  function Stored(d: Daily, k: Key, dir: Direction): int { if k in d then d[k].In(dir) else 0 }

  function Entry(d: Daily, p: Key -> bool, dir: Direction): Key -> int {
    k => if p(k) then Stored(d, k, dir) else 0
  }

  // What a query over traffic_usage_daily with the condition `p` adds up.
  ghost function SumDaily(d: Daily, p: Key -> bool, dir: Direction): int { SumKeys(d.Keys, Entry(d, p, dir)) }

  // ---- Row sums ----

  lemma LastRow(rows: seq<Row>) returns (init: seq<Row>, last: Row)
    requires rows != []
    ensures rows == init + [last] && |init| < |rows|
  {
    init, last := rows[..|rows| - 1], rows[|rows| - 1];
  }

  lemma {:induction false} SumPrefix(a: seq<Row>, b: seq<Row>, n: nat, p: Row -> bool, dir: Direction)
    requires n <= |a|
    ensures SumUpTo(a + b, n, p, dir) == SumUpTo(a, n, p, dir)
  {
    if n > 0 {
      SumPrefix(a, b, n - 1, p, dir);
    }
  }

  lemma SumLast(init: seq<Row>, last: Row, p: Row -> bool, dir: Direction)
    ensures SumRows(init + [last], p, dir) == SumRows(init, p, dir) + (if p(last) then last.volume.In(dir) else 0)
  {
    SumPrefix(init, [last], |init|, p, dir);
  }

  lemma {:induction false} FilterPrefix(a: seq<Row>, b: seq<Row>, n: nat, p: Row -> bool)
    requires n <= |a|
    ensures FilterUpTo(a + b, n, p) == FilterUpTo(a, n, p)
  {
    if n > 0 {
      FilterPrefix(a, b, n - 1, p);
    }
  }

  lemma FilterLast(init: seq<Row>, last: Row, p: Row -> bool)
    ensures Filter(init + [last], p) == Filter(init, p) + (if p(last) then [last] else [])
  {
    FilterPrefix(init, [last], |init|, p);
  }

  lemma {:induction false} FilterMembers(rows: seq<Row>, p: Row -> bool)
    ensures forall r :: r in Filter(rows, p) <==> r in rows && p(r)
    decreases |rows|
  {
    if rows != [] {
      var init, last := LastRow(rows);
      FilterMembers(init, p);
      FilterLast(init, last, p);
    }
  }

  lemma {:induction false} FilterNothing(rows: seq<Row>, p: Row -> bool)
    requires forall i :: 0 <= i < |rows| ==> !p(rows[i])
    ensures Filter(rows, p) == []
    decreases |rows|
  {
    if rows != [] {
      var init, last := LastRow(rows);
      assert forall i :: 0 <= i < |init| ==> init[i] == rows[i];
      FilterNothing(init, p);
      FilterLast(init, last, p);
    }
  }

  lemma {:induction false} FilterAppend(a: seq<Row>, b: seq<Row>, p: Row -> bool)
    ensures Filter(a + b, p) == Filter(a, p) + Filter(b, p)
    decreases |b|
  {
    if b == [] {
      assert a + b == a;
    } else {
      var init, last := LastRow(b);
      FilterAppend(a, init, p);
      FilterLast(init, last, p);
      assert a + b == (a + init) + [last];
      FilterLast(a + init, last, p);
    }
  }

  lemma {:induction false} SumAppend(a: seq<Row>, b: seq<Row>, p: Row -> bool, dir: Direction)
    ensures SumRows(a + b, p, dir) == SumRows(a, p, dir) + SumRows(b, p, dir)
    decreases |b|
  {
    if b == [] {
      assert a + b == a;
    } else {
      var init, last := LastRow(b);
      SumAppend(a, init, p, dir);
      SumLast(init, last, p, dir);
      assert a + b == (a + init) + [last];
      SumLast(a + init, last, p, dir);
    }
  }

  // Summing `p` over the rows that satisfy `q` is summing the rows that satisfy both.
  lemma {:induction false} SumFilter(rows: seq<Row>, p: Row -> bool, q: Row -> bool, both: Row -> bool, dir: Direction)
    requires forall r :: r in rows ==> both(r) == (p(r) && q(r))
    ensures SumRows(Filter(rows, q), p, dir) == SumRows(rows, both, dir)
    decreases |rows|
  {
    if rows != [] {
      var init, last := LastRow(rows);
      SumFilter(init, p, q, both, dir);
      SumLast(init, last, both, dir);
      FilterLast(init, last, q);
      if q(last) {
        SumLast(Filter(init, q), last, p, dir);
      } else {
        assert Filter(rows, q) == Filter(init, q);
      }
    }
  }

  lemma {:induction false} SumSplit(rows: seq<Row>, p: Row -> bool, yes: Row -> bool, no: Row -> bool, dir: Direction)
    requires forall r :: r in rows ==> (p(r) <==> yes(r) || no(r)) && !(yes(r) && no(r))
    ensures SumRows(rows, p, dir) == SumRows(rows, yes, dir) + SumRows(rows, no, dir)
    decreases |rows|
  {
    if rows != [] {
      var init, last := LastRow(rows);
      SumSplit(init, p, yes, no, dir);
      SumLast(init, last, p, dir);
      SumLast(init, last, yes, dir);
      SumLast(init, last, no, dir);
    }
  }

  lemma {:induction false} FilterFilter(rows: seq<Row>, p: Row -> bool, q: Row -> bool, both: Row -> bool)
    requires forall r :: r in rows ==> both(r) == (p(r) && q(r))
    ensures Filter(Filter(rows, p), q) == Filter(rows, both)
    decreases |rows|
  {
    if rows != [] {
      var init, last := LastRow(rows);
      FilterFilter(init, p, q, both);
      FilterLast(init, last, p);
      FilterLast(init, last, both);
      if p(last) {
        FilterLast(Filter(init, p), last, q);
      } else {
        assert Filter(rows, p) == Filter(init, p);
      }
    }
  }

  // Sums of rows without negative bytes are not negative, and no summand exceeds the sum.
  lemma {:induction false} SumUpToNonNegative(rows: seq<Row>, n: nat, p: Row -> bool, dir: Direction)
    requires n <= |rows| && forall i :: 0 <= i < n && p(rows[i]) ==> rows[i].volume.NonNegative()
    ensures SumUpTo(rows, n, p, dir) >= 0
    ensures forall i :: 0 <= i < n && p(rows[i]) ==> rows[i].volume.In(dir) <= SumUpTo(rows, n, p, dir)
  {
    if n > 0 {
      SumUpToNonNegative(rows, n - 1, p, dir);
    }
  }

  lemma SumNonNegative(rows: seq<Row>, p: Row -> bool, dir: Direction)
    requires forall r :: r in rows && p(r) ==> r.volume.NonNegative()
    ensures SumRows(rows, p, dir) >= 0
    ensures forall r :: r in rows && p(r) ==> r.volume.In(dir) <= SumRows(rows, p, dir)
  {
    SumUpToNonNegative(rows, |rows|, p, dir);
  }

  lemma {:induction false} SumNothing(rows: seq<Row>, p: Row -> bool, dir: Direction)
    requires forall r :: r in rows && p(r) ==> r.volume.In(dir) == 0
    ensures SumRows(rows, p, dir) == 0
    decreases |rows|
  {
    if rows != [] {
      var init, last := LastRow(rows);
      SumNothing(init, p, dir);
      SumLast(init, last, p, dir);
    }
  }

  // ---- Daily sums ----

  // The sum does not depend on the order in which the rows are visited.
  lemma {:induction false} SumKeysTake(ks: set<Key>, f: Key -> int, k: Key)
    requires k in ks
    ensures SumKeys(ks, f) == f(k) + SumKeys(ks - {k}, f)
    decreases ks
  {
    var j := Pick(ks);
    if j != k {
      SumKeysTake(ks - {j}, f, k);
      SumKeysTake(ks - {k}, f, j);
      assert ks - {j} - {k} == ks - {k} - {j};
    }
  }

  lemma {:induction false} SumKeysAgree(ks: set<Key>, f: Key -> int, g: Key -> int)
    requires forall k :: k in ks ==> f(k) == g(k)
    ensures SumKeys(ks, f) == SumKeys(ks, g)
    decreases ks
  {
    if ks != {} {
      SumKeysAgree(ks - {Pick(ks)}, f, g);
    }
  }

  lemma {:induction false} SumKeysUnion(all: set<Key>, a: set<Key>, b: set<Key>, f: Key -> int)
    requires a !! b && all == a + b
    ensures SumKeys(all, f) == SumKeys(a, f) + SumKeys(b, f)
    decreases a
  {
    if a == {} {
      assert all == b;
    } else {
      var k := Pick(a);
      var all', a' := all - {k}, a - {k};
      assert all' == a' + b;
      SumKeysUnion(all', a', b, f);
      SumKeysTake(all, f, k);
      SumKeysTake(a, f, k);
    }
  }

  lemma {:induction false} SumKeysNothing(ks: set<Key>, f: Key -> int)
    requires forall k :: k in ks ==> f(k) == 0
    ensures SumKeys(ks, f) == 0
    decreases ks
  {
    if ks != {} {
      SumKeysNothing(ks - {Pick(ks)}, f);
    }
  }

  lemma SumDailySplit(d: Daily, p: Key -> bool, a: Daily, b: Daily, dir: Direction)
    requires a.Keys !! b.Keys && d == a + b
    ensures SumDaily(d, p, dir) == SumDaily(a, p, dir) + SumDaily(b, p, dir)
  {
    SumKeysUnion(d.Keys, a.Keys, b.Keys, Entry(d, p, dir));
    SumKeysAgree(a.Keys, Entry(d, p, dir), Entry(a, p, dir));
    SumKeysAgree(b.Keys, Entry(d, p, dir), Entry(b, p, dir));
  }

  lemma SumDailyNothing(d: Daily, p: Key -> bool, dir: Direction)
    requires forall k :: k in d ==> !p(k)
    ensures SumDaily(d, p, dir) == 0
  {
    SumKeysNothing(d.Keys, Entry(d, p, dir));
  }

  // ---- The aggregate statement ----

  predicate Before(cutoff: Time, r: Row) { r.at < cutoff }

  function Old(rows: seq<Row>, cutoff: Time): seq<Row> { Filter(rows, r => Before(cutoff, r)) }

  function Fresh(rows: seq<Row>, cutoff: Time): seq<Row> { Filter(rows, r => !Before(cutoff, r)) }

  function KeysOf(rows: seq<Row>): set<Key> { set r | r in rows :: KeyOf(r) }

  function At(k: Key): Row -> bool { r => KeyOf(r) == k }

  function AddRow(d: Daily, r: Row): Daily {
    d[KeyOf(r) := Volume(Stored(d, KeyOf(r), Uplink) + r.volume.up, Stored(d, KeyOf(r), Downlink) + r.volume.down)]
  }

  function UpsertUpTo(d: Daily, rows: seq<Row>, n: nat): Daily
    requires n <= |rows|
  {
    if n == 0 then d else AddRow(UpsertUpTo(d, rows, n - 1), rows[n - 1])
  }

  // INSERT ... SELECT ... GROUP BY ... ON CONFLICT DO UPDATE, one detail row at a time;
  // GroupSums gives it back as one group sum for each key.
  function Upsert(d: Daily, rows: seq<Row>): Daily { UpsertUpTo(d, rows, |rows|) }

  lemma KeysOfAppend(a: seq<Row>, b: seq<Row>)
    ensures KeysOf(a + b) == KeysOf(a) + KeysOf(b)
  {
    forall k | k in KeysOf(a) + KeysOf(b) ensures k in KeysOf(a + b) {
      if k in KeysOf(a) {
        var r :| r in a && KeyOf(r) == k;
        assert r in a + b;
      } else {
        var r :| r in b && KeyOf(r) == k;
        assert r in a + b;
      }
    }
  }

  lemma {:induction false} UpsertPrefix(d: Daily, a: seq<Row>, b: seq<Row>, n: nat)
    requires n <= |a|
    ensures UpsertUpTo(d, a + b, n) == UpsertUpTo(d, a, n)
  {
    if n > 0 {
      UpsertPrefix(d, a, b, n - 1);
    }
  }

  lemma UpsertLast(d: Daily, init: seq<Row>, last: Row)
    ensures Upsert(d, init + [last]) == AddRow(Upsert(d, init), last)
  {
    UpsertPrefix(d, init, [last], |init|);
  }

  // Aggregating in two steps is aggregating once.
  lemma {:induction false} UpsertAppend(d: Daily, a: seq<Row>, b: seq<Row>)
    ensures Upsert(Upsert(d, a), b) == Upsert(d, a + b)
    decreases |b|
  {
    if b == [] {
      assert a + b == a;
    } else {
      var init, last := LastRow(b);
      UpsertAppend(d, a, init);
      UpsertLast(Upsert(d, a), init, last);
      assert a + b == (a + init) + [last];
      UpsertLast(d, a + init, last);
    }
  }

  lemma {:induction false} UpsertKeys(d: Daily, rows: seq<Row>)
    ensures Upsert(d, rows).Keys == d.Keys + KeysOf(rows)
    decreases |rows|
  {
    if rows != [] {
      var init, last := LastRow(rows);
      UpsertKeys(d, init);
      UpsertLast(d, init, last);
      KeysOfAppend(init, [last]);
    }
  }

  lemma {:induction false} UpsertGroup(d: Daily, rows: seq<Row>, k: Key, dir: Direction)
    ensures Stored(Upsert(d, rows), k, dir) == Stored(d, k, dir) + SumRows(rows, At(k), dir)
    decreases |rows|
  {
    if rows != [] {
      var init, last := LastRow(rows);
      UpsertGroup(d, init, k, dir);
      UpsertLast(d, init, last);
      SumLast(init, last, At(k), dir);
    }
  }

  // What the statement means: each key among the rows gets one daily row, which holds what
  // was stored under it before plus the sum of its group; other daily rows are untouched.
  lemma GroupSums(d: Daily, rows: seq<Row>)
    ensures Upsert(d, rows).Keys == d.Keys + KeysOf(rows)
    ensures forall k, dir :: Stored(Upsert(d, rows), k, dir) == Stored(d, k, dir) + SumRows(rows, At(k), dir)
    ensures forall k :: k in d && k !in KeysOf(rows) ==> Upsert(d, rows)[k] == d[k]
  {
    UpsertKeys(d, rows);
    forall k, dir ensures Stored(Upsert(d, rows), k, dir) == Stored(d, k, dir) + SumRows(rows, At(k), dir) {
      UpsertGroup(d, rows, k, dir);
    }
    forall k | k in d && k !in KeysOf(rows) ensures Upsert(d, rows)[k] == d[k] {
      UntouchedKey(d, rows, k);
    }
  }

  lemma {:induction false} UntouchedKey(d: Daily, rows: seq<Row>, k: Key)
    requires k in d && k !in KeysOf(rows)
    ensures k in Upsert(d, rows) && Upsert(d, rows)[k] == d[k]
    decreases |rows|
  {
    if rows != [] {
      var init, last := LastRow(rows);
      KeysOfAppend(init, [last]);
      assert KeyOf(last) in KeysOf([last]);
      UntouchedKey(d, init, k);
      UpsertLast(d, init, last);
    }
  }

  lemma VolumesAgree(v: Volume, w: Volume)
    requires v.In(Uplink) == w.In(Uplink) && v.In(Downlink) == w.In(Downlink)
    ensures v == w
  {
  }

  // Only the group sums matter, not the order of the rows or where they came from.
  lemma UpsertAgree(d: Daily, a: seq<Row>, b: seq<Row>)
    requires KeysOf(a) == KeysOf(b)
    requires forall k, dir :: SumRows(a, At(k), dir) == SumRows(b, At(k), dir)
    ensures Upsert(d, a) == Upsert(d, b)
  {
    var da, db := Upsert(d, a), Upsert(d, b);
    UpsertKeys(d, a);
    UpsertKeys(d, b);
    forall k | k in da ensures da[k] == db[k] {
      UpsertGroup(d, a, k, Uplink);
      UpsertGroup(d, b, k, Uplink);
      UpsertGroup(d, a, k, Downlink);
      UpsertGroup(d, b, k, Downlink);
      VolumesAgree(da[k], db[k]);
    }
  }

  lemma SumDailyAddRow(d: Daily, r: Row, p: Key -> bool, dir: Direction)
    ensures SumDaily(AddRow(d, r), p, dir) == SumDaily(d, p, dir) + (if p(KeyOf(r)) then r.volume.In(dir) else 0)
  {
    var k, d' := KeyOf(r), AddRow(d, r);
    var rest := d.Keys - {k};
    assert d'.Keys - {k} == rest;
    SumKeysTake(d'.Keys, Entry(d', p, dir), k);
    SumKeysAgree(rest, Entry(d', p, dir), Entry(d, p, dir));
    if k in d {
      SumKeysTake(d.Keys, Entry(d, p, dir), k);
    } else {
      assert rest == d.Keys;
    }
  }

  // Nothing is lost or counted twice by aggregating, whatever part of the daily table is read.
  lemma {:induction false} SumDailyUpsert(d: Daily, rows: seq<Row>, p: Key -> bool, q: Row -> bool, dir: Direction)
    requires forall r :: r in rows ==> q(r) == p(KeyOf(r))
    ensures SumDaily(Upsert(d, rows), p, dir) == SumDaily(d, p, dir) + SumRows(rows, q, dir)
    decreases |rows|
  {
    if rows != [] {
      var init, last := LastRow(rows);
      SumDailyUpsert(d, init, p, q, dir);
      UpsertLast(d, init, last);
      SumDailyAddRow(Upsert(d, init), last, p, dir);
      SumLast(init, last, q, dir);
    }
  }

  // ---- The two delete statements and a whole cleanup ----

  function KeepDays(d: Daily, from: Day): Daily { map k | k in d && k.day >= from :: d[k] }

  function DropDays(d: Daily, from: Day): Daily { map k | k in d && k.day < from :: d[k] }

  datatype Tables = Tables(detail: seq<Row>, daily: Daily)

  // What an undisturbed cleanup leaves: aggregate, delete the aggregated detail rows, and
  // delete daily rows before the day of the daily cutoff.
  function Cleanup(t: Tables, cutoff: Time, dailyCutoff: Time): Tables {
    Tables(Fresh(t.detail, cutoff), KeepDays(Upsert(t.daily, Old(t.detail, cutoff)), DayOf(dailyCutoff)))
  }

  // Splitting the old rows at an earlier cutoff.
  lemma OldInTwoSteps(rows: seq<Row>, c1: Time, c2: Time)
    requires c1 <= c2
    ensures Fresh(Fresh(rows, c1), c2) == Fresh(rows, c2)
    ensures forall k, dir ::
      SumRows(Old(rows, c2), At(k), dir) == SumRows(Old(rows, c1) + Old(Fresh(rows, c1), c2), At(k), dir)
    ensures KeysOf(Old(rows, c2)) == KeysOf(Old(rows, c1) + Old(Fresh(rows, c1), c2))
  {
    var early, late := (r: Row) => Before(c1, r), (r: Row) => Before(c2, r);
    var kept := (r: Row) => !Before(c1, r);
    var first, second := Old(rows, c1), Old(Fresh(rows, c1), c2);
    FilterFilter(rows, kept, r => !Before(c2, r), r => !Before(c2, r));
    forall k, dir ensures SumRows(Old(rows, c2), At(k), dir) == SumRows(first + second, At(k), dir) {
      var all := (r: Row) => At(k)(r) && late(r);
      var yes := (r: Row) => At(k)(r) && early(r);
      var no := (r: Row) => all(r) && kept(r);
      SumFilter(rows, At(k), late, all, dir);
      SumFilter(rows, At(k), early, yes, dir);
      SumFilter(Fresh(rows, c1), At(k), late, all, dir);
      SumFilter(rows, all, kept, no, dir);
      SumSplit(rows, all, yes, no, dir);
      SumAppend(first, second, At(k), dir);
    }
    FilterMembers(rows, early);
    FilterMembers(rows, kept);
    FilterMembers(rows, late);
    FilterMembers(Fresh(rows, c1), late);
    assert forall r :: r in Old(rows, c2) <==> r in first + second;
  }

  // Deleting early days before a later cleanup deletes them anyway makes no difference.
  lemma {:induction false} KeepUpsert(d: Daily, rows: seq<Row>, d1: Day, d2: Day)
    requires d1 <= d2
    ensures KeepDays(Upsert(KeepDays(d, d1), rows), d2) == KeepDays(Upsert(d, rows), d2)
    decreases |rows|
  {
    if rows != [] {
      var init, last := LastRow(rows);
      KeepUpsert(d, init, d1, d2);
      UpsertLast(d, init, last);
      UpsertLast(KeepDays(d, d1), init, last);
      KeepAddRow(Upsert(d, init), last, d2);
      KeepAddRow(Upsert(KeepDays(d, d1), init), last, d2);
    }
  }

  lemma KeepAddRow(d: Daily, r: Row, from: Day)
    ensures KeepDays(AddRow(d, r), from) ==
            if KeyOf(r).day < from then KeepDays(d, from) else AddRow(KeepDays(d, from), r)
  {
  }

  lemma CleanupTwice(t: Tables, c1: Time, d1: Time, c2: Time, d2: Time)
    requires c1 <= c2 && d1 <= d2
    ensures Cleanup(Cleanup(t, c1, d1), c2, d2) == Cleanup(t, c2, d2)
  {
    var first, second := Old(t.detail, c1), Old(Fresh(t.detail, c1), c2);
    OldInTwoSteps(t.detail, c1, c2);
    KeepUpsert(Upsert(t.daily, first), second, DayOf(d1), DayOf(d2));
    UpsertAppend(t.daily, first, second);
    UpsertAgree(t.daily, Old(t.detail, c2), first + second);
  }

  predicate NonDecreasing(times: seq<Time>) {
    forall i, j :: 0 <= i < j < |times| ==> times[i] <= times[j]
  }

  // Doing `step` at each of the first `n` times.
  function Repeat<T>(step: (T, Time) -> T, t: T, times: seq<Time>, n: nat): T
    requires n <= |times|
  {
    if n == 0 then t else step(Repeat(step, t, times, n - 1), times[n - 1])
  }

  lemma {:induction false} LastStepAbsorbs<T(!new)>(step: (T, Time) -> T, t: T, times: seq<Time>, n: nat)
    requires 0 < n <= |times| && NonDecreasing(times)
    requires forall x: T, a, b :: a <= b ==> step(step(x, a), b) == step(x, b)
    ensures Repeat(step, t, times, n) == step(t, times[n - 1])
  {
    if n == 1 {
      assert Repeat(step, t, times, 0) == t;
    } else {
      LastStepAbsorbs(step, t, times, n - 1);
    }
  }

  function CleanupAt(retention: int, dailyRetention: int): (Tables, Time) -> Tables {
    (t, now) => Cleanup(t, now - retention, now - dailyRetention)
  }

  lemma CleanupAtAbsorbs(retention: int, dailyRetention: int, t: Tables, a: Time, b: Time)
    requires a <= b
    ensures var step := CleanupAt(retention, dailyRetention);
            step(step(t, a), b) == step(t, b)
  {
    CleanupTwice(t, a - retention, a - dailyRetention, b - retention, b - dailyRetention);
  }

  /** Schedule independence: however often and whenever cleanup ran before, the tables after
      it are those that the last cleanup alone would have left. */
  lemma OnlyTheLastCleanupMatters(t: Tables, times: seq<Time>, retention: int, dailyRetention: int)
    requires times != [] && NonDecreasing(times)
    ensures var step := CleanupAt(retention, dailyRetention);
            Repeat(step, t, times, |times|) == step(t, times[|times| - 1])
  {
    var step := CleanupAt(retention, dailyRetention);
    forall x: Tables, a: Time, b: Time | a <= b ensures step(step(x, a), b) == step(x, b) {
      CleanupAtAbsorbs(retention, dailyRetention, x, a, b);
    }
    LastStepAbsorbs(step, t, times, |times|);
  }
}
