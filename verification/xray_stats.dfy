/** internal/runtimesync/xray.go: from the runtime's counters to one delta per account. */
module XrayStats {
  import opened Results
  import opened Text
  import opened TrafficTables
  import opened TrafficStore

  // A user counter as QueryStats returns it.
  datatype Stat = Stat(name: string, value: int)

  const EMAIL_PREFIX: string := "pcp-"
  const EMAIL_SUFFIX: string := "@proxy-control-plane"
  const STAT_PREFIX: string := "user>>>"
  const TRAFFIC_MARKER: string := ">>>traffic>>>"
  const QUERY_PATTERN: string := "user>>>pcp-"

  function RuntimeEmail(id: Id): string {
    if id == "" then "" else EMAIL_PREFIX + id + EMAIL_SUFFIX
  }

  function AccountOfEmail(email: string): Option<Id> {
    if |email| <= |EMAIL_PREFIX| + |EMAIL_SUFFIX| then None
    else if email[..|EMAIL_PREFIX|] != EMAIL_PREFIX then None
    else if email[|email| - |EMAIL_SUFFIX|..] != EMAIL_SUFFIX then None
    else Some(email[|EMAIL_PREFIX|..|email| - |EMAIL_SUFFIX|])
  }

  // The e-mail tag names the account, both ways.
  lemma EmailRoundTrip(id: Id, email: string)
    ensures id != "" ==> AccountOfEmail(RuntimeEmail(id)) == Some(id)
    ensures AccountOfEmail(email).Some? ==>
      AccountOfEmail(email).value != "" && RuntimeEmail(AccountOfEmail(email).value) == email
  {
    if AccountOfEmail(email).Some? {
      var n := |email| - |EMAIL_SUFFIX|;
      assert email == email[..|EMAIL_PREFIX|] + email[|EMAIL_PREFIX|..n] + email[n..];
    }
  }

  function ParseStat(name: string): Option<(Id, Direction)> {
    if !HasPrefix(name, STAT_PREFIX) then None
    else
      var cut := CutAt(name[|STAT_PREFIX|..], TRAFFIC_MARKER);
      if !cut.found then None
      else
        var account := AccountOfEmail(cut.before);
        if account.None? then None
        else if cut.after == "uplink" then Some((account.value, Uplink))
        else if cut.after == "downlink" then Some((account.value, Downlink))
        else None
  }

  // ---- What the counters are called ----

  // The name under which Xray counts an account's bytes in one direction.
  function CounterName(account: Id, dir: Direction): string {
    "user>>>pcp-" + account + "@proxy-control-plane>>>traffic>>>" + if dir.Uplink? then "uplink" else "downlink"
  }

  // Ids that cannot be confused with the rest of a counter's name.
  predicate PlainId(account: Id) { account != "" && !Contains(account, ">>>traffic>>>") }

  function DirectionName(dir: Direction): string { if dir.Uplink? then "uplink" else "downlink" }

  lemma NameLiterals()
    ensures "user>>>pcp-" == STAT_PREFIX + EMAIL_PREFIX
    ensures "@proxy-control-plane>>>traffic>>>" == EMAIL_SUFFIX + TRAFFIC_MARKER
  {
  }

  lemma Regroup(a: string, b: string, id: string, c: string, d: string, e: string)
    ensures (a + b) + id + (c + d) + e == a + ((b + id + c) + d + e)
  {
  }

  lemma CounterNameParts(account: Id, dir: Direction)
    requires account != ""
    ensures CounterName(account, dir) == STAT_PREFIX + (RuntimeEmail(account) + TRAFFIC_MARKER + DirectionName(dir))
  {
    NameLiterals();
    Regroup(STAT_PREFIX, EMAIL_PREFIX, account, EMAIL_SUFFIX, TRAFFIC_MARKER, DirectionName(dir));
  }

  // A mark that begins within the first three pieces lies within the second.
  lemma MarkWithin(a: string, id: string, b: string, mark: string, after: string, j: nat)
    requires mark != "" && b != "" && mark[0] !in a && mark[0] !in b && b[0] !in mark
    requires j < |a| + |id| + |b| && OccursAt((a + id + b) + mark + after, mark, j)
    ensures Contains(id, mark)
  {
    var s, at, k := (a + id + b) + mark + after, |a| + |id|, j - |a|;
    assert s[j] == s[j..j + |mark|][0] == mark[0];
    assert forall i :: 0 <= i < |a| ==> s[i] == a[i];
    assert forall i :: 0 <= i < |b| ==> s[at + i] == b[i];
    assert forall i :: j <= i < j + |mark| ==> s[i] == s[j..j + |mark|][i - j] && s[i] in mark;
    assert |a| <= j < at && s[at] == b[0];
    assert j + |mark| <= at;
    forall i | 0 <= i < |mark| ensures id[k + i] == mark[i] {
      assert s[j + i] == s[j..j + |mark|][i] && s[j + i] == id[j + i - |a|];
    }
    assert id[k..k + |mark|] == mark;
    assert OccursAt(id, mark, k);
  }

  lemma CutMarked(a: string, id: string, b: string, mark: string, after: string)
    requires mark != "" && b != "" && mark[0] !in a && mark[0] !in b && b[0] !in mark && !Contains(id, mark)
    ensures CutAt((a + id + b) + mark + after, mark) == Cut(a + id + b, after, true)
  {
    var email := a + id + b;
    var s := email + mark + after;
    assert s[|email|..|email| + |mark|] == mark && OccursAt(s, mark, |email|);
    var i := Index(s, mark);
    if i < |email| {
      MarkWithin(a, id, b, mark, after, i);
    }
    assert s[..|email|] == email && s[|email| + |mark|..] == after;
  }

  lemma MarksDiffer()
    ensures TRAFFIC_MARKER != "" && EMAIL_SUFFIX != "" && TRAFFIC_MARKER[0] !in EMAIL_PREFIX
    ensures TRAFFIC_MARKER[0] !in EMAIL_SUFFIX && EMAIL_SUFFIX[0] !in TRAFFIC_MARKER
  {
    assert TRAFFIC_MARKER[0] == '>' && EMAIL_SUFFIX[0] == '@';
  }

  lemma NameIsAttributed(account: Id, dir: Direction)
    requires PlainId(account)
    ensures ParseStat(CounterName(account, dir)) == Some((account, dir))
  {
    var email, name := RuntimeEmail(account), CounterName(account, dir);
    CounterNameParts(account, dir);
    var rest := email + TRAFFIC_MARKER + DirectionName(dir);
    assert name[|STAT_PREFIX|..] == rest && name[..|STAT_PREFIX|] == STAT_PREFIX;
    MarksDiffer();
    CutMarked(EMAIL_PREFIX, account, EMAIL_SUFFIX, TRAFFIC_MARKER, DirectionName(dir));
    EmailRoundTrip(account, email);
  }

  // A mark within an id comes before the one that ends the e-mail.
  lemma MarkBefore(a: string, id: string, b: string, mark: string, after: string)
    requires Contains(id, mark)
    ensures 0 <= Index((a + id + b) + mark + after, mark) < |a| + |id| + |b| || mark == "" || b == ""
  {
    var s, k := (a + id + b) + mark + after, Index(id, mark);
    assert s[k + |a|..k + |a| + |mark|] == id[k..k + |mark|];
    assert OccursAt(s, mark, k + |a|);
  }

  lemma CutShape(s: string, sep: string)
    requires CutAt(s, sep).found
    ensures var cut := CutAt(s, sep); s == cut.before + sep + cut.after && |cut.before| == Index(s, sep)
  {
    var i := Index(s, sep);
    assert s[i..i + |sep|] == sep;
    assert s == s[..i] + s[i..i + |sep|] + s[i + |sep|..];
  }

  lemma AttributedIsNamed(name: string, account: Id, dir: Direction)
    requires ParseStat(name) == Some((account, dir))
    ensures PlainId(account) && name == CounterName(account, dir)
  {
    var rest := name[|STAT_PREFIX|..];
    var cut := CutAt(rest, TRAFFIC_MARKER);
    assert name == STAT_PREFIX + rest;
    CutShape(rest, TRAFFIC_MARKER);
    EmailRoundTrip(account, cut.before);
    CounterNameParts(account, dir);
    if Contains(account, TRAFFIC_MARKER) {
      MarkBefore(EMAIL_PREFIX, account, EMAIL_SUFFIX, TRAFFIC_MARKER, DirectionName(dir));
      MarksDiffer();
    }
  }

  /** A counter is attributed to an account and a direction if and only if it has just their name. */
  lemma AttributedExactly(name: string, account: Id, dir: Direction)
    ensures ParseStat(name) == Some((account, dir)) <==> PlainId(account) && name == CounterName(account, dir)
  {
    if ParseStat(name) == Some((account, dir)) {
      AttributedIsNamed(name, account, dir);
    }
    if PlainId(account) {
      NameIsAttributed(account, dir);
    }
  }

  // Whatever QueryTraffic can attribute, its query pattern selects.
  lemma ManagedStatsAreQueried(name: string)
    requires ParseStat(name).Some?
    ensures Contains(name, QUERY_PATTERN) && ParseStat(name).value.0 != ""
  {
    var rest := name[|STAT_PREFIX|..];
    var email := CutAt(rest, TRAFFIC_MARKER).before;
    assert email[..4] == EMAIL_PREFIX && rest[..4] == email[..4];
    assert name[..11] == STAT_PREFIX + rest[..4] == QUERY_PATTERN;
    ContainsPrefix(name, QUERY_PATTERN);
  }

  // What a single counter holds for `account`; QueryTraffic ignores values that are not positive.
  function Share(s: Stat, account: Id, dir: Direction): nat {
    if ParseStat(s.name) == Some((account, dir)) && s.value > 0 then s.value else 0
  }

  function SumStats(stats: seq<Stat>, n: nat, f: Stat -> nat): nat
    requires n <= |stats|
  {
    if n == 0 then 0 else SumStats(stats, n - 1, f) + f(stats[n - 1])
  }

  function ShareOf(account: Id, dir: Direction): Stat -> nat { s => Share(s, account, dir) }

  // The positive values of the counters called `name`.
  function NamedUpTo(stats: seq<Stat>, n: nat, name: string): nat
    requires n <= |stats|
  {
    if n == 0 then 0
    else NamedUpTo(stats, n - 1, name) + (if stats[n - 1].name == name && stats[n - 1].value > 0 then stats[n - 1].value else 0)
  }

  // The bytes counted for an account in one direction, by the name of the counter.
  function BytesFor(stats: seq<Stat>, account: Id, dir: Direction): nat {
    NamedUpTo(stats, |stats|, CounterName(account, dir))
  }

  lemma {:induction false} LiveIsNamed(stats: seq<Stat>, n: nat, account: Id, dir: Direction)
    requires n <= |stats|
    ensures LiveUpTo(stats, n, account, dir) == if PlainId(account) then NamedUpTo(stats, n, CounterName(account, dir)) else 0
  {
    if n > 0 {
      LiveIsNamed(stats, n - 1, account, dir);
      AttributedExactly(stats[n - 1].name, account, dir);
    }
  }

  function LiveUpTo(stats: seq<Stat>, n: nat, account: Id, dir: Direction): nat
    requires n <= |stats|
  {
    SumStats(stats, n, ShareOf(account, dir))
  }

  // All the counters hold for `account`.
  function Live(stats: seq<Stat>, account: Id, dir: Direction): nat { LiveUpTo(stats, |stats|, account, dir) }

  function LiveVolume(stats: seq<Stat>, n: nat, account: Id): Volume
    requires n <= |stats|
  {
    Volume(LiveUpTo(stats, n, account, Uplink), LiveUpTo(stats, n, account, Downlink))
  }

  // What QueryTraffic must return for a response, up to the order of a Go map.
  ghost predicate IsDeltas(stats: seq<Stat>, deltas: seq<Delta>) {
    && (forall i, j :: 0 <= i < j < |deltas| ==> deltas[i].account != deltas[j].account)
    && (forall d :: d in deltas ==> d.volume == LiveVolume(stats, |stats|, d.account) && !d.volume.IsZero())
    && (forall a :: !LiveVolume(stats, |stats|, a).IsZero() ==> exists d :: d in deltas && d.account == a)
  }

  function Lookup(byAccount: map<Id, Volume>, account: Id): Volume {
    if account in byAccount then byAccount[account] else Volume(0, 0)
  }

  // The accumulating map holds an entry for exactly the accounts with traffic in it.
  ghost predicate Tallies(byAccount: map<Id, Volume>, stats: seq<Stat>, n: nat)
    requires n <= |stats|
  {
    && (forall a :: Lookup(byAccount, a) == LiveVolume(stats, n, a))
    && (forall a :: a in byAccount ==> !byAccount[a].IsZero())
  }

  function Add(v: Volume, dir: Direction, value: int): Volume {
    match dir
    case Uplink => v.(up := v.up + value)
    case Downlink => v.(down := v.down + value)
  }

  lemma LiveNext(stats: seq<Stat>, n: nat, account: Id)
    requires n < |stats|
    ensures var parsed, value := ParseStat(stats[n].name), stats[n].value;
            LiveVolume(stats, n + 1, account) ==
            if parsed.Some? && parsed.value.0 == account && value > 0
            then Add(LiveVolume(stats, n, account), parsed.value.1, value)
            else LiveVolume(stats, n, account)
  {
  }

  lemma TallySkips(byAccount: map<Id, Volume>, stats: seq<Stat>, n: nat)
    requires n < |stats| && Tallies(byAccount, stats, n)
    requires ParseStat(stats[n].name).None? || stats[n].value <= 0
    ensures Tallies(byAccount, stats, n + 1)
  {
    forall a { LiveNext(stats, n, a); }
  }

  lemma TallyAdds(byAccount: map<Id, Volume>, stats: seq<Stat>, n: nat, account: Id, dir: Direction)
    requires n < |stats| && Tallies(byAccount, stats, n)
    requires ParseStat(stats[n].name) == Some((account, dir)) && stats[n].value > 0
    ensures Tallies(byAccount[account := Add(Lookup(byAccount, account), dir, stats[n].value)], stats, n + 1)
  {
    var v := Lookup(byAccount, account);
    var m := byAccount[account := Add(v, dir, stats[n].value)];
    assert v == LiveVolume(stats, n, account) && v.NonNegative();
    forall a ensures Lookup(m, a) == LiveVolume(stats, n + 1, a) {
      LiveNext(stats, n, a);
      assert Lookup(byAccount, a) == LiveVolume(stats, n, a);
    }
  }

  lemma TallyIsNamed(byAccount: map<Id, Volume>, stats: seq<Stat>, a: Id)
    requires Tallies(byAccount, stats, |stats|)
    ensures a in byAccount <==> PlainId(a) && BytesFor(stats, a, Uplink) + BytesFor(stats, a, Downlink) > 0
    ensures a in byAccount ==> byAccount[a] == Volume(BytesFor(stats, a, Uplink), BytesFor(stats, a, Downlink))
  {
    LiveIsNamed(stats, |stats|, a, Uplink);
    LiveIsNamed(stats, |stats|, a, Downlink);
    assert Lookup(byAccount, a) == LiveVolume(stats, |stats|, a);
  }

  // The fold of QueryTraffic over the response, into a map ...
  method Accumulate(stats: seq<Stat>) returns (byAccount: map<Id, Volume>)
    ensures Tallies(byAccount, stats, |stats|)
    ensures forall a :: a in byAccount <==> PlainId(a) && BytesFor(stats, a, Uplink) + BytesFor(stats, a, Downlink) > 0
    ensures forall a :: a in byAccount ==> byAccount[a] == Volume(BytesFor(stats, a, Uplink), BytesFor(stats, a, Downlink))
  {
    byAccount := map[];
    for i := 0 to |stats|
      invariant Tallies(byAccount, stats, i)
    {
      var parsed := ParseStat(stats[i].name);
      if parsed.None? || stats[i].value <= 0 {
        TallySkips(byAccount, stats, i);
        continue;
      }
      var (account, direction) := parsed.value;
      TallyAdds(byAccount, stats, i, account, direction);
      byAccount := byAccount[account := Add(Lookup(byAccount, account), direction, stats[i].value)];
    }
    forall a { TallyIsNamed(byAccount, stats, a); }
  }

  // ... and on into a list, in whatever order the map yields its keys.
  method Fold(stats: seq<Stat>) returns (deltas: seq<Delta>)
    ensures IsDeltas(stats, deltas)
  {
    var byAccount := Accumulate(stats);
    deltas := [];
    var rest := byAccount.Keys;
    while rest != {}
      invariant rest <= byAccount.Keys
      invariant forall a :: a in byAccount ==> a in rest || Delta(a, byAccount[a]) in deltas
      invariant forall d :: d in deltas ==> d.account in byAccount && d.account !in rest && d.volume == byAccount[d.account]
      invariant forall i, j :: 0 <= i < j < |deltas| ==> deltas[i].account != deltas[j].account
      decreases rest
    {
      var account :| account in rest;
      rest := rest - {account};
      deltas := deltas + [Delta(account, byAccount[account])];
    }
    forall d | d in deltas ensures d.volume == LiveVolume(stats, |stats|, d.account) && !d.volume.IsZero() {
      assert Lookup(byAccount, d.account) == d.volume;
    }
    forall a | !LiveVolume(stats, |stats|, a).IsZero() ensures exists d :: d in deltas && d.account == a {
      assert !Lookup(byAccount, a).IsZero();
      assert Delta(a, byAccount[a]) in deltas;
    }
  }

  function DeltaSumUpTo(deltas: seq<Delta>, n: nat, account: Id, dir: Direction): int
    requires n <= |deltas|
  {
    if n == 0 then 0
    else
      DeltaSumUpTo(deltas, n - 1, account, dir) +
      (if deltas[n - 1].account == account then deltas[n - 1].volume.In(dir) else 0)
  }

  function DeltaSum(deltas: seq<Delta>, account: Id, dir: Direction): int {
    DeltaSumUpTo(deltas, |deltas|, account, dir)
  }

  lemma {:induction false} DeltaSumAbsent(deltas: seq<Delta>, n: nat, account: Id, dir: Direction)
    requires n <= |deltas| && forall i :: 0 <= i < n ==> deltas[i].account != account
    ensures DeltaSumUpTo(deltas, n, account, dir) == 0
  {
    if n > 0 {
      DeltaSumAbsent(deltas, n - 1, account, dir);
    }
  }

  lemma {:induction false} DeltaSumOnce(deltas: seq<Delta>, n: nat, k: nat, dir: Direction)
    requires k < n <= |deltas|
    requires forall i, j :: 0 <= i < j < n ==> deltas[i].account != deltas[j].account
    ensures DeltaSumUpTo(deltas, n, deltas[k].account, dir) == deltas[k].volume.In(dir)
  {
    if k == n - 1 {
      DeltaSumAbsent(deltas, n - 1, deltas[k].account, dir);
    } else {
      DeltaSumOnce(deltas, n - 1, k, dir);
    }
  }

  /** The deltas carry exactly what the counters held, account by account. */
  lemma DeltasCarryEverything(stats: seq<Stat>, deltas: seq<Delta>, account: Id, dir: Direction)
    requires IsDeltas(stats, deltas)
    ensures DeltaSum(deltas, account, dir) == Live(stats, account, dir)
  {
    if k :| 0 <= k < |deltas| && deltas[k].account == account {
      DeltaSumOnce(deltas, |deltas|, k, dir);
      assert deltas[k] in deltas;
    } else {
      DeltaSumAbsent(deltas, |deltas|, account, dir);
      assert LiveVolume(stats, |stats|, account).IsZero();
    }
  }

  // ---- The runtime side of a query ----

  function Selected(): Stat -> bool { (s: Stat) => Contains(s.name, QUERY_PATTERN) }

  function SelectUpTo(stats: seq<Stat>, n: nat, selected: Stat -> bool): seq<Stat>
    requires n <= |stats|
  {
    if n == 0 then []
    else SelectUpTo(stats, n - 1, selected) + (if selected(stats[n - 1]) then [stats[n - 1]] else [])
  }

  function ZeroUpTo(stats: seq<Stat>, n: nat, selected: Stat -> bool): seq<Stat>
    requires n <= |stats|
  {
    if n == 0 then []
    else
      ZeroUpTo(stats, n - 1, selected) +
      [if selected(stats[n - 1]) then stats[n - 1].(value := 0) else stats[n - 1]]
  }

  // The counters a query with the pattern returns ...
  function Queried(stats: seq<Stat>): seq<Stat> { SelectUpTo(stats, |stats|, Selected()) }

  // ... and the counters it leaves when it also resets them.
  function Reset(stats: seq<Stat>): seq<Stat> { ZeroUpTo(stats, |stats|, Selected()) }

  lemma {:induction false} SelectPrefix(a: seq<Stat>, b: seq<Stat>, n: nat, selected: Stat -> bool)
    requires n <= |a|
    ensures SelectUpTo(a + b, n, selected) == SelectUpTo(a, n, selected)
  {
    if n > 0 {
      SelectPrefix(a, b, n - 1, selected);
    }
  }

  lemma SelectLast(init: seq<Stat>, last: Stat, selected: Stat -> bool)
    ensures SelectUpTo(init + [last], |init| + 1, selected) ==
            SelectUpTo(init, |init|, selected) + (if selected(last) then [last] else [])
  {
    SelectPrefix(init, [last], |init|, selected);
  }

  lemma {:induction false} SelectDeletes(stats: seq<Stat>, selected: Stat -> bool, goes: Stat -> bool)
    requires forall s :: goes(s) <==> !selected(s)
    ensures Deleted(stats, SelectUpTo(stats, |stats|, selected), goes)
    decreases |stats|
  {
    if stats == [] {
      assert HowMany(stats, goes) == 0;
    } else {
      var init, last := stats[..|stats| - 1], stats[|stats| - 1];
      assert stats == init + [last];
      SelectDeletes(init, selected, goes);
      SelectLast(init, last, selected);
      HowManyMore(init, last, goes);
    }
  }

  lemma {:induction false} ZeroAt(stats: seq<Stat>, n: nat, selected: Stat -> bool)
    requires n <= |stats|
    ensures |ZeroUpTo(stats, n, selected)| == n
    ensures forall i :: 0 <= i < n ==> ZeroUpTo(stats, n, selected)[i] == if selected(stats[i]) then stats[i].(value := 0) else stats[i]
  {
    if n > 0 {
      ZeroAt(stats, n - 1, selected);
    }
  }

  /** A query returns the counters whose names contain the pattern, and no other; a reset sets
      just these to zero. */
  lemma QueriedExactly(stats: seq<Stat>)
    ensures Deleted(stats, Queried(stats), (s: Stat) => !Contains(s.name, "user>>>pcp-"))
    ensures |Reset(stats)| == |stats|
    ensures forall i :: 0 <= i < |stats| ==> Reset(stats)[i].name == stats[i].name
    ensures forall i :: 0 <= i < |stats| ==>
      Reset(stats)[i].value == if Contains(stats[i].name, "user>>>pcp-") then 0 else stats[i].value
  {
    SelectDeletes(stats, Selected(), (s: Stat) => !Contains(s.name, "user>>>pcp-"));
    ZeroAt(stats, |stats|, Selected());
  }

  lemma {:induction false} SumStatsPrefix(a: seq<Stat>, b: seq<Stat>, n: nat, f: Stat -> nat)
    requires n <= |a|
    ensures SumStats(a + b, n, f) == SumStats(a, n, f)
  {
    if n > 0 {
      SumStatsPrefix(a, b, n - 1, f);
    }
  }

  lemma SumStatsLast(init: seq<Stat>, last: Stat, f: Stat -> nat)
    ensures SumStats(init + [last], |init| + 1, f) == SumStats(init, |init|, f) + f(last)
  {
    SumStatsPrefix(init, [last], |init|, f);
  }

  lemma {:induction false} QueryTakesUpTo(stats: seq<Stat>, n: nat, f: Stat -> nat, selected: Stat -> bool)
    requires n <= |stats|
    requires forall s: Stat :: f(s.(value := 0)) == 0 && (!selected(s) ==> f(s) == 0)
    ensures var taken := SelectUpTo(stats, n, selected);
            SumStats(taken, |taken|, f) == SumStats(stats, n, f)
    ensures var left := ZeroUpTo(stats, n, selected);
            SumStats(left, |left|, f) == 0
  {
    if n > 0 {
      QueryTakesUpTo(stats, n - 1, f, selected);
      var taken, left, s := SelectUpTo(stats, n - 1, selected), ZeroUpTo(stats, n - 1, selected), stats[n - 1];
      SumStatsLast(left, if selected(s) then s.(value := 0) else s, f);
      if selected(s) {
        SumStatsLast(taken, s, f);
      } else {
        assert SelectUpTo(stats, n, selected) == taken;
      }
    }
  }

  lemma UnselectedShare(s: Stat, account: Id, dir: Direction)
    ensures !Selected()(s) ==> Share(s, account, dir) == 0
  {
    if ParseStat(s.name).Some? {
      ManagedStatsAreQueried(s.name);
    }
  }

  /** A resetting query takes everything that any account has: all of it is in the response
      and none of it stays in the counters. */
  lemma QueryTakesEverything(stats: seq<Stat>, account: Id, dir: Direction)
    ensures Live(Queried(stats), account, dir) == Live(stats, account, dir)
    ensures Live(Reset(stats), account, dir) == 0
  {
    forall s { UnselectedShare(s, account, dir); }
    QueryTakesUpTo(stats, |stats|, ShareOf(account, dir), Selected());
  }
}
