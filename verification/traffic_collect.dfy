/** internal/trafficsync/sync.go: one collection, from the runtime's counters to the table. */
module TrafficCollect {
  import opened Results
  import opened TrafficTables
  import opened TrafficStore
  import opened TrafficLedger
  import opened XrayStats

  // A query that fails may have reset the counters before its reply was lost.
  datatype Outcome = Unreached | ReplyLost | Replied

  class Runtime {
    var stats: seq<Stat>

    constructor (stats: seq<Stat>)
      ensures this.stats == stats
    {
      this.stats := stats;
    }

    method QueryTraffic(reset: bool, outcome: Outcome) returns (r: Result<seq<Delta>>)
      modifies this`stats
      ensures r.Ok? <==> outcome.Replied?
      ensures r.Ok? ==> IsDeltas(Queried(old(stats)), r.value)
      ensures stats == if reset && !outcome.Unreached? then Reset(old(stats)) else old(stats)
    {
      if outcome.Unreached? {
        return Err(Failed);
      }
      var response := Queried(stats);
      if reset {
        stats := Reset(stats);
      }
      if outcome.ReplyLost? {
        return Err(Failed);
      }
      var deltas := Fold(response);
      r := Ok(deltas);
    }
  }

  datatype NodeResult = NodeResult(userCount: nat, upload: int, download: int, rowsInserted: nat)

  // ---- The bytes a result reports ----

  function VolumeUpTo(deltas: seq<Delta>, n: nat, dir: Direction): int
    requires n <= |deltas|
  {
    if n == 0 then 0 else VolumeUpTo(deltas, n - 1, dir) + deltas[n - 1].volume.In(dir)
  }

  // What a counter holds for whichever account it names.
  function Managed(dir: Direction): Stat -> nat {
    (s: Stat) =>
      if ParseStat(s.name).Some? && ParseStat(s.name).value.1 == dir && s.value > 0 then s.value else 0
  }

  function ManagedTotal(stats: seq<Stat>, dir: Direction): nat { SumStats(stats, |stats|, Managed(dir)) }

  // `name` is what the bytes of some account in one direction are counted under.
  ghost predicate Counts(name: string, dir: Direction) { exists a :: PlainId(a) && name == CounterName(a, dir) }

  // The positive values of all such counters.
  ghost function NamedBytes(dir: Direction): Stat -> nat {
    (s: Stat) => if Counts(s.name, dir) && s.value > 0 then s.value else 0
  }

  ghost function AllBytes(stats: seq<Stat>, dir: Direction): nat { SumStats(stats, |stats|, NamedBytes(dir)) }

  lemma CountsExactly(name: string, dir: Direction)
    ensures Counts(name, dir) <==> ParseStat(name).Some? && ParseStat(name).value.1 == dir
  {
    if ParseStat(name).Some? {
      AttributedExactly(name, ParseStat(name).value.0, ParseStat(name).value.1);
    }
    if Counts(name, dir) {
      var a :| PlainId(a) && name == CounterName(a, dir);
      AttributedExactly(name, a, dir);
    }
  }

  lemma OneIsNamed(s: Stat, dir: Direction)
    ensures Managed(dir)(s) == NamedBytes(dir)(s)
  {
    CountsExactly(s.name, dir);
  }

  lemma ManagedIsNamed(stats: seq<Stat>, dir: Direction)
    ensures ManagedTotal(stats, dir) == AllBytes(stats, dir)
  {
    forall s { OneIsNamed(s, dir); }
    SumStatsAgree(stats, |stats|, Managed(dir), NamedBytes(dir));
  }

  function Of(share: (Id, Stat) -> nat, account: Id): Stat -> nat { (s: Stat) => share(account, s) }

  function SharesOf(deltas: seq<Delta>, k: nat, s: Stat, share: (Id, Stat) -> nat): int
    requires k <= |deltas|
  {
    if k == 0 then 0 else SharesOf(deltas, k - 1, s, share) + share(deltas[k - 1].account, s)
  }

  function LivesOf(deltas: seq<Delta>, k: nat, stats: seq<Stat>, n: nat, share: (Id, Stat) -> nat): int
    requires k <= |deltas| && n <= |stats|
  {
    if k == 0 then 0
    else LivesOf(deltas, k - 1, stats, n, share) + SumStats(stats, n, Of(share, deltas[k - 1].account))
  }

  predicate Distinct(deltas: seq<Delta>) {
    forall i, j :: 0 <= i < j < |deltas| ==> deltas[i].account != deltas[j].account
  }

  // Every counter belongs to one account, and that account is among the deltas.
  ghost predicate Attributed(deltas: seq<Delta>, s: Stat, share: (Id, Stat) -> nat, whole: nat) {
    && (forall a, b :: share(a, s) != 0 && share(b, s) != 0 ==> a == b)
    && (forall a :: share(a, s) != 0 ==> share(a, s) == whole)
    && (whole != 0 ==> exists k :: 0 <= k < |deltas| && share(deltas[k].account, s) != 0)
  }

  lemma {:induction false} NoShare(deltas: seq<Delta>, k: nat, s: Stat, share: (Id, Stat) -> nat)
    requires k <= |deltas|
    requires forall i :: 0 <= i < k ==> share(deltas[i].account, s) == 0
    ensures SharesOf(deltas, k, s, share) == 0
  {
    if k > 0 {
      NoShare(deltas, k - 1, s, share);
    }
  }

  lemma {:induction false} OneShare(deltas: seq<Delta>, k: nat, j: nat, s: Stat, share: (Id, Stat) -> nat)
    requires j < k <= |deltas|
    requires forall i :: 0 <= i < k && i != j ==> share(deltas[i].account, s) == 0
    ensures SharesOf(deltas, k, s, share) == share(deltas[j].account, s)
  {
    if j == k - 1 {
      NoShare(deltas, k - 1, s, share);
    } else {
      OneShare(deltas, k - 1, j, s, share);
    }
  }

  lemma SharesAddUp(deltas: seq<Delta>, s: Stat, share: (Id, Stat) -> nat, whole: nat)
    requires Distinct(deltas) && Attributed(deltas, s, share, whole)
    ensures SharesOf(deltas, |deltas|, s, share) == whole
  {
    if j :| 0 <= j < |deltas| && share(deltas[j].account, s) != 0 {
      OneShare(deltas, |deltas|, j, s, share);
    } else {
      NoShare(deltas, |deltas|, s, share);
    }
  }

  lemma {:induction false} LivesNext(deltas: seq<Delta>, k: nat, stats: seq<Stat>, n: nat, share: (Id, Stat) -> nat)
    requires k <= |deltas| && 0 < n <= |stats|
    ensures LivesOf(deltas, k, stats, n, share) ==
            LivesOf(deltas, k, stats, n - 1, share) + SharesOf(deltas, k, stats[n - 1], share)
  {
    if k > 0 {
      LivesNext(deltas, k - 1, stats, n, share);
    }
  }

  lemma {:induction false} LivesNone(deltas: seq<Delta>, k: nat, stats: seq<Stat>, share: (Id, Stat) -> nat)
    requires k <= |deltas|
    ensures LivesOf(deltas, k, stats, 0, share) == 0
  {
    if k > 0 {
      LivesNone(deltas, k - 1, stats, share);
    }
  }

  // Summing per account and summing per counter come to the same.
  lemma {:induction false} LivesAddUp(deltas: seq<Delta>, stats: seq<Stat>, n: nat, share: (Id, Stat) -> nat,
                                      whole: Stat -> nat)
    requires n <= |stats| && Distinct(deltas)
    requires forall i :: 0 <= i < n ==> Attributed(deltas, stats[i], share, whole(stats[i]))
    ensures LivesOf(deltas, |deltas|, stats, n, share) == SumStats(stats, n, whole)
  {
    if n == 0 {
      LivesNone(deltas, |deltas|, stats, share);
    } else {
      LivesAddUp(deltas, stats, n - 1, share, whole);
      LivesNext(deltas, |deltas|, stats, n, share);
      SharesAddUp(deltas, stats[n - 1], share, whole(stats[n - 1]));
    }
  }

  function ShareIn(dir: Direction): (Id, Stat) -> nat { (a: Id, s: Stat) => Share(s, a, dir) }

  lemma {:induction false} SumStatsAgree(stats: seq<Stat>, n: nat, f: Stat -> nat, g: Stat -> nat)
    requires n <= |stats| && forall s: Stat :: f(s) == g(s)
    ensures SumStats(stats, n, f) == SumStats(stats, n, g)
  {
    if n > 0 {
      SumStatsAgree(stats, n - 1, f, g);
    }
  }

  lemma LiveIsSum(stats: seq<Stat>, account: Id, dir: Direction)
    ensures SumStats(stats, |stats|, Of(ShareIn(dir), account)) == LiveVolume(stats, |stats|, account).In(dir)
  {
    SumStatsAgree(stats, |stats|, Of(ShareIn(dir), account), ShareOf(account, dir));
  }

  lemma {:induction false} VolumesAreLives(deltas: seq<Delta>, k: nat, stats: seq<Stat>, dir: Direction)
    requires k <= |deltas| && forall d :: d in deltas ==> d.volume == LiveVolume(stats, |stats|, d.account)
    ensures VolumeUpTo(deltas, k, dir) == LivesOf(deltas, k, stats, |stats|, ShareIn(dir))
  {
    if k > 0 {
      VolumesAreLives(deltas, k - 1, stats, dir);
      assert deltas[k - 1] in deltas;
      LiveIsSum(stats, deltas[k - 1].account, dir);
    }
  }

  lemma {:induction false} ShareWithin(stats: seq<Stat>, n: nat, i: nat, f: Stat -> nat)
    requires i < n <= |stats|
    ensures f(stats[i]) <= SumStats(stats, n, f)
  {
    if i < n - 1 {
      ShareWithin(stats, n - 1, i, f);
    }
  }

  lemma ManagedIsSelected(s: Stat, dir: Direction)
    ensures !Selected()(s) ==> Managed(dir)(s) == 0
  {
    if ParseStat(s.name).Some? {
      ManagedStatsAreQueried(s.name);
    }
  }

  lemma QueriedManaged(stats: seq<Stat>, dir: Direction)
    ensures SumStats(Queried(stats), |Queried(stats)|, Managed(dir)) == SumStats(stats, |stats|, Managed(dir))
  {
    forall s { ManagedIsSelected(s, dir); }
    QueryTakesUpTo(stats, |stats|, Managed(dir), Selected());
  }

  lemma StatIsAttributed(stats: seq<Stat>, deltas: seq<Delta>, i: nat, dir: Direction)
    requires IsDeltas(stats, deltas) && i < |stats|
    ensures Attributed(deltas, stats[i], ShareIn(dir), Managed(dir)(stats[i]))
  {
    if Managed(dir)(stats[i]) != 0 {
      var a := ParseStat(stats[i].name).value.0;
      ShareWithin(stats, |stats|, i, Of(ShareIn(dir), a));
      LiveIsSum(stats, a, dir);
      assert !LiveVolume(stats, |stats|, a).IsZero();
      var d :| d in deltas && d.account == a;
      var k :| 0 <= k < |deltas| && deltas[k] == d;
      assert ShareIn(dir)(deltas[k].account, stats[i]) != 0;
    }
  }

  /** The deltas of a query add up to what all the managed counters held. */
  lemma DeltasAddUp(stats: seq<Stat>, deltas: seq<Delta>, dir: Direction)
    requires IsDeltas(Queried(stats), deltas)
    ensures VolumeUpTo(deltas, |deltas|, dir) == ManagedTotal(stats, dir) == AllBytes(stats, dir)
  {
    ManagedIsNamed(stats, dir);
    var response := Queried(stats);
    forall i | 0 <= i < |response| ensures Attributed(deltas, response[i], ShareIn(dir), Managed(dir)(response[i])) {
      StatIsAttributed(response, deltas, i, dir);
    }
    LivesAddUp(deltas, response, |response|, ShareIn(dir), Managed(dir));
    VolumesAreLives(deltas, |deltas|, response, dir);
    QueriedManaged(stats, dir);
  }

  // What a collection puts into the table for one account: all that the counters with its name
  // hold, if it is bound to the node.
  function Collected(stats: seq<Stat>, bindings: set<(Id, Id)>, node: Id, account: Id, dir: Direction): nat {
    if node != "" && PlainId(account) && (account, node) in bindings then BytesFor(stats, account, dir) else 0
  }

  lemma BatchCollects(stats: seq<Stat>, deltas: seq<Delta>, bindings: set<(Id, Id)>, node: Id, at: Time, account: Id,
                      dir: Direction)
    requires IsDeltas(Queried(stats), deltas) && node != ""
    ensures SumRows(Batch(bindings, node, deltas, at), OnRows(Pair(account, node)), dir) ==
            Collected(stats, bindings, node, account, dir)
  {
    BatchSum(bindings, node, deltas, |deltas|, at, account, node, dir);
    DeltasCarryEverything(Queried(stats), deltas, account, dir);
    QueryTakesEverything(stats, account, dir);
    LiveIsNamed(stats, |stats|, account, dir);
  }

  // What the table gains in a successful collection, account by account.
  ghost predicate Gains(before: seq<Row>, after: seq<Row>, stats: seq<Stat>, bindings: set<(Id, Id)>, node: Id) {
    forall account, dir ::
      SumRows(after, OnRows(Pair(account, node)), dir) ==
      SumRows(before, OnRows(Pair(account, node)), dir) + Collected(stats, bindings, node, account, dir)
  }

  lemma BatchGains(before: seq<Row>, batch: seq<Row>, stats: seq<Stat>, deltas: seq<Delta>, bindings: set<(Id, Id)>,
                   node: Id, at: Time)
    requires IsDeltas(Queried(stats), deltas)
    requires batch == if node == "" then [] else Batch(bindings, node, deltas, at)
    ensures Gains(before, before + batch, stats, bindings, node)
  {
    forall account, dir
      ensures SumRows(before + batch, OnRows(Pair(account, node)), dir) ==
              SumRows(before, OnRows(Pair(account, node)), dir) + Collected(stats, bindings, node, account, dir)
    {
      SumAppend(before, batch, OnRows(Pair(account, node)), dir);
      if node == "" {
        SumNothing(batch, OnRows(Pair(account, node)), dir);
      } else {
        BatchCollects(stats, deltas, bindings, node, at, account, dir);
      }
    }
  }

  // The accounts that the counters hold bytes for.
  ghost predicate HaveBytes(accounts: set<Id>, stats: seq<Stat>) {
    forall a :: a in accounts <==> PlainId(a) && BytesFor(stats, a, Uplink) + BytesFor(stats, a, Downlink) > 0
  }

  function AccountsOf(deltas: seq<Delta>, n: nat): set<Id>
    requires n <= |deltas|
  {
    set i | 0 <= i < n :: deltas[i].account
  }

  lemma {:induction false} AccountsCounted(deltas: seq<Delta>, n: nat)
    requires n <= |deltas| && Distinct(deltas)
    ensures |AccountsOf(deltas, n)| == n
  {
    if n > 0 {
      AccountsCounted(deltas, n - 1);
      assert AccountsOf(deltas, n) == AccountsOf(deltas, n - 1) + {deltas[n - 1].account};
    }
  }

  lemma DeltaOf(stats: seq<Stat>, deltas: seq<Delta>, a: Id)
    requires IsDeltas(Queried(stats), deltas)
    ensures (exists i :: 0 <= i < |deltas| && deltas[i].account == a) <==>
            PlainId(a) && BytesFor(stats, a, Uplink) + BytesFor(stats, a, Downlink) > 0
  {
    QueryTakesEverything(stats, a, Uplink);
    QueryTakesEverything(stats, a, Downlink);
    LiveIsNamed(stats, |stats|, a, Uplink);
    LiveIsNamed(stats, |stats|, a, Downlink);
    var v := LiveVolume(Queried(stats), |Queried(stats)|, a);
    if !v.IsZero() {
      var d :| d in deltas && d.account == a;
    }
    if i :| 0 <= i < |deltas| && deltas[i].account == a {
      assert deltas[i] in deltas;
    }
  }

  lemma DeltasPassChecks(stats: seq<Stat>, deltas: seq<Delta>, bindings: set<(Id, Id)>, node: Id, at: Time)
    requires IsDeltas(Queried(stats), deltas)
    ensures ChecksPass(Batch(bindings, node, deltas, at))
    ensures forall r :: r in Batch(bindings, node, deltas, at) ==> r.node == node && r.at == at
  {
    BatchRows(bindings, node, deltas, |deltas|, at);
    forall r | r in Batch(bindings, node, deltas, at) ensures r.volume.NonNegative() {
      var i :| 0 <= i < |deltas| && deltas[i] == Delta(r.account, r.volume);
      assert deltas[i] in deltas;
    }
  }

  /** There are as many deltas as accounts with bytes. */
  lemma DeltasAreAccounts(stats: seq<Stat>, deltas: seq<Delta>)
    requires IsDeltas(Queried(stats), deltas)
    ensures HaveBytes(AccountsOf(deltas, |deltas|), stats) && |AccountsOf(deltas, |deltas|)| == |deltas|
  {
    AccountsCounted(deltas, |deltas|);
    forall a ensures a in AccountsOf(deltas, |deltas|) <==>
                     PlainId(a) && BytesFor(stats, a, Uplink) + BytesFor(stats, a, Downlink) > 0
    {
      DeltaOf(stats, deltas, a);
    }
  }

  ghost predicate CountsUsers(n: nat, stats: seq<Stat>) { exists accounts :: HaveBytes(accounts, stats) && n == |accounts| }

  // The table with `n` more rows, of this node and this instant.
  ghost predicate Added(before: seq<Row>, after: seq<Row>, n: nat, node: Id, at: Time) {
    && |after| == |before| + n && after[..|before|] == before
    && forall i :: |before| <= i < |after| ==> after[i].node == node && after[i].at == at
  }

  lemma BatchAdded(before: seq<Row>, batch: seq<Row>, node: Id, at: Time)
    requires forall r :: r in batch ==> r.node == node && r.at == at
    ensures Added(before, before + batch, |batch|, node, at)
  {
    forall i | |before| <= i < |before + batch| ensures (before + batch)[i] in batch {
      assert (before + batch)[i] == batch[i - |before|];
    }
  }

  // The loop that adds up what the deltas hold.
  method Summed(ghost stats: seq<Stat>, deltas: seq<Delta>) returns (upload: int, download: int)
    requires IsDeltas(Queried(stats), deltas)
    ensures upload == AllBytes(stats, Uplink) && download == AllBytes(stats, Downlink)
  {
    upload, download := 0, 0;
    for i := 0 to |deltas|
      invariant upload == VolumeUpTo(deltas, i, Uplink) && download == VolumeUpTo(deltas, i, Downlink)
    {
      upload, download := upload + deltas[i].volume.up, download + deltas[i].volume.down;
    }
    DeltasAddUp(stats, deltas, Uplink);
    DeltasAddUp(stats, deltas, Downlink);
  }

  /** CollectNode.  `failed` is its error; the result is returned either way. */
  method CollectNode(runtime: Runtime, store: Store, reset: bool, node: Id, now: Time, outcome: Outcome,
                     lookupFails: bool, insertFails: bool)
    returns (result: NodeResult, failed: bool)
    requires store.Valid()
    modifies runtime`stats, store`detail
    ensures store.Valid()
    ensures !outcome.Replied? ==> failed && result == NodeResult(0, 0, 0, 0)
    ensures outcome.Replied? ==>
      && result.upload == AllBytes(old(runtime.stats), Uplink)
      && result.download == AllBytes(old(runtime.stats), Downlink)
      && CountsUsers(result.userCount, old(runtime.stats))
    ensures runtime.stats == if reset && !outcome.Unreached? then Reset(old(runtime.stats)) else old(runtime.stats)
    ensures failed ==> store.detail == old(store.detail) && result.rowsInserted == 0
    ensures failed ==> !outcome.Replied? || lookupFails || insertFails
    ensures !failed ==>
      && Added(old(store.detail), store.detail, result.rowsInserted, node, now)
      && Gains(old(store.detail), store.detail, old(runtime.stats), store.bindings, node)
  {
    result, failed := NodeResult(0, 0, 0, 0), true;
    ghost var stats, before := runtime.stats, store.detail;
    var deltas := runtime.QueryTraffic(reset, outcome);
    if deltas.Err? {
      return;
    }
    DeltasAreAccounts(stats, deltas.value);
    var upload, download := Summed(stats, deltas.value);
    result := NodeResult(|deltas.value|, upload, download, 0);
    DeltasPassChecks(stats, deltas.value, store.bindings, node, now);
    var rows := store.RecordTrafficUsageBatch(node, deltas.value, Some(now), now, lookupFails, insertFails);
    if rows.Err? {
      return;
    }
    result, failed := result.(rowsInserted := rows.value), false;
    ghost var batch := if node == "" then [] else Batch(store.bindings, node, deltas.value, now);
    BatchGains(before, batch, stats, deltas.value, store.bindings, node, now);
    BatchAdded(before, batch, node, now);
  }
}
