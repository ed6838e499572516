/** internal/store/runtime_sync.go and internal/store/store.go against internal/runtimesync/sync.go:
    what reconciliation asks of its targets, and what the stored accounts give it. */
module RuntimeStored {
  import opened Ordering
  import opened Reconcile
  import opened Results
  import opened RuntimeNode
  import opened RuntimeSync
  import opened RuntimeTargets
  import opened RuntimeUsers
  import Runs
  import S = Subscription
  import opened Text
  import XrayStats

  // Primary keys are distinct and come without white space; text columns hold no NUL.
  predicate StoredAt(accounts: seq<S.Account>, i: nat)
    requires i < |accounts|
  {
    var a := accounts[i];
    && a.id != "" && Trimmed(a.id) && NulFree(a.id) && NulFree(a.uuid) && NulFree(a.flow)
    && forall j :: 0 <= j < |accounts| && j != i ==> accounts[j].id != a.id
  }

  predicate StoredAccounts(accounts: seq<S.Account>) { forall i :: 0 <= i < |accounts| ==> StoredAt(accounts, i) }

  // ---- One account ----

  lemma TrimmedPart(s: string)
    requires NulFree(s)
    ensures NulFree(TrimSpace(s)) && TrimSpace(TrimSpace(s)) == TrimSpace(s)
  {
    TrimLeftShape(s);
    TrimRightShape(TrimLeft(s));
    TrimmedIsFixed(s);
    TrimmedIsFixed(TrimSpace(s));
  }

  // What one target looks like: a managed e-mail, nothing to trim, and no NUL.
  predicate TargetLike(u: User) {
    IsManaged(u.email) && NormalizeUser(u) == u && NulFree(u.email) && NulFree(u.uuid) && NulFree(u.flow)
  }

  lemma EmailIsNulFree(id: string)
    requires NulFree(id)
    ensures NulFree(XrayStats.RuntimeEmail(id))
  {
  }

  lemma UserIsTargetLike(accounts: seq<S.Account>, i: nat)
    requires i < |accounts| && StoredAt(accounts, i)
    ensures TargetLike(UserOf(accounts[i])) && UserOf(accounts[i]).email == XrayStats.RuntimeEmail(accounts[i].id)
  {
    var a := accounts[i];
    TrimmedIsFixed(a.id);
    XrayStats.EmailRoundTrip(a.id, XrayStats.RuntimeEmail(a.id));
    ManagedIsTrimmed(XrayStats.RuntimeEmail(a.id));
    EmailIsNulFree(a.id);
    TrimmedPart(a.uuid);
    TrimmedPart(a.flow);
  }

  lemma EmailsDistinct(accounts: seq<S.Account>)
    requires StoredAccounts(accounts)
    ensures forall i, j :: 0 <= i < j < |accounts| ==> UserOf(accounts[i]).email != UserOf(accounts[j]).email
  {
    forall i, j | 0 <= i < j < |accounts| ensures UserOf(accounts[i]).email != UserOf(accounts[j]).email {
      assert StoredAt(accounts, i) && StoredAt(accounts, j);
      UserIsTargetLike(accounts, i);
      UserIsTargetLike(accounts, j);
      EmailsDiffer(accounts[i].id, accounts[j].id);
    }
  }

  // ---- All targets ----

  lemma {:induction false} PickedDistinct(accounts: seq<S.Account>, n: nat, picks: S.Account -> bool, user: S.Account -> User)
    requires n <= |accounts|
    requires forall i, j :: 0 <= i < j < |accounts| ==> user(accounts[i]).email != user(accounts[j]).email
    ensures AllDistinct(PickUpTo(accounts, n, picks, user))
  {
    if n > 0 {
      PickedDistinct(accounts, n - 1, picks, user);
      PickedFrom(accounts, n - 1, picks, user);
      var before := PickUpTo(accounts, n - 1, picks, user);
      forall k | 0 <= k < |before| ensures before[k].email != user(accounts[n - 1]).email {
        assert before[k] in before;
      }
    }
  }

  lemma TargetsAreTargetLike(customers: map<S.Id, S.Customer>, accounts: seq<S.Account>, nodeId: S.Id, now: S.Time)
    requires StoredAccounts(accounts)
    ensures var targets := Targets(customers, accounts, nodeId, now);
            AllDistinct(targets) && forall u :: u in targets ==> TargetLike(u)
  {
    var picks := (a: S.Account) => IsTarget(customers, a, nodeId, now);
    EmailsDistinct(accounts);
    PickedDistinct(accounts, |accounts|, picks, UserOf);
    PickedFrom(accounts, |accounts|, picks, UserOf);
    forall i | 0 <= i < |accounts| ensures TargetLike(UserOf(accounts[i])) {
      assert StoredAt(accounts, i);
      UserIsTargetLike(accounts, i);
    }
  }

  lemma TargetLikeUsers(targets: seq<User>)
    requires AllDistinct(targets) && forall u :: u in targets ==> TargetLike(u)
    ensures AllTargets(ByEmail(targets)) && Hashable(targets) && Unfolds(targets, ByEmail(targets))
  {
    var ns := Normalized(targets);
    forall i | 0 <= i < |targets| ensures ns[i] == targets[i] && TargetLike(ns[i]) { assert targets[i] in targets; }
    TargetsAreTargets(targets);
    IndexHoldsEach(ns, |ns|);
    forall e | e in ByEmail(targets)
      ensures User(e, ByEmail(targets)[e].uuid, ByEmail(targets)[e].flow) in targets
    {
      IndexOrigin(ns, |ns|, e);
      var i :| 0 <= i < |ns| && ns[i].email == e && ByEmail(targets)[e] == Identity(ns[i].uuid, ns[i].flow);
      assert targets[i] in targets;
    }
    forall u | u in targets ensures Describes(u, ByEmail(targets)) {
      var i :| 0 <= i < |targets| && targets[i] == u;
      ManagedIsTrimmed(ns[i].email);
    }
  }

  /** The target query gives reconciliation what it asks for: e-mails that name accounts, one
      user for each, and fields free of NUL. */
  lemma TargetsQualify(customers: map<S.Id, S.Customer>, accounts: seq<S.Account>, nodeId: S.Id, now: S.Time)
    requires StoredAccounts(accounts)
    ensures var targets := Targets(customers, accounts, nodeId, now);
            AllTargets(ByEmail(targets)) && Hashable(targets) && Unfolds(targets, ByEmail(targets))
  {
    TargetsAreTargetLike(customers, accounts, nodeId, now);
    TargetLikeUsers(Targets(customers, accounts, nodeId, now));
  }

  // ---- Accounts without a UUID ----

  predicate BlankUUID(account: S.Account) { TrimSpace(account.uuid) == "" }

  // The UUID that CreateProxyAccount stores for a POSTed one; `generated` is a random id.
  function UUIDToStore(posted: string, generated: string): string { if posted == "" then generated else posted }

  // So what a POST has to hold for the stored UUID to be blank: white space, and some of it.
  lemma StoredBlankExactly(posted: string, generated: string)
    requires TrimSpace(generated) != ""
    ensures TrimSpace(UUIDToStore(posted, generated)) == "" <==> posted != "" && TrimSpace(posted) == ""
  {
  }

  /** Every target has a UUID if and only if no account with a blank one is a target. */
  lemma TargetsHaveUUIDs(customers: map<S.Id, S.Customer>, accounts: seq<S.Account>, nodeId: S.Id, now: S.Time)
    requires StoredAccounts(accounts)
    ensures AllHaveUUIDs(ByEmail(Targets(customers, accounts, nodeId, now))) <==>
            forall i :: 0 <= i < |accounts| && IsTarget(customers, accounts[i], nodeId, now) ==> !BlankUUID(accounts[i])
  {
    var targets, picks := Targets(customers, accounts, nodeId, now), (a: S.Account) => IsTarget(customers, a, nodeId, now);
    TargetsAreTargetLike(customers, accounts, nodeId, now);
    TargetLikeUsers(targets);
    PickedFrom(accounts, |accounts|, picks, UserOf);
    forall i | 0 <= i < |accounts| && picks(accounts[i])
      ensures UserOf(accounts[i]).email in ByEmail(targets) &&
              ByEmail(targets)[UserOf(accounts[i]).email].uuid == TrimSpace(accounts[i].uuid)
    {
      assert Describes(UserOf(accounts[i]), ByEmail(targets));
    }
    forall e | e in ByEmail(targets)
      ensures e != "" && exists i :: 0 <= i < |accounts| && picks(accounts[i]) &&
                                     ByEmail(targets)[e].uuid == TrimSpace(accounts[i].uuid)
    {
      var u := User(e, ByEmail(targets)[e].uuid, ByEmail(targets)[e].flow);
      assert u in targets && TargetLike(u);
      ManagedIsTrimmed(e);
    }
  }

  lemma OnlyTarget(customers: map<S.Id, S.Customer>, account: S.Account, nodeId: S.Id, now: S.Time)
    requires StoredAccounts([account]) && IsTarget(customers, account, nodeId, now)
    ensures ByEmail(Targets(customers, [account], nodeId, now)) ==
            map[UserOf(account).email := Identity(UserOf(account).uuid, UserOf(account).flow)]
  {
    var picks, targets := (a: S.Account) => IsTarget(customers, a, nodeId, now), Targets(customers, [account], nodeId, now);
    assert [account][0] == account && StoredAt([account], 0);
    UserIsTargetLike([account], 0);
    ManagedIsTrimmed(UserOf(account).email);
    assert PickUpTo([account], 0, picks, UserOf) == [];
    assert targets == [UserOf(account)];
    var ns := Normalized(targets);
    assert ns == [UserOf(account)] && IndexUpTo(ns, 0) == map[];
  }

  /** The failing case from its beginning: an account stored with a blank UUID is a target of a
      node that has no managed user, every pass that reaches the hashes reports no change, and
      no run of passes ever adds the user. */
  lemma BlankUUIDIsNeverAdded(customers: map<S.Id, S.Customer>, account: S.Account, nodeId: S.Id, now: S.Time, users: Users,
                              passes: seq<Pass>, plan: Plan)
    requires StoredAccounts([account]) && IsTarget(customers, account, nodeId, now) && BlankUUID(account)
    requires Managed(users) == map[] && plan.targets.None? && plan.listing.None?
    requires forall p :: p in passes ==> p.target == ByEmail(Targets(customers, [account], nodeId, now))
    ensures var target := ByEmail(Targets(customers, [account], nodeId, now));
            && UserOf(account).email in target
            && Sync(users, target, HashesEqual(target, users), plan) == PassEnd(users, 0, 0, 0, true, None)
            && Runs.After(PassStep(), users, passes) == users && !Agree(Same, target, Managed(users))
  {
    var target := ByEmail(Targets(customers, [account], nodeId, now));
    OnlyTarget(customers, account, nodeId, now);
    assert Visible(target) == map[] && Visible(Managed(users)) == map[];
    assert UserOf(account).email in Hidden(target) && UserOf(account).email !in Hidden(Managed(users));
    HiddenDifferenceStays(users, target, passes);
    EqualEndsUnchanged(users, target, plan);
  }
}
