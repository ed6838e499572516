/** internal/runtimesync/sync.go: SyncNode as it runs, over a runtime and a store that it updates. */
module RuntimeNode {
  import opened Ordering
  import opened Reconcile
  import opened Results
  import opened RuntimeUsers
  import opened RuntimeSync
  import Runs
  import opened Text
  import XrayStats

  // What ListUsers may return: every user that has an e-mail, and perhaps users without one,
  // which the runtime's configuration file can declare.
  ghost predicate IsListing(listing: seq<User>, users: Users) {
    && (forall u :: u in listing && u.email != "" ==> u.email in users && users[u.email] == Identity(u.uuid, u.flow))
    && (forall e :: e in users && e != "" ==> User(e, users[e].uuid, users[e].flow) in listing)
  }

  class Runtime {
    var users: Users

    constructor (users: Users)
      ensures this.users == users
    {
      this.users := users;
    }

    method ListUsers(anonymous: seq<User>) returns (listing: seq<User>)
      requires forall u :: u in anonymous ==> u.email == ""
      ensures IsListing(listing, users)
    {
      listing := anonymous;
      var rest := users.Keys;
      while rest != {}
        invariant rest <= users.Keys
        invariant forall u :: u in listing && u.email != "" ==> u.email in users && users[u.email] == Identity(u.uuid, u.flow)
        invariant forall e :: e in users ==> e in rest || User(e, users[e].uuid, users[e].flow) in listing
        decreases rest
      {
        var e :| e in rest;
        listing := listing + [User(e, users[e].uuid, users[e].flow)];
        rest := rest - {e};
      }
    }

    method RemoveUser(email: string, call: Call) returns (error: Option<string>)
      modifies this
      ensures Reply(users, error) == RemoveCall(old(users), email, call)
    {
      if call.Fails? && !call.applied {
        return Some(call.message);
      }
      if email !in users {
        return Some(call.Refusal());
      }
      users := users - {email};
      error := if call.Done? then None else Some(call.message);
    }

    method AddUser(email: string, identity: Identity, call: Call) returns (error: Option<string>)
      modifies this
      ensures Reply(users, error) == AddCall(old(users), email, identity, call)
    {
      if call.Fails? && !call.applied {
        return Some(call.message);
      }
      if email in users {
        return Some(call.Refusal());
      }
      users := users[email := identity];
      error := if call.Done? then None else Some(call.message);
    }
  }

  // The row of proxy_nodes a pass reports to, and the rows its target query yields.
  class NodeStore {
    var targets: seq<User>
    var status: NodeStatus

    constructor (targets: seq<User>, status: NodeStatus)
      ensures this.targets == targets && this.status == status
    {
      this.targets, this.status := targets, status;
    }

    // `works` is false when the update fails or finds no row.
    method MarkProxyNodeRuntimeSync(syncedAt: Time, syncErr: string, works: bool) returns (failed: bool)
      modifies this`status
      ensures status == Marked(old(status), syncedAt, syncErr, works) && failed == !works
    {
      if works {
        var updates := status.(error := Truncate(syncErr));
        if TrimSpace(syncErr) == "" {
          updates := updates.(syncedAt := Some(syncedAt));
        }
        status := updates;
      }
      failed := !works;
    }
  }

  // ---- managedUsers and mapUsers ----

  function ManagedUpTo(users: seq<User>, n: nat): seq<User>
    requires n <= |users|
  {
    if n == 0 then []
    else ManagedUpTo(users, n - 1) + (if IsManaged(users[n - 1].email) then [NormalizeUser(users[n - 1])] else [])
  }

  method ManagedUsers(users: seq<User>) returns (result: seq<User>)
    ensures result == ManagedUpTo(users, |users|)
  {
    result := [];
    for i := 0 to |users|
      invariant result == ManagedUpTo(users, i)
    {
      if !IsManaged(users[i].email) {
        continue;
      }
      result := result + [NormalizeUser(users[i])];
    }
  }

  lemma {:induction false} ManagedMembers(users: seq<User>, n: nat)
    requires n <= |users|
    ensures forall u :: u in ManagedUpTo(users, n) <==>
              exists i :: 0 <= i < n && IsManaged(users[i].email) && NormalizeUser(users[i]) == u
  {
    if n > 0 {
      ManagedMembers(users, n - 1);
    }
  }

  lemma NormalizedTwice(u: User)
    ensures NormalizeUser(NormalizeUser(u)) == NormalizeUser(u)
  {
    TrimmedIsFixed(u.email);
    TrimmedIsFixed(TrimSpace(u.email));
    TrimmedIsFixed(u.uuid);
    TrimmedIsFixed(TrimSpace(u.uuid));
    TrimmedIsFixed(u.flow);
    TrimmedIsFixed(TrimSpace(u.flow));
  }

  // A list of normalised users that says, of each e-mail, exactly what a map says.
  ghost predicate Enumerates(list: seq<User>, users: Users) {
    && (forall u :: u in list ==> u.email != "" && NormalizeUser(u) == u && Describes(u, users))
    && (forall e :: e in users ==> exists u :: u in list && u.email == e)
  }

  lemma {:induction false} IndexCovers(ns: seq<User>, n: nat, i: nat)
    requires i < n <= |ns| && ns[i].email != ""
    ensures ns[i].email in IndexUpTo(ns, n)
  {
    if i < n - 1 {
      IndexCovers(ns, n - 1, i);
    }
  }

  lemma EnumerationIndexed(list: seq<User>, users: Users)
    requires Enumerates(list, users)
    ensures ByEmail(list) == users && Normalized(list) == list
  {
    assert Normalized(list) == list by {
      forall i | 0 <= i < |list| ensures NormalizeUser(list[i]) == list[i] { assert list[i] in list; }
    }
    var index := IndexUpTo(list, |list|);
    forall e | e in index ensures e in users && users[e] == index[e] {
      IndexOrigin(list, |list|, e);
      var i :| 0 <= i < |list| && list[i].email == e && index[e] == Identity(list[i].uuid, list[i].flow);
      assert list[i] in list && Describes(list[i], users);
    }
    forall e | e in users ensures e in index {
      var u :| u in list && u.email == e;
      var i :| 0 <= i < |list| && list[i] == u;
      IndexCovers(list, |list|, i);
    }
  }

  lemma NormalizedManaged(u: User)
    requires IsManaged(u.email)
    ensures NormalizeUser(u).email == u.email != ""
    ensures Identity(NormalizeUser(u).uuid, NormalizeUser(u).flow) == NormalizeIdentity(Identity(u.uuid, u.flow))
  {
    ManagedIsTrimmed(u.email);
  }

  lemma ListedIsDescribed(listing: seq<User>, users: Users, i: nat)
    requires IsListing(listing, users) && i < |listing| && IsManaged(listing[i].email)
    ensures Describes(NormalizeUser(listing[i]), Managed(users)) && NormalizeUser(listing[i]).email != ""
  {
    assert listing[i] in listing;
    NormalizedManaged(listing[i]);
  }

  lemma OwnedIsListed(listing: seq<User>, users: Users, e: string)
    requires IsListing(listing, users) && e in Managed(users)
    ensures exists u :: u in ManagedUpTo(listing, |listing|) && u.email == e
  {
    var raw := User(e, users[e].uuid, users[e].flow);
    ManagedIsTrimmed(e);
    assert raw in listing;
    NormalizedManaged(raw);
    ManagedMembers(listing, |listing|);
    assert NormalizeUser(raw) in ManagedUpTo(listing, |listing|);
  }

  // The managed part of a listing is the managed part of the runtime.
  lemma ListingShowsManaged(listing: seq<User>, users: Users)
    requires IsListing(listing, users)
    ensures Enumerates(ManagedUpTo(listing, |listing|), Managed(users))
  {
    var list := ManagedUpTo(listing, |listing|);
    ManagedMembers(listing, |listing|);
    forall u | u in list ensures u.email != "" && NormalizeUser(u) == u && Describes(u, Managed(users)) {
      var i :| 0 <= i < |listing| && IsManaged(listing[i].email) && NormalizeUser(listing[i]) == u;
      NormalizedTwice(listing[i]);
      ListedIsDescribed(listing, users, i);
    }
    forall e | e in Managed(users) ensures exists u :: u in list && u.email == e {
      OwnedIsListed(listing, users, e);
    }
  }

  predicate NormalizedAt(users: Users, e: string) {
    e in users ==> e != "" && NormalizeUser(User(e, users[e].uuid, users[e].flow)) == User(e, users[e].uuid, users[e].flow)
  }

  ghost predicate AllNormalized(users: Users) { forall e :: NormalizedAt(users, e) }

  // A list that holds each entry of a map once.
  ghost predicate Unfolds(list: seq<User>, users: Users) {
    && AllDistinct(list)
    && (forall u :: u in list ==> Describes(u, users))
    && (forall e :: e in users ==> User(e, users[e].uuid, users[e].flow) in list)
  }

  method MapUsers(users: Users) returns (list: seq<User>)
    ensures Unfolds(list, users)
  {
    list := [];
    var rest := users.Keys;
    while rest != {}
      invariant rest <= users.Keys && AllDistinct(list)
      invariant forall u :: u in list ==> u.email !in rest && Describes(u, users)
      invariant forall e :: e in users ==> e in rest || User(e, users[e].uuid, users[e].flow) in list
      decreases rest
    {
      var e :| e in rest;
      forall i | 0 <= i < |list| ensures list[i].email != e { assert list[i] in list; }
      list := list + [User(e, users[e].uuid, users[e].flow)];
      rest := rest - {e};
    }
  }

  lemma UnfoldingEnumerates(list: seq<User>, users: Users)
    requires Unfolds(list, users) && AllNormalized(users)
    ensures Enumerates(list, users) && DistinctEmails(list)
  {
    forall u | u in list ensures u.email != "" && NormalizeUser(u) == u {
      assert NormalizedAt(users, u.email);
      assert u == User(u.email, users[u.email].uuid, users[u.email].flow);
    }
    forall e | e in users ensures exists u :: u in list && u.email == e {
      assert User(e, users[e].uuid, users[e].flow) in list;
    }
  }

  lemma ManagedIsNormalized(users: Users)
    ensures AllNormalized(Managed(users))
  {
    forall e ensures NormalizedAt(Managed(users), e) {
      if e in Managed(users) {
        ManagedIsTrimmed(e);
        NormalizedManaged(User(e, users[e].uuid, users[e].flow));
        NormalizedTwice(User(e, users[e].uuid, users[e].flow));
      }
    }
  }

  // Users whose e-mails name accounts are targets, indexed by e-mail.
  lemma TargetsAreTargets(targets: seq<User>)
    requires forall u :: u in targets ==> IsManaged(u.email)
    ensures AllTargets(ByEmail(targets))
  {
    var ns := Normalized(targets);
    forall e | e in ByEmail(targets)
      ensures IsManaged(e) && NormalizeIdentity(ByEmail(targets)[e]) == ByEmail(targets)[e]
    {
      IndexOrigin(ns, |ns|, e);
      var i :| 0 <= i < |ns| && ns[i].email == e && ByEmail(targets)[e] == Identity(ns[i].uuid, ns[i].flow);
      assert targets[i] in targets;
      NormalizedManaged(targets[i]);
      NormalizedTwice(targets[i]);
    }
  }

  lemma IndexIsNormalized(list: seq<User>)
    ensures AllNormalized(ByEmail(list))
  {
    var ns := Normalized(list);
    forall e ensures NormalizedAt(ByEmail(list), e) {
      if e in ByEmail(list) {
        IndexOrigin(ns, |ns|, e);
        var i :| 0 <= i < |ns| && ns[i].email == e && ByEmail(list)[e] == Identity(ns[i].uuid, ns[i].flow);
        NormalizedTwice(list[i]);
      }
    }
  }

  // ---- The two loops ----

  // `kept` holds the e-mails for which `ok && sameUser(runtimeUser, targetUser)`.
  ghost predicate KeptAt(runtimeByEmail: Users, targetByEmail: Users, kept: set<string>, e: string) {
    e in kept <==> e in runtimeByEmail && e in targetByEmail &&
                   SameUser(User(e, runtimeByEmail[e].uuid, runtimeByEmail[e].flow),
                            User(e, targetByEmail[e].uuid, targetByEmail[e].flow))
  }

  ghost predicate AllKept(runtimeByEmail: Users, targetByEmail: Users, kept: set<string>) {
    forall e :: KeptAt(runtimeByEmail, targetByEmail, kept, e)
  }

  lemma KeptIsSameUser(runtimeByEmail: Users, targetByEmail: Users)
    requires AllNormalized(runtimeByEmail) && AllNormalized(targetByEmail)
    ensures AllKept(runtimeByEmail, targetByEmail, Kept(Same, targetByEmail, runtimeByEmail))
  {
    forall e ensures KeptAt(runtimeByEmail, targetByEmail, Kept(Same, targetByEmail, runtimeByEmail), e) {
      assert NormalizedAt(runtimeByEmail, e) && NormalizedAt(targetByEmail, e);
    }
  }

  method Matches(runtimeByEmail: Users, targetByEmail: Users, email: string, ghost kept: set<string>) returns (yes: bool)
    requires AllKept(runtimeByEmail, targetByEmail, kept)
    ensures yes <==> email in kept
  {
    assert KeptAt(runtimeByEmail, targetByEmail, kept, email);
    if email !in runtimeByEmail || email !in targetByEmail {
      return false;
    }
    var r, t := runtimeByEmail[email], targetByEmail[email];
    yes := SameUser(User(email, r.uuid, r.flow), User(email, t.uuid, t.flow));
  }

  // The progress a loop has made, as far as the runtime and the result can tell.
  predicate At(p: Progress<string, Identity>, users: Users, count: nat, error: Option<string>) {
    p.table == users && p.count == count && p.error == error
  }

  lemma RemovalNoted(p: Progress<string, Identity>, kept: set<string>, e: string, call: Call)
    requires p.error.None? && e !in kept
    ensures var r := RemoveCall(p.table, e, call);
            At(RemoveOne(p, kept, e, call), r.table, if r.error.None? then p.count + 1 else p.count, r.error)
  {
  }

  lemma AdditionNoted(p: Progress<string, Identity>, target: Users, kept: set<string>, e: string, call: Call)
    requires p.error.None? && e !in kept && e in target
    ensures var r := AddCall(p.table, e, target[e], call);
            At(AddOne(p, target, kept, e, call), r.table, if r.error.None? then p.count + 1 else p.count, r.error)
  {
  }

  // One iteration of each loop, from the progress `p`.
  method RemoveIfStale(runtime: Runtime, runtimeByEmail: Users, targetByEmail: Users, email: string, call: Call, before: nat,
                       ghost kept: set<string>, ghost p: Progress<string, Identity>)
    returns (removed: nat, error: Option<string>)
    requires AllKept(runtimeByEmail, targetByEmail, kept) && At(p, runtime.users, before, None)
    modifies runtime
    ensures At(RemoveOne(p, kept, email, call), runtime.users, removed, error)
  {
    removed, error := before, None;
    var matches := Matches(runtimeByEmail, targetByEmail, email, kept);
    if matches {
      return;
    }
    RemovalNoted(p, kept, email, call);
    error := runtime.RemoveUser(email, call);
    if error.None? {
      removed := removed + 1;
    }
  }

  method AddIfMissing(runtime: Runtime, runtimeByEmail: Users, targetByEmail: Users, email: string, call: Call, before: nat,
                      ghost kept: set<string>, ghost p: Progress<string, Identity>)
    returns (added: nat, error: Option<string>)
    requires AllKept(runtimeByEmail, targetByEmail, kept) && At(p, runtime.users, before, None)
    requires email in targetByEmail
    modifies runtime
    ensures At(AddOne(p, targetByEmail, kept, email, call), runtime.users, added, error)
  {
    added, error := before, None;
    var matches := Matches(runtimeByEmail, targetByEmail, email, kept);
    if matches {
      return;
    }
    AdditionNoted(p, targetByEmail, kept, email, call);
    error := runtime.AddUser(email, targetByEmail[email], call);
    if error.None? {
      added := added + 1;
    }
  }

  lemma RunNext(step: (Progress<string, Identity>, string) -> Progress<string, Identity>, p: Progress<string, Identity>,
                keys: seq<string>, i: nat)
    requires i < |keys|
    ensures Runs.Run(step, p, keys, i + 1) == step(Runs.Run(step, p, keys, i), keys[i])
  {
  }

  method RemoveStale(runtime: Runtime, runtimeByEmail: Users, targetByEmail: Users, calls: string -> Call,
                     ghost kept: set<string>)
    returns (removed: nat, error: Option<string>)
    requires AllKept(runtimeByEmail, targetByEmail, kept)
    modifies runtime
    ensures At(RemoveAll(old(runtime.users), kept, Sorted(runtimeByEmail.Keys), calls), runtime.users, removed, error)
  {
    var keys := SortedMapKeys(runtimeByEmail);
    ghost var step := Remover<string, Identity>(kept, calls);
    ghost var p0 := Begin(runtime.users);
    ghost var p := p0;
    removed, error := 0, None;
    for i := 0 to |keys|
      invariant p == Runs.Run(step, p0, keys, i) && At(p, runtime.users, removed, None) && error == None
    {
      RunNext(step, p0, keys, i);
      removed, error := RemoveIfStale(runtime, runtimeByEmail, targetByEmail, keys[i], calls(keys[i]), removed, kept, p);
      p := step(p, keys[i]);
      if error.Some? {
        RemoverStops(p0.table, kept, keys, calls, i + 1);
        return;
      }
    }
  }

  method AddMissing(runtime: Runtime, runtimeByEmail: Users, targetByEmail: Users, calls: string -> Call,
                    ghost kept: set<string>)
    returns (added: nat, error: Option<string>)
    requires AllKept(runtimeByEmail, targetByEmail, kept)
    modifies runtime
    ensures At(AddAll(old(runtime.users), targetByEmail, kept, Sorted(targetByEmail.Keys), calls),
               runtime.users, added, error)
  {
    var keys := SortedMapKeys(targetByEmail);
    ghost var step := Adder(targetByEmail, kept, calls);
    ghost var p0 := Begin(runtime.users);
    ghost var p := p0;
    added, error := 0, None;
    for i := 0 to |keys|
      invariant p == Runs.Run(step, p0, keys, i) && At(p, runtime.users, added, None) && error == None
    {
      assert keys[i] in keys;
      RunNext(step, p0, keys, i);
      added, error := AddIfMissing(runtime, runtimeByEmail, targetByEmail, keys[i], calls(keys[i]), added, kept, p);
      p := step(p, keys[i]);
      if error.Some? {
        AdderStops(p0.table, targetByEmail, kept, keys, calls, i + 1);
        return;
      }
    }
  }

  // ---- SyncNode ----

  datatype NodeResult = NodeResult(targetHash: string, runtimeHash: string, added: nat, removed: nat, noChange: bool)

  method UsersHash(users: seq<User>, hash: string -> string) returns (digest: string)
    ensures exists text :: IsHashInput(users, text) && digest == hash(text)
  {
    var text := HashInput(users);
    digest := hash(text);
  }

  // Under the assumptions on SHA-256 and on the fields, comparing the digests is exact.
  lemma DigestsDecide(targets: seq<User>, list: seq<User>, users: Users, x: string, y: string, hash: string -> string)
    requires Injective(hash) && Hashable(targets) && NulFreeUsers(Managed(users))
    requires Enumerates(list, Managed(users)) && DistinctEmails(list)
    requires exists text :: IsHashInput(targets, text) && x == hash(text)
    requires exists text :: IsHashInput(list, text) && y == hash(text)
    ensures x == y <==> HashesEqual(ByEmail(targets), users)
  {
    EnumerationIndexed(list, Managed(users));
    var s :| IsHashInput(targets, s) && x == hash(s);
    var t :| IsHashInput(list, t) && y == hash(t);
    HashesAgree(targets, list, s, t, hash);
  }

  /** SyncNode: exactly the pass of the specification, with the outcome it reports and the
      status it records.  With an injective hash and fields free of NUL it takes the fast path
      exactly when no user with a UUID differs. */
  method SyncNode(store: NodeStore, runtime: Runtime, plan: Plan, now: Time, anonymous: seq<User>, hash: string -> string)
    returns (result: NodeResult, failed: bool)
    requires forall u :: u in anonymous ==> u.email == ""
    modifies store`status, runtime
    ensures var end := Sync(old(runtime.users), ByEmail(store.targets), result.targetHash == result.runtimeHash, plan);
            && runtime.users == end.users
            && result.added == end.added && result.removed == end.removed && result.noChange == end.noChange
            && store.status == StatusAfter(old(store.status), end, plan, now)
            && failed == !Succeeds(end, plan)
    ensures Injective(hash) && Hashable(store.targets) && NulFreeUsers(Managed(old(runtime.users)))
            && plan.targets.None? && plan.listing.None? ==>
              (result.targetHash == result.runtimeHash <==> HashesEqual(ByEmail(store.targets), old(runtime.users)))
  {
    result, failed := NodeResult("", "", 0, 0, false), true;
    if plan.targets.Some? {
      var _ := store.MarkProxyNodeRuntimeSync(ZERO_TIME, plan.targets.value, plan.mark);
      return;
    }
    var targetUsers := store.targets;
    if plan.listing.Some? {
      var _ := store.MarkProxyNodeRuntimeSync(ZERO_TIME, plan.listing.value, plan.mark);
      return;
    }
    var runtimeUsers := runtime.ListUsers(anonymous);
    var targetByEmail := UsersByEmail(targetUsers);
    var managed := ManagedUsers(runtimeUsers);
    var runtimeByEmail := UsersByEmail(managed);
    ListingShowsManaged(runtimeUsers, runtime.users);
    EnumerationIndexed(managed, Managed(runtime.users));
    ManagedIsNormalized(runtime.users);
    IndexIsNormalized(targetUsers);
    var list := MapUsers(runtimeByEmail);
    UnfoldingEnumerates(list, runtimeByEmail);
    var targetHash := UsersHash(targetUsers, hash);
    var runtimeHash := UsersHash(list, hash);
    result := result.(targetHash := targetHash, runtimeHash := runtimeHash);
    if Injective(hash) && Hashable(targetUsers) && NulFreeUsers(Managed(runtime.users)) {
      DigestsDecide(targetUsers, list, runtime.users, targetHash, runtimeHash, hash);
    }
    if targetHash == runtimeHash {
      result := result.(noChange := true);
      failed := store.MarkProxyNodeRuntimeSync(now, "", plan.mark);
      return;
    }
    ghost var kept := Kept(Same, targetByEmail, runtimeByEmail);
    KeptIsSameUser(runtimeByEmail, targetByEmail);
    var removed, error := RemoveStale(runtime, runtimeByEmail, targetByEmail, plan.remove, kept);
    result := result.(removed := removed);
    if error.Some? {
      var _ := store.MarkProxyNodeRuntimeSync(ZERO_TIME, error.value, plan.mark);
      return;
    }
    var added;
    added, error := AddMissing(runtime, runtimeByEmail, targetByEmail, plan.add, kept);
    result := result.(added := added);
    if error.Some? {
      var _ := store.MarkProxyNodeRuntimeSync(ZERO_TIME, error.value, plan.mark);
      return;
    }
    failed := store.MarkProxyNodeRuntimeSync(now, "", plan.mark);
  }
}
