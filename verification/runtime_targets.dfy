/** internal/store/runtime_sync.go: the users a node should have, against the links that
    internal/subscription/subscription.go prints. */
module RuntimeTargets {
  import Domain
  import opened Results
  import opened RuntimeUsers
  import opened Subscription
  import opened Text
  import XrayStats

  // ---- The target query ----

  predicate NotExpired(expiresAt: Option<Time>, now: Time) { expiresAt.None? || expiresAt.value > now }

  predicate BoundTo(account: Account, nodeId: Id) { exists i :: 0 <= i < |account.nodes| && account.nodes[i].id == nodeId }

  // The WHERE clause, for an account and the customer it is joined with.
  predicate Selected(customer: Customer, account: Account, now: Time) {
    && account.protocol == VLESS && account.enabled && customer.status == Domain.ACTIVE
    && NotExpired(account.expiresAt, now) && NotExpired(customer.expiresAt, now)
  }

  function UserOf(account: Account): User {
    User(XrayStats.RuntimeEmail(TrimSpace(account.id)), TrimSpace(account.uuid), TrimSpace(account.flow))
  }

  predicate IsTarget(customers: map<Id, Customer>, account: Account, nodeId: Id, now: Time) {
    BoundTo(account, nodeId) && account.customer in customers && Selected(customers[account.customer], account, now)
  }

  // The users of the accounts, among the first `n`, that are picked.
  function PickUpTo(accounts: seq<Account>, n: nat, picks: Account -> bool, user: Account -> User): seq<User>
    requires n <= |accounts|
  {
    if n == 0 then []
    else PickUpTo(accounts, n - 1, picks, user) + (if picks(accounts[n - 1]) then [user(accounts[n - 1])] else [])
  }

  function Targets(customers: map<Id, Customer>, accounts: seq<Account>, nodeId: Id, now: Time): seq<User> {
    PickUpTo(accounts, |accounts|, (a: Account) => IsTarget(customers, a, nodeId, now), UserOf)
  }

  // ListRuntimeTargetUsers, over the accounts in the order of their ids.
  method ListRuntimeTargetUsers(customers: map<Id, Customer>, accounts: seq<Account>, nodeId: Id, now: Time)
    returns (users: seq<User>)
    ensures users == Targets(customers, accounts, nodeId, now)
  {
    ghost var picks, user := (a: Account) => IsTarget(customers, a, nodeId, now), UserOf;
    users := [];
    for i := 0 to |accounts|
      invariant users == PickUpTo(accounts, i, picks, user)
    {
      var a := accounts[i];
      if (exists j :: 0 <= j < |a.nodes| && a.nodes[j].id == nodeId) && a.customer in customers {
        var c := customers[a.customer];
        if a.protocol == VLESS && a.enabled && c.status == Domain.ACTIVE
           && NotExpired(a.expiresAt, now) && NotExpired(c.expiresAt, now)
        {
          users := users + [User(XrayStats.RuntimeEmail(TrimSpace(a.id)), TrimSpace(a.uuid), TrimSpace(a.flow))];
        }
      }
    }
  }

  lemma {:induction false} PickedFrom(accounts: seq<Account>, n: nat, picks: Account -> bool, user: Account -> User)
    requires n <= |accounts|
    ensures forall u :: u in PickUpTo(accounts, n, picks, user) ==>
              exists i :: 0 <= i < n && picks(accounts[i]) && u == user(accounts[i])
    ensures forall i :: 0 <= i < n && picks(accounts[i]) ==> user(accounts[i]) in PickUpTo(accounts, n, picks, user)
  {
    if n > 0 {
      PickedFrom(accounts, n - 1, picks, user);
    }
  }

  // The statement's conditions, for an account, its customer and a node.
  lemma TargetExactly(customers: map<Id, Customer>, a: Account, nodeId: Id, now: Time)
    ensures IsTarget(customers, a, nodeId, now) <==>
            && (exists j :: 0 <= j < |a.nodes| && a.nodes[j].id == nodeId)
            && a.protocol == "vless" && a.enabled && (a.expiresAt.None? || a.expiresAt.value > now)
            && a.customer in customers && customers[a.customer].status == "active"
            && (customers[a.customer].expiresAt.None? || customers[a.customer].expiresAt.value > now)
  {
  }

  // Primary keys are distinct and come without white space.
  predicate DistinctIds(accounts: seq<Account>) {
    && (forall i :: 0 <= i < |accounts| ==> accounts[i].id != "" && Trimmed(accounts[i].id))
    && (forall i, j :: 0 <= i < j < |accounts| ==> accounts[i].id != accounts[j].id)
  }

  lemma EmailsDiffer(a: Id, b: Id)
    requires a != "" && b != ""
    ensures XrayStats.RuntimeEmail(a) == XrayStats.RuntimeEmail(b) <==> a == b
  {
    XrayStats.EmailRoundTrip(a, XrayStats.RuntimeEmail(a));
    XrayStats.EmailRoundTrip(b, XrayStats.RuntimeEmail(b));
  }

  // The user of an account: its e-mail names it, and it has its UUID and flow.
  lemma UserExactly(a: Account)
    requires a.id != "" && Trimmed(a.id)
    ensures UserOf(a) == User("pcp-" + a.id + "@proxy-control-plane", TrimSpace(a.uuid), TrimSpace(a.flow))
    ensures UserOf(a).email == XrayStats.RuntimeEmail(a.id)
  {
    TrimmedIsFixed(a.id);
  }

  lemma ListedUser(customers: map<Id, Customer>, accounts: seq<Account>, nodeId: Id, now: Time, k: nat, u: User)
    requires DistinctIds(accounts) && k < |accounts| && u in Targets(customers, accounts, nodeId, now)
    requires u.email == UserOf(accounts[k]).email
    ensures IsTarget(customers, accounts[k], nodeId, now) && u == UserOf(accounts[k])
  {
    PickedFrom(accounts, |accounts|, (a: Account) => IsTarget(customers, a, nodeId, now), UserOf);
    var i :| 0 <= i < |accounts| && IsTarget(customers, accounts[i], nodeId, now) && u == UserOf(accounts[i]);
    UserExactly(accounts[i]);
    UserExactly(accounts[k]);
    EmailsDiffer(accounts[i].id, accounts[k].id);
  }

  /** A user with an account's e-mail is listed for a node if and only if the account is bound to
      that node, speaks vless, is enabled, belongs to an active customer, and neither of the two
      expires at or before `now`; and the user listed carries the account's UUID and flow. */
  lemma ListedExactly(customers: map<Id, Customer>, accounts: seq<Account>, nodeId: Id, now: Time, k: nat)
    requires k < |accounts| && DistinctIds(accounts)
    ensures var a, email := accounts[k], "pcp-" + accounts[k].id + "@proxy-control-plane";
            && ((exists u :: u in Targets(customers, accounts, nodeId, now) && u.email == email) <==>
                && (exists j :: 0 <= j < |a.nodes| && a.nodes[j].id == nodeId)
                && a.protocol == "vless" && a.enabled && (a.expiresAt.None? || a.expiresAt.value > now)
                && a.customer in customers && customers[a.customer].status == "active"
                && (customers[a.customer].expiresAt.None? || customers[a.customer].expiresAt.value > now))
            && (forall u :: u in Targets(customers, accounts, nodeId, now) && u.email == email ==>
                  u == User(email, TrimSpace(a.uuid), TrimSpace(a.flow)))
  {
    var a, targets := accounts[k], Targets(customers, accounts, nodeId, now);
    UserExactly(a);
    TargetExactly(customers, a, nodeId, now);
    PickedFrom(accounts, |accounts|, (x: Account) => IsTarget(customers, x, nodeId, now), UserOf);
    forall u | u in targets && u.email == UserOf(a).email
      ensures IsTarget(customers, a, nodeId, now) && u == UserOf(a)
    {
      ListedUser(customers, accounts, nodeId, now, k, u);
    }
  }

  // ---- Against the links ----

  lemma {:induction false} NodePairMembers(account: Account, n: nat, p: Pair)
    requires n <= |account.nodes|
    ensures p in NodePairs(account, n) <==> p.account == account && p.node in account.nodes[..n] && Offers(p.node)
  {
    if n > 0 {
      NodePairMembers(account, n - 1, p);
      assert account.nodes[..n] == account.nodes[..n - 1] + [account.nodes[n - 1]];
    }
  }

  lemma {:induction false} PairMembers(customer: Customer, accounts: seq<Account>, n: nat, now: Time, p: Pair)
    requires n <= |accounts|
    ensures p in PairsUpTo(customer, accounts, n, now) <==>
            p.account in accounts[..n] && p.node in p.account.nodes && Takes(customer, p.account, now) && Offers(p.node)
  {
    if n > 0 {
      var a := accounts[n - 1];
      PairMembers(customer, accounts, n - 1, now, p);
      NodePairMembers(a, |a.nodes|, p);
      assert a.nodes[..|a.nodes|] == a.nodes;
      assert accounts[..n] == accounts[..n - 1] + [a];
    }
  }

  // Stored statuses are what CustomerStatusOrDefault makes of them.
  predicate StoredCustomer(customer: Customer) {
    customer.status == Domain.CustomerStatusOrDefault(customer.status)
  }

  predicate ExpiresAt(customer: Customer, account: Account, now: Time) {
    account.expiresAt == Some(now) || customer.expiresAt == Some(now)
  }

  // The target query for a node lists a user of the account.
  ghost predicate Listed(customers: map<Id, Customer>, accounts: seq<Account>, account: Account, nodeId: Id, now: Time) {
    exists u :: u in Targets(customers, accounts, nodeId, now) && u.email == "pcp-" + account.id + "@proxy-control-plane"
  }

  lemma LinksAgainstSelected(customer: Customer, accounts: seq<Account>, account: Account, node: Node, now: Time)
    requires StoredCustomer(customer) && account in accounts && account.customer == customer.id
    requires node in account.nodes && Offers(node)
    ensures Pair(account, node) in Pairs(customer, accounts, now) <==> Selected(customer, account, now - 1)
    ensures Selected(customer, account, now) <==> Selected(customer, account, now - 1) && !ExpiresAt(customer, account, now)
  {
    Domain.StoredStatusReadsTheSame(customer.status);
    PairMembers(customer, accounts, |accounts|, now, Pair(account, node));
    assert accounts[..|accounts|] == accounts;
  }

  lemma ListedIsSelected(customers: map<Id, Customer>, accounts: seq<Account>, account: Account, node: Node, now: Time)
    requires DistinctIds(accounts) && account in accounts && account.customer in customers && node in account.nodes
    ensures Listed(customers, accounts, account, node.id, now) <==> Selected(customers[account.customer], account, now)
  {
    var k :| 0 <= k < |accounts| && accounts[k] == account;
    var j :| 0 <= j < |account.nodes| && account.nodes[j] == node;
    ListedExactly(customers, accounts, node.id, now, k);
    TargetExactly(customers, account, node.id, now);
  }

  /** The two eligibility rules agree but for one instant: over stored data, an enabled vless node
      of an account gets a link if the target query for the node lists the account; it gets one
      without that only if an expiry is exactly now, that is, exactly if the account was still
      listed one tick of the clock before ... */
  lemma LinksAgainstTargets(customers: map<Id, Customer>, accounts: seq<Account>, account: Account, node: Node, now: Time)
    requires DistinctIds(accounts) && account in accounts && node in account.nodes && Offers(node)
    requires account.customer in customers && customers[account.customer].id == account.customer
    requires StoredCustomer(customers[account.customer])
    ensures var customer := customers[account.customer];
            var linked, listed := Pair(account, node) in Pairs(customer, accounts, now),
                                  Listed(customers, accounts, account, node.id, now);
            && (listed ==> linked) && (linked && !listed ==> ExpiresAt(customer, account, now))
            && (ExpiresAt(customer, account, now) ==> !listed)
            && (linked <==> Listed(customers, accounts, account, node.id, now - 1))
  {
    ListedIsSelected(customers, accounts, account, node, now);
    ListedIsSelected(customers, accounts, account, node, now - 1);
    LinksAgainstSelected(customers[account.customer], accounts, account, node, now);
  }

  // Rows of the join: customers under their ids, and one row for each node id.
  predicate Joined(customers: map<Id, Customer>, accounts: seq<Account>, node: Node) {
    && (forall c :: c in customers ==> customers[c].id == c && StoredCustomer(customers[c]))
    && (forall a, n :: a in accounts && n in a.nodes && n.id == node.id ==> n == node)
  }

  lemma TargetIsLinked(customers: map<Id, Customer>, accounts: seq<Account>, i: nat, node: Node, now: Time)
    requires DistinctIds(accounts) && Joined(customers, accounts, node) && Offers(node) && i < |accounts|
    requires IsTarget(customers, accounts[i], node.id, now)
    ensures Pair(accounts[i], node) in Pairs(customers[accounts[i].customer], accounts, now)
  {
    var a := accounts[i];
    assert a in accounts;
    var j :| 0 <= j < |a.nodes| && a.nodes[j].id == node.id;
    assert a.nodes[j] in a.nodes && a.nodes[j] == node;
    LinksAgainstTargets(customers, accounts, a, node, now);
    ListedIsSelected(customers, accounts, a, node, now);
  }

  /** Seen from the targets: every user listed for an enabled vless node is that of an account for
      which Build prints the link to this node. */
  lemma TargetsAreLinked(customers: map<Id, Customer>, accounts: seq<Account>, node: Node, now: Time, u: User)
    requires DistinctIds(accounts) && Joined(customers, accounts, node) && Offers(node)
    requires u in Targets(customers, accounts, node.id, now)
    ensures exists a :: a in accounts && a.customer in customers && u.email == "pcp-" + a.id + "@proxy-control-plane" &&
                        Pair(a, node) in Pairs(customers[a.customer], accounts, now)
  {
    PickedFrom(accounts, |accounts|, (a: Account) => IsTarget(customers, a, node.id, now), UserOf);
    var i :| 0 <= i < |accounts| && IsTarget(customers, accounts[i], node.id, now) && u == UserOf(accounts[i]);
    UserExactly(accounts[i]);
    TargetIsLinked(customers, accounts, i, node, now);
    assert accounts[i] in accounts;
  }

  /** Which pairs get a link, written out. */
  lemma LinkedExactly(customer: Customer, accounts: seq<Account>, now: Time, p: Pair)
    ensures p in Pairs(customer, accounts, now) <==>
            && ToLower(TrimSpace(customer.status)) == "active"
            && (customer.expiresAt.None? || customer.expiresAt.value >= now)
            && p.account in accounts && p.account.customer == customer.id && p.account.protocol == "vless"
            && p.account.enabled && (p.account.expiresAt.None? || p.account.expiresAt.value >= now)
            && p.node in p.account.nodes && p.node.enabled && p.node.protocol == "vless"
  {
    PairMembers(customer, accounts, |accounts|, now, p);
    assert accounts[..|accounts|] == accounts;
  }

  // ... and links go to nodes of that kind only.
  lemma LinksAreOffered(customer: Customer, accounts: seq<Account>, now: Time, p: Pair)
    requires p in Pairs(customer, accounts, now)
    ensures p.account in accounts && p.account.customer == customer.id && p.node in p.account.nodes && Offers(p.node)
  {
    PairMembers(customer, accounts, |accounts|, now, p);
    assert accounts[..|accounts|] == accounts;
  }
}
