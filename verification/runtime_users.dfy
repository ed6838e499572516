/** internal/runtimesync/sync.go, the values: users by e-mail, their identity and their hash. */
module RuntimeUsers {
  import opened Ordering
  import opened Reconcile
  import opened Results
  import opened Text
  import XrayStats

  // domain.RuntimeUser without the account id, which this package carries but never reads.
  datatype User = User(email: string, uuid: string, flow: string)

  datatype Identity = Identity(uuid: string, flow: string)

  type Users = map<string, Identity>

  function NormalizeUser(u: User): User { User(TrimSpace(u.email), TrimSpace(u.uuid), TrimSpace(u.flow)) }

  function NormalizeIdentity(i: Identity): Identity { Identity(TrimSpace(i.uuid), TrimSpace(i.flow)) }

  predicate SameUser(left: User, right: User) {
    var (l, r) := (NormalizeUser(left), NormalizeUser(right));
    l.email == r.email && EqualFold(l.uuid, r.uuid) && l.flow == r.flow
  }

  // The same user under one e-mail.
  predicate Same(a: Identity, b: Identity) { EqualFold(a.uuid, b.uuid) && a.flow == b.flow }

  lemma SameIsAnEquivalence(a: Identity, b: Identity, c: Identity)
    ensures Same(a, a)
    ensures Same(a, b) ==> Same(b, a)
    ensures Same(a, b) && Same(b, c) ==> Same(a, c)
  {
    EqualFoldIsLowerEquality(a.uuid, a.uuid);
    EqualFoldIsLowerEquality(a.uuid, b.uuid);
    EqualFoldIsLowerEquality(b.uuid, a.uuid);
    EqualFoldIsLowerEquality(b.uuid, c.uuid);
    EqualFoldIsLowerEquality(a.uuid, c.uuid);
  }

  // Two users are the same if their e-mails and flows are, and their UUIDs up to case, all trimmed.
  lemma SameUserExactly(left: User, right: User)
    ensures SameUser(left, right) <==>
      && TrimSpace(left.email) == TrimSpace(right.email)
      && ToLower(TrimSpace(left.uuid)) == ToLower(TrimSpace(right.uuid))
      && TrimSpace(left.flow) == TrimSpace(right.flow)
  {
    EqualFoldIsLowerEquality(TrimSpace(left.uuid), TrimSpace(right.uuid));
  }

  lemma SameExactly(a: Identity, b: Identity)
    ensures Same(a, b) <==> ToLower(a.uuid) == ToLower(b.uuid) && a.flow == b.flow
  {
    EqualFoldIsLowerEquality(a.uuid, b.uuid);
  }

  predicate IsManaged(email: string) { XrayStats.AccountOfEmail(email).Some? }

  // A managed e-mail has no white space to trim and is not empty.
  lemma ManagedIsTrimmed(email: string)
    requires IsManaged(email)
    ensures email != "" && TrimSpace(email) == email
  {
    assert email[0] == XrayStats.EMAIL_PREFIX[0] == 'p';
    var n := |email| - |XrayStats.EMAIL_SUFFIX|;
    assert email[|email| - 1] == email[n..][|XrayStats.EMAIL_SUFFIX| - 1] == 'e';
    TrimmedIsFixed(email);
  }

  // The e-mails that the control plane gives to its accounts.
  ghost predicate IsTag(email: string) { exists id :: id != "" && email == "pcp-" + id + "@proxy-control-plane" }

  lemma ManagedExactly(email: string)
    ensures IsManaged(email) <==> IsTag(email)
  {
    if IsManaged(email) {
      var id := XrayStats.AccountOfEmail(email).value;
      XrayStats.EmailRoundTrip(id, email);
      assert email == "pcp-" + id + "@proxy-control-plane";
    }
    if IsTag(email) {
      var id :| id != "" && email == "pcp-" + id + "@proxy-control-plane";
      XrayStats.EmailRoundTrip(id, email);
      assert email == XrayStats.RuntimeEmail(id);
    }
  }

  // ---- usersByEmail ----

  function Normalized(users: seq<User>): seq<User> {
    seq(|users|, i requires 0 <= i < |users| => NormalizeUser(users[i]))
  }

  // Normalised users by e-mail; the last of several wins.
  function IndexUpTo(ns: seq<User>, n: nat): Users
    requires n <= |ns|
  {
    if n == 0 then map[]
    else if ns[n - 1].email == "" then IndexUpTo(ns, n - 1)
    else IndexUpTo(ns, n - 1)[ns[n - 1].email := Identity(ns[n - 1].uuid, ns[n - 1].flow)]
  }

  function ByEmail(users: seq<User>): Users { IndexUpTo(Normalized(users), |users|) }

  lemma {:induction false} LastWinsUpTo(ns: seq<User>, n: nat, e: string)
    requires n <= |ns|
    ensures e in IndexUpTo(ns, n) <==> e != "" && exists i :: 0 <= i < n && ns[i].email == e
    ensures forall i :: 0 <= i < n && ns[i].email == e && e != "" && (forall j :: i < j < n ==> ns[j].email != e) ==>
      e in IndexUpTo(ns, n) && IndexUpTo(ns, n)[e] == Identity(ns[i].uuid, ns[i].flow)
  {
    if n > 0 {
      LastWinsUpTo(ns, n - 1, e);
      assert ns[n - 1].email == e && e != "" ==> e in IndexUpTo(ns, n);
    }
  }

  predicate IsLast(users: seq<User>, i: nat, e: string)
    requires i < |users|
  {
    TrimSpace(users[i].email) == e && forall j :: i < j < |users| ==> TrimSpace(users[j].email) != e
  }

  /** An e-mail is in the map if some user has it, up to white space, and then with the UUID and
      the flow of the last such user. */
  lemma LastWins(users: seq<User>, e: string)
    ensures e in ByEmail(users) <==> e != "" && exists i :: 0 <= i < |users| && TrimSpace(users[i].email) == e
    ensures forall i :: 0 <= i < |users| && e != "" && IsLast(users, i, e) ==>
      e in ByEmail(users) && ByEmail(users)[e] == Identity(TrimSpace(users[i].uuid), TrimSpace(users[i].flow))
  {
    var ns := Normalized(users);
    assert forall i :: 0 <= i < |users| ==> ns[i] == NormalizeUser(users[i]);
    LastWinsUpTo(ns, |users|, e);
  }

  method UsersByEmail(users: seq<User>) returns (result: Users)
    ensures result == ByEmail(users)
  {
    result := map[];
    ghost var ns := Normalized(users);
    for i := 0 to |users|
      invariant result == IndexUpTo(ns, i)
    {
      var user := NormalizeUser(users[i]);
      assert ns[i] == user;
      if user.email == "" {
        continue;
      }
      result := result[user.email := Identity(user.uuid, user.flow)];
    }
  }

  predicate DistinctEmails(ns: seq<User>) {
    forall i, j :: 0 <= i < j < |ns| && ns[i].email != "" ==> ns[i].email != ns[j].email
  }

  predicate Describes(u: User, users: Users) { u.email in users && users[u.email] == Identity(u.uuid, u.flow) }

  // Of distinct users, each is in the map and each key comes from one.
  lemma {:induction false} IndexHoldsEach(ns: seq<User>, n: nat)
    requires n <= |ns| && DistinctEmails(ns)
    ensures forall i :: 0 <= i < n && ns[i].email != "" ==> Describes(ns[i], IndexUpTo(ns, n))
  {
    if n > 0 {
      IndexHoldsEach(ns, n - 1);
    }
  }

  lemma {:induction false} IndexOrigin(ns: seq<User>, n: nat, email: string)
    requires n <= |ns| && email in IndexUpTo(ns, n)
    ensures email != ""
    ensures exists i :: 0 <= i < n && ns[i].email == email && IndexUpTo(ns, n)[email] == Identity(ns[i].uuid, ns[i].flow)
  {
    if ns[n - 1].email != email || email == "" {
      IndexOrigin(ns, n - 1, email);
    }
  }

  // ---- UsersHash ----

  predicate Hashed(u: User) { u.email != "" && u.uuid != "" }

  function FieldsUpTo(users: seq<User>, n: nat): seq<string>
    requires n <= |users|
  {
    if n == 0 then []
    else FieldsUpTo(users, n - 1) + [users[n - 1].email, ToLower(users[n - 1].uuid), users[n - 1].flow]
  }

  predicate SortedByEmail(users: seq<User>) {
    forall i, j :: 0 <= i < j < |users| ==> !Less(users[j].email, users[i].email)
  }

  // What is fed to SHA-256: the users with an e-mail and a UUID, sorted, field by field.
  function KeptUpTo(ns: seq<User>, n: nat): seq<User>
    requires n <= |ns|
  {
    if n == 0 then [] else KeptUpTo(ns, n - 1) + (if Hashed(ns[n - 1]) then [ns[n - 1]] else [])
  }

  ghost predicate IsSortOfKept(sorted: seq<User>, ns: seq<User>) {
    SortedByEmail(sorted) && multiset(sorted) == multiset(KeptUpTo(ns, |ns|))
  }

  function DigestText(sorted: seq<User>): string { Join(FieldsUpTo(sorted, |sorted|)) }

  ghost predicate IsHashInput(users: seq<User>, text: string) {
    exists sorted :: IsSortOfKept(sorted, Normalized(users)) && text == DigestText(sorted)
  }

  method SortByEmail(users: seq<User>) returns (sorted: seq<User>)
    ensures SortedByEmail(sorted) && multiset(sorted) == multiset(users)
  {
    sorted := [];
    for i := 0 to |users|
      invariant SortedByEmail(sorted) && multiset(sorted) == multiset(users[..i])
    {
      sorted := InsertUser(sorted, users[i]);
      assert users[..i + 1] == users[..i] + [users[i]];
    }
    assert users[..|users|] == users;
  }

  // Where the insertion stops, everything before is not greater, and everything after not less.
  lemma InsertionPoint(users: seq<User>, u: User, i: nat)
    requires SortedByEmail(users) && i <= |users|
    requires forall j :: i <= j < |users| ==> Less(u.email, users[j].email)
    requires i > 0 ==> !Less(u.email, users[i - 1].email)
    ensures forall j :: 0 <= j < i ==> !Less(u.email, users[j].email)
    ensures forall j :: i <= j < |users| ==> !Less(users[j].email, u.email)
  {
    forall j | 0 <= j < i ensures !Less(u.email, users[j].email) {
      NotLessBefore(u.email, users[j].email, users[i - 1].email);
    }
    forall j | i <= j < |users| ensures !Less(users[j].email, u.email) {
      if Less(users[j].email, u.email) {
        LessTransitive(u.email, users[j].email, u.email);
        LessIrreflexive(u.email);
      }
    }
  }

  lemma NotLessBefore(x: string, y: string, z: string)
    requires !Less(x, z) && (y == z || !Less(z, y))
    ensures !Less(x, y)
  {
    LessTotal(y, z);
    if Less(x, y) && Less(y, z) {
      LessTransitive(x, y, z);
    }
  }

  lemma InsertedIsSorted(users: seq<User>, u: User, i: nat)
    requires SortedByEmail(users) && i <= |users|
    requires forall j :: 0 <= j < i ==> !Less(u.email, users[j].email)
    requires forall j :: i <= j < |users| ==> !Less(users[j].email, u.email)
    ensures SortedByEmail(users[..i] + [u] + users[i..])
  {
    LessIrreflexive(u.email);
    var r := users[..i] + [u] + users[i..];
    forall j, k | 0 <= j < k < |r| ensures !Less(r[k].email, r[j].email) {
      assert j < i ==> r[j] == users[j];
      assert j > i ==> r[j] == users[j - 1];
      assert k < i ==> r[k] == users[k];
      assert k > i ==> r[k] == users[k - 1];
    }
  }

  lemma InsertedIsPermutation(users: seq<User>, u: User, i: nat)
    requires i <= |users|
    ensures multiset(users[..i] + [u] + users[i..]) == multiset(users + [u])
  {
    assert users == users[..i] + users[i..];
  }

  method InsertUser(users: seq<User>, u: User) returns (r: seq<User>)
    requires SortedByEmail(users)
    ensures SortedByEmail(r) && multiset(r) == multiset(users + [u])
  {
    var i := |users|;
    while i > 0 && Less(u.email, users[i - 1].email)
      invariant 0 <= i <= |users|
      invariant forall j :: i <= j < |users| ==> Less(u.email, users[j].email)
    {
      i := i - 1;
    }
    r := users[..i] + [u] + users[i..];
    InsertionPoint(users, u, i);
    InsertedIsSorted(users, u, i);
    InsertedIsPermutation(users, u, i);
  }

  // UsersHash up to SHA-256.
  method HashInput(users: seq<User>) returns (text: string)
    ensures IsHashInput(users, text)
  {
    var normalized: seq<User> := [];
    ghost var ns := Normalized(users);
    for i := 0 to |users|
      invariant normalized == KeptUpTo(ns, i)
    {
      var user := NormalizeUser(users[i]);
      assert ns[i] == user;
      if user.email == "" || user.uuid == "" {
        continue;
      }
      normalized := normalized + [user];
    }
    var sorted := SortByEmail(normalized);
    assert IsSortOfKept(sorted, ns);
    text := Written(sorted);
  }

  // The loop that writes the sorted users to the digest.
  method Written(sorted: seq<User>) returns (text: string)
    ensures text == DigestText(sorted)
  {
    text := "";
    for i := 0 to |sorted|
      invariant text == Join(FieldsUpTo(sorted, i))
    {
      var before, user := FieldsUpTo(sorted, i), sorted[i];
      JoinAppend3(before, user.email, ToLower(user.uuid), user.flow);
      text := text + user.email + [NUL];
      text := text + ToLower(user.uuid) + [NUL];
      text := text + user.flow + [NUL];
    }
  }

  lemma {:induction false} JoinPrefix(a: seq<string>, b: seq<string>, n: nat)
    requires n <= |a|
    ensures JoinUpTo(a + b, n) == JoinUpTo(a, n)
  {
    if n > 0 {
      JoinPrefix(a, b, n - 1);
    }
  }

  lemma JoinAppend3(fields: seq<string>, x: string, y: string, z: string)
    ensures Join(fields + [x, y, z]) == Join(fields) + x + [NUL] + y + [NUL] + z + [NUL]
  {
    var all, n := fields + [x, y, z], |fields|;
    JoinPrefix(fields, [x, y, z], n);
    assert all[n] == x && all[n + 1] == y && all[n + 2] == z;
    assert JoinUpTo(all, n + 1) == Join(fields) + x + [NUL];
    assert JoinUpTo(all, n + 2) == JoinUpTo(all, n + 1) + y + [NUL];
  }

  // ---- When two hashes agree ----

  // What the hash can see of a map of users.
  function Visible(users: Users): Users { map e | e in users && e != "" && users[e].uuid != "" :: users[e] }

  predicate NulFreeUsers(users: Users) {
    forall e :: e in users ==> NulFree(e) && NulFree(users[e].uuid) && NulFree(users[e].flow)
  }

  // A sorted list that holds exactly the users of a map.
  ghost predicate ListsUsers(sorted: seq<User>, users: Users) {
    && (forall i, j :: 0 <= i < j < |sorted| ==> Less(sorted[i].email, sorted[j].email))
    && (forall u :: u in sorted ==> u.email in users && users[u.email] == Identity(u.uuid, u.flow))
    && (forall e :: e in users ==> exists u :: u in sorted && u.email == e)
  }

  lemma {:induction false} FieldAt(users: seq<User>, n: nat, i: nat)
    requires i < n <= |users|
    ensures |FieldsUpTo(users, n)| == 3 * n
    ensures FieldsUpTo(users, n)[3 * i] == users[i].email
    ensures FieldsUpTo(users, n)[3 * i + 1] == ToLower(users[i].uuid)
    ensures FieldsUpTo(users, n)[3 * i + 2] == users[i].flow
  {
    if i < n - 1 {
      FieldAt(users, n - 1, i);
    } else if n > 1 {
      FieldAt(users, n - 1, 0);
    } else {
      assert FieldsUpTo(users, 0) == [];
    }
  }

  lemma {:induction false} FieldsLength(users: seq<User>, n: nat)
    requires n <= |users|
    ensures |FieldsUpTo(users, n)| == 3 * n
  {
    if n > 0 {
      FieldsLength(users, n - 1);
    }
  }

  lemma {:induction false} FieldsNulFree(users: seq<User>, n: nat)
    requires n <= |users|
    requires NulFreeList(users)
    ensures forall f :: f in FieldsUpTo(users, n) ==> NulFree(f)
  {
    if n > 0 {
      FieldsNulFree(users, n - 1);
      var u := users[n - 1];
      assert u in users;
      assert forall i :: 0 <= i < |u.uuid| ==> u.uuid[i] != NUL && Lower(u.uuid[i]) != NUL;
    }
  }

  predicate SameLine(a: User, b: User) {
    a.email == b.email && ToLower(a.uuid) == ToLower(b.uuid) && a.flow == b.flow
  }

  // Two lists with the same e-mails, folded UUIDs and flows.
  predicate SameList(a: seq<User>, b: seq<User>) {
    |a| == |b| && forall i :: 0 <= i < |a| ==> SameLine(a[i], b[i])
  }

  lemma {:induction false} SameListSameFields(a: seq<User>, b: seq<User>, n: nat)
    requires SameList(a, b) && n <= |a|
    ensures FieldsUpTo(a, n) == FieldsUpTo(b, n)
  {
    if n > 0 {
      SameListSameFields(a, b, n - 1);
      assert SameLine(a[n - 1], b[n - 1]);
    }
  }

  predicate NulFreeList(users: seq<User>) {
    forall u :: u in users ==> NulFree(u.email) && NulFree(u.uuid) && NulFree(u.flow)
  }

  lemma SameFieldsSameList(a: seq<User>, b: seq<User>)
    requires FieldsUpTo(a, |a|) == FieldsUpTo(b, |b|)
    ensures SameList(a, b)
  {
    FieldsLength(a, |a|);
    FieldsLength(b, |b|);
    forall i | 0 <= i < |a| ensures SameLine(a[i], b[i]) {
      FieldAt(a, |a|, i);
      FieldAt(b, |b|, i);
    }
  }

  lemma TextDecidesList(a: seq<User>, b: seq<User>)
    requires NulFreeList(a) && NulFreeList(b)
    ensures DigestText(a) == DigestText(b) <==> SameList(a, b)
  {
    if DigestText(a) == DigestText(b) {
      var fa, fb := FieldsUpTo(a, |a|), FieldsUpTo(b, |b|);
      FieldsNulFree(a, |a|);
      FieldsNulFree(b, |b|);
      JoinInjective(fa, fb, |fa|, |fb|);
      assert fa[..|fa|] == fa && fb[..|fb|] == fb;
      SameFieldsSameList(a, b);
    }
    if SameList(a, b) {
      SameListSameFields(a, b, |a|);
    }
  }

  function Emails(users: seq<User>): seq<string> { seq(|users|, i requires 0 <= i < |users| => users[i].email) }

  lemma EmailsAreKeys(sorted: seq<User>, users: Users)
    requires ListsUsers(sorted, users)
    ensures Increasing(Emails(sorted)) && forall e :: e in Emails(sorted) <==> e in users
  {
    forall e | e in users ensures e in Emails(sorted) {
      var u :| u in sorted && u.email == e;
      var i :| 0 <= i < |sorted| && sorted[i] == u;
      assert Emails(sorted)[i] == e;
    }
    forall e | e in Emails(sorted) ensures e in users {
      var i :| 0 <= i < |sorted| && Emails(sorted)[i] == e;
      assert sorted[i] in sorted;
    }
  }

  lemma SameListSameEmails(a: seq<User>, b: seq<User>)
    requires SameList(a, b)
    ensures Emails(a) == Emails(b)
  {
    forall i | 0 <= i < |a| ensures Emails(a)[i] == Emails(b)[i] { assert SameLine(a[i], b[i]); }
  }

  lemma SameLineSameUser(a: User, b: User, m: Users, n: Users)
    requires SameLine(a, b) && Describes(a, m) && Describes(b, n)
    ensures Same(n[a.email], m[a.email])
  {
    EqualFoldIsLowerEquality(b.uuid, a.uuid);
  }

  lemma SameListsThenAgree(a: seq<User>, b: seq<User>, m: Users, n: Users)
    requires ListsUsers(a, m) && ListsUsers(b, n) && SameList(a, b)
    ensures Agree(Same, m, n)
  {
    EmailsAreKeys(a, m);
    EmailsAreKeys(b, n);
    SameListSameEmails(a, b);
    assert m.Keys == n.Keys;
    forall e | e in m ensures Same(n[e], m[e]) {
      var i :| 0 <= i < |Emails(a)| && Emails(a)[i] == e;
      assert a[i] in a && b[i] in b && SameLine(a[i], b[i]);
      SameLineSameUser(a[i], b[i], m, n);
    }
  }

  lemma AgreeThenSameLists(a: seq<User>, b: seq<User>, m: Users, n: Users)
    requires ListsUsers(a, m) && ListsUsers(b, n) && Agree(Same, m, n)
    ensures SameList(a, b)
  {
    EmailsAreKeys(a, m);
    EmailsAreKeys(b, n);
    assert forall e :: e in m <==> e in n;
    IncreasingUnique(Emails(a), Emails(b));
    assert |a| == |Emails(a)| == |Emails(b)| == |b|;
    forall i | 0 <= i < |a| ensures SameLine(a[i], b[i])
    {
      assert a[i].email == Emails(a)[i] == Emails(b)[i] == b[i].email;
      assert a[i] in a && b[i] in b;
      EqualFoldIsLowerEquality(b[i].uuid, a[i].uuid);
    }
  }

  predicate AllDistinct(users: seq<User>) { forall i, j :: 0 <= i < j < |users| ==> users[i].email != users[j].email }

  lemma {:induction false} KeptMembers(ns: seq<User>, n: nat)
    requires n <= |ns|
    ensures forall u :: u in KeptUpTo(ns, n) <==> Hashed(u) && u in ns[..n]
  {
    if n > 0 {
      KeptMembers(ns, n - 1);
      assert ns[..n] == ns[..n - 1] + [ns[n - 1]];
    }
  }

  lemma {:induction false} KeptDistinct(ns: seq<User>, n: nat)
    requires n <= |ns| && DistinctEmails(ns)
    ensures AllDistinct(KeptUpTo(ns, n))
  {
    if n > 0 {
      KeptDistinct(ns, n - 1);
      KeptMembers(ns, n - 1);
      var kept := KeptUpTo(ns, n - 1);
      forall i | 0 <= i < |kept| ensures kept[i].email != ns[n - 1].email {
        assert kept[i] in kept;
        var j :| 0 <= j < n - 1 && ns[j] == kept[i];
      }
    }
  }

  // Equal elements at two places show up in the multiset.
  lemma DistinctSorted(sorted: seq<User>, kept: seq<User>)
    requires SortedByEmail(sorted) && multiset(sorted) == multiset(kept)
    requires AllDistinct(kept)
    ensures forall i, j :: 0 <= i < j < |sorted| ==> Less(sorted[i].email, sorted[j].email)
  {
    forall i, j | 0 <= i < j < |sorted| ensures Less(sorted[i].email, sorted[j].email) {
      LessTotal(sorted[i].email, sorted[j].email);
      if sorted[i].email == sorted[j].email {
        assert sorted[i] in multiset(kept) && sorted[j] in multiset(kept);
        var a :| 0 <= a < |kept| && kept[a] == sorted[i];
        var b :| 0 <= b < |kept| && kept[b] == sorted[j];
        assert a == b;
        MultiplicityTwo(sorted, i, j);
        MultiplicityOne(kept, a);
      }
    }
  }

  lemma MultiplicityTwo(s: seq<User>, i: nat, j: nat)
    requires i < j < |s| && s[i] == s[j]
    ensures multiset(s)[s[i]] >= 2
  {
    assert s == s[..j] + s[j..] && s[i] in s[..j] && s[i] in s[j..];
    assert multiset(s) == multiset(s[..j]) + multiset(s[j..]);
  }

  lemma MultiplicityOne(s: seq<User>, a: nat)
    requires a < |s| && forall i :: 0 <= i < |s| && i != a ==> s[i] != s[a]
    ensures multiset(s)[s[a]] == 1
  {
    assert s == s[..a] + [s[a]] + s[a + 1..] && s[a] !in s[..a] && s[a] !in s[a + 1..];
    assert multiset(s) == multiset(s[..a]) + multiset{s[a]} + multiset(s[a + 1..]);
  }

  lemma KeptIsVisible(ns: seq<User>, u: User)
    requires DistinctEmails(ns)
    requires u in KeptUpTo(ns, |ns|)
    ensures Describes(u, Visible(IndexUpTo(ns, |ns|)))
  {
    KeptMembers(ns, |ns|);
    IndexHoldsEach(ns, |ns|);
    var i :| 0 <= i < |ns| && ns[i] == u;
    assert Describes(ns[i], IndexUpTo(ns, |ns|));
  }

  lemma VisibleIsKept(ns: seq<User>, e: string)
    requires e in Visible(IndexUpTo(ns, |ns|))
    ensures exists u :: u in KeptUpTo(ns, |ns|) && u.email == e
  {
    IndexOrigin(ns, |ns|, e);
    KeptMembers(ns, |ns|);
    var all := IndexUpTo(ns, |ns|);
    var i :| 0 <= i < |ns| && ns[i].email == e && all[e] == Identity(ns[i].uuid, ns[i].flow);
    assert ns[i] in ns[..|ns|];
  }

  lemma SortLists(kept: seq<User>, sorted: seq<User>, users: Users)
    requires SortedByEmail(sorted) && multiset(sorted) == multiset(kept)
    requires AllDistinct(kept)
    requires forall u :: u in kept ==> Describes(u, users)
    requires forall e :: e in users ==> exists u :: u in kept && u.email == e
    ensures ListsUsers(sorted, users)
  {
    DistinctSorted(sorted, kept);
    forall u ensures u in sorted <==> u in kept {
      assert u in multiset(sorted) <==> u in multiset(kept);
    }
    forall e | e in users ensures exists u :: u in sorted && u.email == e {
      var u :| u in kept && u.email == e;
      assert u in sorted;
    }
  }

  // The hash input of distinct users lists what the map shows.
  lemma HashInputLists(ns: seq<User>, kept: seq<User>, sorted: seq<User>, users: Users)
    requires DistinctEmails(ns) && IsSortOfKept(sorted, ns)
    requires kept == KeptUpTo(ns, |ns|) && users == Visible(IndexUpTo(ns, |ns|))
    ensures ListsUsers(sorted, users)
  {
    KeptDistinct(ns, |ns|);
    forall u | u in kept ensures Describes(u, users) {
      KeptIsVisible(ns, u);
    }
    forall e | e in users ensures exists u :: u in kept && u.email == e {
      VisibleIsKept(ns, e);
    }
    SortLists(kept, sorted, users);
  }

  ghost predicate Injective(hash: string -> string) { forall x, y :: hash(x) == hash(y) ==> x == y }

  // Distinct e-mails, and no NUL in any field.
  ghost predicate Hashable(users: seq<User>) {
    DistinctEmails(Normalized(users)) && NulFreeUsers(ByEmail(users))
  }

  lemma TextsAgree(a: seq<User>, b: seq<User>, m: Users, n: Users)
    requires ListsUsers(a, m) && ListsUsers(b, n) && NulFreeUsers(m) && NulFreeUsers(n)
    ensures DigestText(a) == DigestText(b) <==> Agree(Same, m, n)
  {
    TextDecidesList(a, b);
    if SameList(a, b) {
      SameListsThenAgree(a, b, m, n);
    }
    if Agree(Same, m, n) {
      AgreeThenSameLists(a, b, m, n);
    }
  }

  /** The hash is exact for what it sees: it tells two sets of users apart if and only if a
      user that has a UUID differs. */
  lemma HashesAgree(a: seq<User>, b: seq<User>, x: string, y: string, hash: string -> string)
    requires Injective(hash) && IsHashInput(a, x) && IsHashInput(b, y)
    requires Hashable(a) && Hashable(b)
    ensures hash(x) == hash(y) <==> Agree(Same, Visible(ByEmail(a)), Visible(ByEmail(b)))
  {
    var s :| IsSortOfKept(s, Normalized(a)) && x == DigestText(s);
    var t :| IsSortOfKept(t, Normalized(b)) && y == DigestText(t);
    HashInputLists(Normalized(a), KeptUpTo(Normalized(a), |a|), s, Visible(ByEmail(a)));
    HashInputLists(Normalized(b), KeptUpTo(Normalized(b), |b|), t, Visible(ByEmail(b)));
    TextsAgree(s, t, Visible(ByEmail(a)), Visible(ByEmail(b)));
  }

  // What the hash cannot see of a map of users.
  function Hidden(users: Users): Users { map e | e in users && (e == "" || users[e].uuid == "") :: users[e] }

  // A user without a UUID agrees only with another one.
  lemma SameSight(a: Identity, b: Identity)
    requires Same(a, b)
    ensures a.uuid == "" <==> b.uuid == ""
  {
    EqualFoldIsLowerEquality(a.uuid, b.uuid);
    assert |ToLower(a.uuid)| == |ToLower(b.uuid)|;
  }

  lemma AgreeInParts(target: Users, runtime: Users)
    requires Agree(Same, target, runtime)
    ensures Agree(Same, Visible(target), Visible(runtime)) && Agree(Same, Hidden(target), Hidden(runtime))
  {
    forall e | e in target ensures target[e].uuid == "" <==> runtime[e].uuid == "" {
      SameSight(runtime[e], target[e]);
    }
    assert Visible(target).Keys == Visible(runtime).Keys;
    assert Hidden(target).Keys == Hidden(runtime).Keys;
  }

  lemma PartsAgree(target: Users, runtime: Users)
    requires Agree(Same, Visible(target), Visible(runtime)) && Agree(Same, Hidden(target), Hidden(runtime))
    ensures Agree(Same, target, runtime)
  {
    assert target.Keys == Visible(target).Keys + Hidden(target).Keys;
    assert runtime.Keys == Visible(runtime).Keys + Hidden(runtime).Keys;
    forall e | e in target ensures Same(runtime[e], target[e]) {
      assert e in Visible(target) || e in Hidden(target);
    }
  }

  predicate AllHaveUUIDs(users: Users) { forall e :: e in users ==> e != "" && users[e].uuid != "" }

  lemma NothingHidden(users: Users)
    ensures AllHaveUUIDs(users) <==> Hidden(users) == map[]
  {
    if Hidden(users) == map[] {
      forall e | e in users ensures e != "" && users[e].uuid != "" { assert e !in Hidden(users); }
    }
  }

  /** The fast path never misses that both loops would do nothing, and where it skips them they
      would indeed do nothing if and only if the users without a UUID agree.  So it decides
      exactly whether there is something to do if and only if they agree or the hashes differ. */
  lemma FastPathIsExact(target: seq<User>, runtime: seq<User>, x: string, y: string, hash: string -> string)
    requires Injective(hash) && IsHashInput(target, x) && IsHashInput(runtime, y)
    requires Hashable(target) && Hashable(runtime)
    ensures var same, hiddenSame := Agree(Same, ByEmail(target), ByEmail(runtime)),
                                    Agree(Same, Hidden(ByEmail(target)), Hidden(ByEmail(runtime)));
            && (same ==> hash(x) == hash(y))
            && (hash(x) == hash(y) ==> (same <==> hiddenSame))
            && ((hash(x) == hash(y) <==> same) <==> hash(x) != hash(y) || hiddenSame)
  {
    var t, r := ByEmail(target), ByEmail(runtime);
    HashesAgree(target, runtime, x, y, hash);
    if Agree(Same, t, r) {
      AgreeInParts(t, r);
    }
    if hash(x) == hash(y) && Agree(Same, Hidden(t), Hidden(r)) {
      PartsAgree(t, r);
    }
  }

  // A target without a UUID, and an empty runtime: invisible to the hash but not to the loops.
  lemma EmptyUUIDHidesADifference(email: string, x: string, y: string)
    requires email != "" && Trimmed(email)
    requires IsHashInput([User(email, "", "")], x) && IsHashInput([], y)
    ensures x == y && !Agree(Same, ByEmail([User(email, "", "")]), ByEmail([]))
  {
    TrimmedIsFixed(email);
    TrimmedIsFixed("");
    var ns, none := Normalized([User(email, "", "")]), Normalized([]);
    assert ns == [User(email, "", "")] && none == [];
    assert KeptUpTo(ns, 1) == KeptUpTo(ns, 0) == [];
    var s :| IsSortOfKept(s, ns) && x == DigestText(s);
    var t :| IsSortOfKept(t, none) && y == DigestText(t);
    assert |s| == |multiset(s)| == 0 && |t| == |multiset(t)| == 0;
    assert email in IndexUpTo(ns, 1) && ByEmail([]) == map[];
  }
}
