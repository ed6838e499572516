/** internal/httpapi/server.go: who gets past the reads of a login and of a refresh, under the
    server's own rules, and what every rotation of a run goes back to. */
module AuthAccess {
  import opened AuthSessions
  import opened AuthTokens
  import Domain
  import opened Ordering
  import opened Results
  import opened Runs
  import opened Text

  // The text whose mac is a customer's session version.
  function VersionText(row: CustomerRow): string {
    [NUL] + "customer" + [NUL] + row.id + [NUL] + row.email + [NUL] + row.passwordHash + [NUL] + row.epoch
  }

  lemma VersionExactly(mac: (string, string) -> string, key: string, adminVersion: string, row: CustomerRow)
    ensures ServerRules(mac, key, adminVersion).version(row) == mac(key, VersionText(row))
  {
    var ps := Parts(row);
    assert PrefixedUpTo(ps, 0) == "";
    assert PrefixedUpTo(ps, 1) == [NUL] + "customer";
    assert PrefixedUpTo(ps, 2) == PrefixedUpTo(ps, 1) + [NUL] + row.id;
    assert PrefixedUpTo(ps, 3) == PrefixedUpTo(ps, 2) + [NUL] + row.email;
    assert PrefixedUpTo(ps, 4) == PrefixedUpTo(ps, 3) + [NUL] + row.passwordHash;
    assert PrefixedUpTo(ps, 5) == PrefixedUpTo(ps, 4) + [NUL] + row.epoch;
  }

  // ---- One read ----

  // A customer who may be logged in at `now`: active, not expired, and with a password.
  predicate MayLogIn(row: CustomerRow, now: Time) {
    ToLower(TrimSpace(row.status)) == "active" && (row.expiresAt.None? || row.expiresAt.value > now) && row.passwordHash != ""
  }

  // The customer that a token is for.
  predicate OwnedBy(customers: map<Id, CustomerRow>, token: Token, row: CustomerRow) {
    token.customer == Some(token.subject) && token.subject in customers && customers[token.subject] == row
  }

  lemma PrincipalExactly(mac: (string, string) -> string, key: string, adminVersion: string, s: Sys, token: Token, now: Time)
    ensures var version := PrincipalOf(ServerRules(mac, key, adminVersion), s, token, now);
            && (token.principal.Customer? ==>
                  (version.Some? <==> exists row :: OwnedBy(s.customers, token, row) && MayLogIn(row, now) &&
                                                    token.version == mac(key, VersionText(row))))
            && (token.principal.Admin? ==>
                  (version.Some? <==> token.subject == "configured-admin" && token.version == adminVersion))
            && (version.Some? ==> version.value == token.version)
            && (!token.principal.Customer? && !token.principal.Admin? ==> version.None?)
  {
    if token.subject in s.customers {
      VersionExactly(mac, key, adminVersion, s.customers[token.subject]);
      assert token.customer == Some(token.subject) ==> OwnedBy(s.customers, token, s.customers[token.subject]);
    }
  }

  /** A refresh gets past its read of the customer if and only if the token's subject is its
      customer, that customer exists, is active, has not expired and has a password, and its version
      is the token's; otherwise the refresh is over. */
  lemma CustomerReadExactly(mac: (string, string) -> string, key: string, adminVersion: string, s: Sys, i: nat, now: Time)
    requires i < |s.refreshes| && s.refreshes[i].TokenRead? && s.refreshes[i].token.principal.Customer?
    ensures var u, t := ReadStep(ServerRules(mac, key, adminVersion), s, i, now), s.refreshes[i].token;
            if && t.customer == Some(t.subject) && t.subject in s.customers
               && ToLower(TrimSpace(s.customers[t.subject].status)) == "active"
               && (s.customers[t.subject].expiresAt.None? || s.customers[t.subject].expiresAt.value > now)
               && s.customers[t.subject].passwordHash != ""
               && t.version == mac(key, VersionText(s.customers[t.subject]))
            then u == s.(refreshes := s.refreshes[i := CustomerRead(t, t.version)])
            else u == s.(refreshes := s.refreshes[..i] + s.refreshes[i + 1..])
  {
    PrincipalExactly(mac, key, adminVersion, s, s.refreshes[i].token, now);
  }

  /** An administrator's refresh gets past it if and only if subject and version are the configured ones. */
  lemma AdminReadExactly(mac: (string, string) -> string, key: string, adminVersion: string, s: Sys, i: nat, now: Time)
    requires i < |s.refreshes| && s.refreshes[i].TokenRead? && s.refreshes[i].token.principal.Admin?
    ensures var u, t := ReadStep(ServerRules(mac, key, adminVersion), s, i, now), s.refreshes[i].token;
            if t.subject == "configured-admin" && t.version == adminVersion
            then u == s.(refreshes := s.refreshes[i := CustomerRead(t, t.version)])
            else u == s.(refreshes := s.refreshes[..i] + s.refreshes[i + 1..])
  {
    PrincipalExactly(mac, key, adminVersion, s, s.refreshes[i].token, now);
  }

  /** A login goes on if and only if the customer exists, is active, has not expired and has a
      password, and the password given is right; and it goes on with the customer's version. */
  lemma LoginReadExactly(mac: (string, string) -> string, key: string, adminVersion: string, s: Sys, customer: Id, now: Time,
                         passwordOk: bool)
    ensures var u := Next(ServerRules(mac, key, adminVersion), s, LoginRead(customer, now, passwordOk));
            if && customer in s.customers && ToLower(TrimSpace(s.customers[customer].status)) == "active"
               && (s.customers[customer].expiresAt.None? || s.customers[customer].expiresAt.value > now)
               && s.customers[customer].passwordHash != "" && passwordOk
            then u == s.(logins := s.logins + [Login(customer, mac(key, VersionText(s.customers[customer])))])
            else u == s
  {
    if customer in s.customers {
      VersionExactly(mac, key, adminVersion, s.customers[customer]);
    }
  }

  /** A refresh begins if and only if its row is there, enabled, unrevoked and not expired. */
  lemma TokenReadExactly(rules: Rules, s: Sys, id: Id, now: Time)
    ensures var u := Next(rules, s, RefreshReadToken(id, now));
            if && id in s.tokens && s.tokens[id].enabled && s.tokens[id].revokedAt.None?
               && s.tokens[id].expiresAt.Some? && s.tokens[id].expiresAt.value > now
            then u == s.(refreshes := s.refreshes + [TokenRead(s.tokens[id])])
            else u == s
  {
  }

  // ---- What a rotation goes back to ----

  // The state before event `n` of a run.
  function At(rules: Rules, events: seq<Event>, n: nat): Sys
    requires n <= |events|
  {
    Run(Step(rules), START, events, n)
  }

  // Before event `n` of a run, the token was read, live and not expired.
  ghost predicate TokenWasRead(rules: Rules, events: seq<Event>, n: nat, token: Token)
    requires n <= |events|
  {
    exists k :: 0 <= k < n && TokenReadAt(rules, events, k, token)
  }

  ghost predicate TokenReadAt(rules: Rules, events: seq<Event>, k: nat, token: Token)
    requires k < |events|
  {
    && events[k].RefreshReadToken?
    && events[k].id in At(rules, events, k).tokens
    && At(rules, events, k).tokens[events[k].id] == token
    && token.enabled && token.revokedAt.None? && token.expiresAt.Some? && token.expiresAt.value > events[k].now
  }

  // ... and after that the customer, who passed.
  ghost predicate CustomerReadAt(rules: Rules, events: seq<Event>, k: nat, token: Token, version: string)
    requires k < |events|
  {
    && events[k].RefreshReadCustomer?
    && PrincipalOf(rules, At(rules, events, k), token, events[k].now) == Some(version)
    && TokenWasRead(rules, events, k, token)
  }

  ghost predicate WasRead(rules: Rules, events: seq<Event>, n: nat, r: Refresh)
    requires n <= |events|
  {
    match r
    case TokenRead(token) => TokenWasRead(rules, events, n, token)
    case CustomerRead(token, version) => exists k :: 0 <= k < n && CustomerReadAt(rules, events, k, token, version)
  }

  // A refresh in flight was in flight before, or has just made its read.
  lemma RefreshesCome(rules: Rules, s: Sys, e: Event, r: Refresh)
    requires r in Next(rules, s, e).refreshes && r !in s.refreshes
    ensures r.TokenRead? ==> e.RefreshReadToken? && e.id in s.tokens && s.tokens[e.id] == r.token && Refreshable(r.token, e.now)
    ensures r.CustomerRead? ==>
      e.RefreshReadCustomer? && TokenRead(r.token) in s.refreshes && PrincipalOf(rules, s, r.token, e.now) == Some(r.version)
  {
    match e
    case RefreshReadToken(id, now) =>
    case RefreshReadCustomer(i, now) => ReadComes(rules, s, i, now, r);
    case RefreshRotate(_, _, _, _, _) =>
    case _ =>
  }

  lemma ReadComes(rules: Rules, s: Sys, i: nat, now: Time, r: Refresh)
    requires r in ReadStep(rules, s, i, now).refreshes && r !in s.refreshes
    ensures r.CustomerRead? && TokenRead(r.token) in s.refreshes && PrincipalOf(rules, s, r.token, now) == Some(r.version)
  {
    assert s.refreshes[i] in s.refreshes;
  }

  lemma WasReadStays(rules: Rules, events: seq<Event>, n: nat, m: nat, r: Refresh)
    requires n <= m <= |events| && WasRead(rules, events, n, r)
    ensures WasRead(rules, events, m, r)
  {
  }

  lemma NewWasRead(rules: Rules, events: seq<Event>, n: nat, r: Refresh)
    requires n < |events|
    requires AllWereRead(rules, events, n)
    requires r in At(rules, events, n + 1).refreshes && r !in At(rules, events, n).refreshes
    ensures WasRead(rules, events, n + 1, r)
  {
    var s := At(rules, events, n);
    RefreshesCome(rules, s, events[n], r);
    match r
    case TokenRead(token) => assert TokenReadAt(rules, events, n, token);
    case CustomerRead(token, version) =>
      assert WasRead(rules, events, n, TokenRead(token));
      assert CustomerReadAt(rules, events, n, token, version);
  }

  ghost predicate AllWereRead(rules: Rules, events: seq<Event>, n: nat)
    requires n <= |events|
  {
    forall r {:trigger WasRead(rules, events, n, r)} :: r in At(rules, events, n).refreshes ==> WasRead(rules, events, n, r)
  }

  lemma EachWasRead(rules: Rules, events: seq<Event>, n: nat, r: Refresh)
    requires n < |events| && AllWereRead(rules, events, n) && r in At(rules, events, n + 1).refreshes
    ensures WasRead(rules, events, n + 1, r)
  {
    if r in At(rules, events, n).refreshes {
      assert WasRead(rules, events, n, r);
      WasReadStays(rules, events, n, n + 1, r);
    } else {
      NewWasRead(rules, events, n, r);
    }
  }

  lemma {:induction false} RefreshesWereRead(rules: Rules, events: seq<Event>, n: nat)
    requires n <= |events|
    ensures AllWereRead(rules, events, n)
  {
    if n > 0 {
      RefreshesWereRead(rules, events, n - 1);
      forall r | r in At(rules, events, n - 1 + 1).refreshes ensures WasRead(rules, events, n, r) {
        EachWasRead(rules, events, n - 1, r);
      }
    }
  }

  lemma RotationsWereRead(rules: Rules, events: seq<Event>, m: nat)
    requires m < |events| && events[m].RefreshRotate?
    requires At(rules, events, m + 1).tokens != At(rules, events, m).tokens
    ensures var s := At(rules, events, m);
            && events[m].i < |s.refreshes| && s.refreshes[events[m].i].CustomerRead?
            && WasRead(rules, events, m, s.refreshes[events[m].i])
  {
    var s, e := At(rules, events, m), events[m];
    assert At(rules, events, m + 1) == RotateStep(s, e.i, e.newId, e.hash, e.expiresAt, e.now);
    RefreshesWereRead(rules, events, m);
    assert s.refreshes[e.i] in s.refreshes;
  }

  // Event `h` read the token, live and not expired, and event `k` then read its customer: the one
  // the token is about, active, not expired, with a password and with the token's version.
  ghost predicate Allowed(mac: (string, string) -> string, key: string, rules: Rules, events: seq<Event>, h: nat, k: nat,
                          t: Token, row: CustomerRow)
    requires h < |events| && k < |events|
  {
    && events[h].RefreshReadToken? && events[k].RefreshReadCustomer?
    && events[h].id in At(rules, events, h).tokens && At(rules, events, h).tokens[events[h].id] == t
    && t.enabled && t.revokedAt.None? && t.expiresAt.Some? && t.expiresAt.value > events[h].now
    && t.customer == Some(t.subject)
    && t.subject in At(rules, events, k).customers && At(rules, events, k).customers[t.subject] == row
    && ToLower(TrimSpace(row.status)) == "active" && (row.expiresAt.None? || row.expiresAt.value > events[k].now)
    && row.passwordHash != "" && t.version == mac(key, VersionText(row))
  }

  /** Every rotation of a customer's token, in every interleaving, goes back to these two reads. */
  lemma RotationsWereAllowed(mac: (string, string) -> string, key: string, adminVersion: string, events: seq<Event>, m: nat)
    requires m < |events| && events[m].RefreshRotate?
    requires var rules := ServerRules(mac, key, adminVersion);
             At(rules, events, m + 1).tokens != At(rules, events, m).tokens
    ensures var rules := ServerRules(mac, key, adminVersion);
            && events[m].i < |At(rules, events, m).refreshes|
            && var t := At(rules, events, m).refreshes[events[m].i].token;
               t.principal.Customer? ==>
                 exists h: nat, k: nat, row :: h < k < m && Allowed(mac, key, rules, events, h, k, t, row)
  {
    var rules := ServerRules(mac, key, adminVersion);
    RotationsWereRead(rules, events, m);
    var r := At(rules, events, m).refreshes[events[m].i];
    if r.token.principal.Customer? {
      var k: nat :| k < m && CustomerReadAt(rules, events, k, r.token, r.version);
      ReadWasAllowed(mac, key, adminVersion, events, k, r.token, r.version);
    }
  }

  lemma ReadWasAllowed(mac: (string, string) -> string, key: string, adminVersion: string, events: seq<Event>, k: nat, t: Token,
                       version: string)
    requires k < |events| && t.principal.Customer?
    requires CustomerReadAt(ServerRules(mac, key, adminVersion), events, k, t, version)
    ensures exists h: nat, row :: h < k && Allowed(mac, key, ServerRules(mac, key, adminVersion), events, h, k, t, row)
  {
    var rules := ServerRules(mac, key, adminVersion);
    var h: nat :| h < k && TokenReadAt(rules, events, h, t);
    PrincipalExactly(mac, key, adminVersion, At(rules, events, k), t, events[k].now);
    var row :| OwnedBy(At(rules, events, k).customers, t, row) && MayLogIn(row, events[k].now) &&
               t.version == mac(key, VersionText(row));
    assert Allowed(mac, key, rules, events, h, k, t, row);
  }
}
