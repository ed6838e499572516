/** internal/httpapi/server.go over internal/store/store.go: whatever the handlers do in any
    interleaving, they do to the token table by the store's own statements; so what holds of every
    sequence of statements holds of them. */
module AuthHandlers {
  import opened AuthSessions
  import T = AuthTokens
  import opened AuthTokens
  import opened Results
  import opened Runs

  // The statement on the token table that an event runs, if it runs one.
  function StatementOf(s: Sys, e: Event): seq<Op> {
    match e
    case LoginCreate(i, newId, hash, expiresAt) =>
      if i >= |s.logins| || !Unused(s, newId, hash) then []
      else [Mint(s.customers.Keys, newId, LoginGrant(s.logins[i], hash, expiresAt))]
    case AdminLogin(subject, version, newId, hash, expiresAt) =>
      if !Unused(s, newId, hash) then []
      else [Mint(s.customers.Keys, newId, AdminGrant(subject, version, hash, expiresAt))]
    case RefreshRotate(i, newId, hash, expiresAt, now) =>
      if i >= |s.refreshes| || !s.refreshes[i].CustomerRead? || !Unused(s, newId, hash) then []
      else [Rotation(s.customers.Keys, s.refreshes[i].token.id, newId, RefreshGrant(s.refreshes[i], hash, expiresAt), now)]
    case Revoke(w, at) => [Revocation(w, at)]
    case Expire(cutoff) => [Cleanup(cutoff)]
    case _ => []
  }

  function Statements(): (Sys, Event) -> seq<Op> { (s: Sys, e: Event) => StatementOf(s, e) }

  // All statements of a run, in order.
  function Ops(rules: Rules, s: Sys, events: seq<Event>): seq<Op> {
    Collect(Step(rules), s, events, |events|, Statements())
  }

  // The history `t` of statements led to the rows in `s`, and every id it gave out is used up.
  predicate Tracks(t: Table, s: Sys) { t.rows == s.tokens && t.born.Keys <= s.used }

  lemma MintTracked(t: Table, s: Sys, grant: Grant, newId: Id, hash: string, u: Sys)
    requires Tracks(t, s) && Unused(s, newId, hash)
    requires u.tokens == OrElse(Create(s.tokens, s.customers.Keys, NewToken(grant), newId), s.tokens)
    requires u.used == s.used + {newId, hash}
    ensures Tracks(Execute(t, Mint(s.customers.Keys, newId, grant)), u)
  {
    assert T.Fresh(t, newId);
  }

  lemma RotationTracked(t: Table, s: Sys, current: Id, grant: Grant, newId: Id, hash: string, at: Time, u: Sys)
    requires Tracks(t, s) && Unused(s, newId, hash)
    requires u.tokens == OrElse(Rotate(s.tokens, s.customers.Keys, current, NewToken(grant), newId, at), s.tokens)
    requires u.used == s.used + {newId, hash}
    ensures Tracks(Execute(t, Rotation(s.customers.Keys, current, newId, grant, at)), u)
  {
    assert T.Fresh(t, newId);
  }

  predicate Quiet(e: Event) { !e.LoginCreate? && !e.AdminLogin? && !e.RefreshRotate? && !e.Revoke? && !e.Expire? }

  lemma QuietLeavesTokens(rules: Rules, s: Sys, e: Event)
    requires Quiet(e)
    ensures Next(rules, s, e).tokens == s.tokens && s.used <= Next(rules, s, e).used && StatementOf(s, e) == []
  {
  }

  ghost predicate EventTracked(rules: Rules, t: Table, s: Sys, e: Event) {
    var ops := StatementOf(s, e);
    |ops| <= 1 && Tracks(MaybeOne(Executes(), t, ops), Next(rules, s, e))
  }

  lemma LoginTracked(rules: Rules, t: Table, s: Sys, e: Event)
    requires Tracks(t, s) && e.LoginCreate?
    ensures EventTracked(rules, t, s, e)
  {
    if e.i < |s.logins| && Unused(s, e.newId, e.hash) {
      MintTracked(t, s, LoginGrant(s.logins[e.i], e.hash, e.expiresAt), e.newId, e.hash, Next(rules, s, e));
    }
  }

  lemma AdminTracked(rules: Rules, t: Table, s: Sys, e: Event)
    requires Tracks(t, s) && e.AdminLogin?
    ensures EventTracked(rules, t, s, e)
  {
    if Unused(s, e.newId, e.hash) {
      MintTracked(t, s, AdminGrant(e.subject, e.version, e.hash, e.expiresAt), e.newId, e.hash, Next(rules, s, e));
    }
  }

  lemma RefreshTracked(rules: Rules, t: Table, s: Sys, e: Event)
    requires Tracks(t, s) && e.RefreshRotate?
    ensures EventTracked(rules, t, s, e)
  {
    if e.i < |s.refreshes| && s.refreshes[e.i].CustomerRead? && Unused(s, e.newId, e.hash) {
      var r := s.refreshes[e.i];
      RotationTracked(t, s, r.token.id, RefreshGrant(r, e.hash, e.expiresAt), e.newId, e.hash, e.now, Next(rules, s, e));
    }
  }

  // Every read and write of a handler is at most one statement of the store.
  lemma StepTracked(rules: Rules, t: Table, s: Sys, e: Event)
    requires Tracks(t, s)
    ensures EventTracked(rules, t, s, e)
  {
    if Quiet(e) {
      QuietLeavesTokens(rules, s, e);
    } else {
      match e
      case LoginCreate(_, _, _, _) => LoginTracked(rules, t, s, e);
      case AdminLogin(_, _, _, _, _) => AdminTracked(rules, t, s, e);
      case RefreshRotate(_, _, _, _, _) => RefreshTracked(rules, t, s, e);
      case _ =>
    }
  }

  /** Refinement: in every interleaving of the handlers the token table is what the statements they
      run make of it, one after the other. */
  lemma HandlersRunStatements(rules: Rules, t: Table, s: Sys, events: seq<Event>)
    requires Tracks(t, s)
    ensures Tracks(After(Executes(), t, Ops(rules, s, events)), After(Step(rules), s, events))
  {
    forall x: Sys, y: Table, e: Event | Tracks(y, x)
      ensures |Statements()(x, e)| <= 1 && Tracks(MaybeOne(Executes(), y, Statements()(x, e)), Step(rules)(x, e))
    {
      StepTracked(rules, y, x, e);
    }
    Refines(Step(rules), s, events, |events|, Statements(), Executes(), t, Tracks);
  }

  /** One live token per login, in every interleaving of logins, refreshes, log-outs, revocations,
      customer updates and cleanups; and a row is enabled exactly while it is unrevoked. */
  lemma OneLiveTokenInEveryInterleaving(rules: Rules, events: seq<Event>)
    ensures var t := After(Executes(), EMPTY, Ops(rules, START, events));
            && Tracks(t, After(Step(rules), START, events))
            && t.rows.Keys <= t.family.Keys && OneLive(t) && EnabledMeansUnrevoked(t)
  {
    HandlersRunStatements(rules, EMPTY, START, events);
    OneLiveTokenPerLogin(Ops(rules, START, events));
  }

  // Some history of statements led to the rows in `s`.
  ghost predicate Historic(s: Sys) { exists t :: Tracks(t, s) && T.Sound(t) }

  lemma ReachableIsHistoric(rules: Rules, events: seq<Event>)
    ensures Historic(After(Step(rules), START, events))
  {
    HandlersRunStatements(rules, EMPTY, START, events);
    RunKeeps(EMPTY, Ops(rules, START, events));
  }

  lemma StepIsHistoric(rules: Rules, s: Sys, e: Event, u: Sys)
    requires Historic(s) && u == Next(rules, s, e)
    ensures Historic(u)
  {
    var t :| Tracks(t, s) && T.Sound(t);
    StepTracked(rules, t, s, e);
    if StatementOf(s, e) != [] {
      StatementKeeps(t, StatementOf(s, e)[0]);
    }
  }

  /** In every interleaving a row, once revoked, is never changed again. */
  lemma RevokedStaysInEveryInterleaving(rules: Rules, s: Sys, events: seq<Event>, id: Id)
    requires Historic(s) && id in s.tokens && s.tokens[id].revokedAt.Some?
    ensures var u := After(Step(rules), s, events);
            id in u.tokens ==> u.tokens[id] == s.tokens[id]
  {
    var t :| Tracks(t, s) && T.Sound(t);
    HandlersRunStatements(rules, t, s, events);
    WrittenOnce(t, Ops(rules, s, events), id);
  }

  lemma RotatedIsSpent(tokens: Tokens, customers: set<Id>, current: Id, next: Token, newId: Id, at: Time)
    requires next.id == "" && newId != ""
    ensures var made := Rotate(tokens, customers, current, next, newId, at);
            made.Ok? ==> current in made.value && made.value[current].revokedAt == Some(at)
  {
    if Rotate(tokens, customers, current, next, newId, at).Ok? {
      RotationReplaces(customers, tokens, current, next, newId, at);
    }
  }

  lemma RotationSpends(s: Sys, i: nat, newId: Id, hash: string, expiresAt: Time, now: Time)
    requires i < |s.refreshes| && RotateStep(s, i, newId, hash, expiresAt, now).tokens != s.tokens
    ensures var u, current := RotateStep(s, i, newId, hash, expiresAt, now), s.refreshes[i].token.id;
            current in u.tokens && u.tokens[current].revokedAt == Some(now)
  {
    var r := s.refreshes[i];
    RotatedIsSpent(s.tokens, s.customers.Keys, r.token.id, NewToken(RefreshGrant(r, hash, expiresAt)), newId, now);
  }

  lemma SpentIsRefused(u: Sys, j: nat, newId: Id, hash: string, expiresAt: Time, now: Time)
    requires j < |u.refreshes| && u.refreshes[j].token.id in u.tokens ==> u.tokens[u.refreshes[j].token.id].revokedAt.Some?
    ensures j < |u.refreshes| ==> RotateStep(u, j, newId, hash, expiresAt, now).tokens == u.tokens
  {
  }

  lemma NextRotates(rules: Rules, s: Sys, i: nat, newId: Id, hash: string, expiresAt: Time, now: Time)
    ensures Next(rules, s, RefreshRotate(i, newId, hash, expiresAt, now)) == RotateStep(s, i, newId, hash, expiresAt, now)
  {
  }

  /** A refresh token is exchanged at most once, however refreshes overlap: once a refresh has
      rotated a row, no refresh in flight then or later rotates it again. */
  lemma ExchangedOnce(rules: Rules, s: Sys, i: nat, newId: Id, hash: string, expiresAt: Time, now: Time,
                      events: seq<Event>, j: nat, otherId: Id, otherHash: string, otherExpiry: Time, later: Time)
    requires Historic(s) && i < |s.refreshes| && RotateStep(s, i, newId, hash, expiresAt, now).tokens != s.tokens
    ensures var u := After(Step(rules), RotateStep(s, i, newId, hash, expiresAt, now), events);
            j < |u.refreshes| && u.refreshes[j].token.id == s.refreshes[i].token.id ==>
              RotateStep(u, j, otherId, otherHash, otherExpiry, later).tokens == u.tokens
  {
    var s1, id := RotateStep(s, i, newId, hash, expiresAt, now), s.refreshes[i].token.id;
    NextRotates(rules, s, i, newId, hash, expiresAt, now);
    StepIsHistoric(rules, s, RefreshRotate(i, newId, hash, expiresAt, now), s1);
    RotationSpends(s, i, newId, hash, expiresAt, now);
    SpentRefusedAfter(rules, s1, events, id, j, otherId, otherHash, otherExpiry, later);
  }

  lemma SpentRefusedAfter(rules: Rules, s: Sys, events: seq<Event>, id: Id, j: nat, newId: Id, hash: string,
                          expiresAt: Time, now: Time)
    requires Historic(s) && id in s.tokens && s.tokens[id].revokedAt.Some?
    ensures var u := After(Step(rules), s, events);
            j < |u.refreshes| && u.refreshes[j].token.id == id ==> RotateStep(u, j, newId, hash, expiresAt, now).tokens == u.tokens
  {
    var u := After(Step(rules), s, events);
    RevokedStaysInEveryInterleaving(rules, s, events, id);
    if j < |u.refreshes| && u.refreshes[j].token.id == id {
      SpentIsRefused(u, j, newId, hash, expiresAt, now);
    }
  }
}
