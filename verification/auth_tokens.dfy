/** internal/store/store.go and internal/store/maintenance.go: the table of refresh tokens, the
    statements that change it, and what every sequence of statements keeps.

    A statement, or a transaction that locks the row it reads, is one step.  Handlers that
    read a token and act on it later only ever change the table through these steps. */
module AuthTokens {
  import opened Results
  import opened Runs

  type Id = string

  type Time = int

  datatype Principal = Unset | Admin | Customer | Unknown

  // The address and user agent of the last use are carried along but never read.
  datatype Token = Token(id: Id, principal: Principal, customer: Option<Id>, subject: string, version: string,
                         hash: string, enabled: bool, expiresAt: Option<Time>, usedAt: Option<Time>,
                         revokedAt: Option<Time>, replacedBy: Id)

  type Tokens = map<Id, Token>

  // RotateAuthRefreshToken accepts the row.
  predicate Live(t: Token) { t.enabled && t.revokedAt.None? }

  // A refresh at `now` accepts the row.
  predicate Refreshable(t: Token, now: Time) { Live(t) && t.expiresAt.Some? && t.expiresAt.value > now }

  // ---- Statements ----

  // What both inserting methods demand of a new row, defaults already filled in.
  predicate WellMade(t: Token) {
    && t.version != "" && t.hash != "" && t.expiresAt.Some?
    && ((t.principal.Customer? && t.customer.Some?) || (t.principal.Admin? && t.customer.None?))
  }

  predicate HashTaken(tokens: Tokens, hash: string) { exists k :: k in tokens && tokens[k].hash == hash }

  // INSERT with the primary key, the unique index and the foreign key.
  function Inserted(tokens: Tokens, customers: set<Id>, t: Token): Result<Tokens> {
    if t.id in tokens || HashTaken(tokens, t.hash) then Err(Conflict)
    else if t.customer.Some? && t.customer.value !in customers then Err(Invalid)
    else Ok(tokens[t.id := t])
  }

  function WithId(t: Token, newId: Id): Token { if t.id == "" then t.(id := newId) else t }

  // What a handler decides about a new row ...
  datatype Grant = Grant(principal: Principal, customer: Option<Id>, subject: string, version: string, hash: string,
                         expiresAt: Time)

  // ... and the row as logins and refreshes hand it over: no id yet, and never used.
  function NewToken(g: Grant): Token {
    Token("", g.principal, g.customer, g.subject, g.version, g.hash, true, Some(g.expiresAt), None, None, "")
  }

  // A revoked row; `next` names its replacement, if any.
  function Revoked(t: Token, at: Time, next: Id): Token {
    t.(enabled := false, usedAt := Some(at), revokedAt := Some(at), replacedBy := next)
  }

  // What the next row takes over from the one it replaces.
  function Succeeding(current: Token, next: Token, newId: Id): Token {
    WithId(next, newId).(
      principal := if next.principal.Unset? then current.principal else next.principal,
      subject := if next.subject == "" then current.subject else next.subject,
      customer := if next.customer.None? then current.customer else next.customer,
      enabled := true)
  }

  function Create(tokens: Tokens, customers: set<Id>, token: Token, newId: Id): Result<Tokens> {
    var t := WithId(token, newId);
    if t.subject == "" || !WellMade(t) then Err(Invalid)
    else Inserted(tokens, customers, t.(enabled := true))
  }

  function Rotate(tokens: Tokens, customers: set<Id>, current: Id, next: Token, newId: Id, at: Time): Result<Tokens> {
    if current !in tokens then Err(NotFound)
    else if !Live(tokens[current]) then Err(Invalid)
    else
      var t := Succeeding(tokens[current], next, newId);
      if !WellMade(t) then Err(Invalid)
      else Inserted(tokens[current := Revoked(tokens[current], at, t.id)], customers, t)
  }

  // Whom a revocation is for: a log-out, all sessions of a customer, all of the administrators.
  datatype Whose = ByHash(hash: string) | OfCustomer(customer: Id) | OfAdmins

  predicate Names(w: Whose, t: Token) {
    match w
    case ByHash(hash) => t.hash == hash
    case OfCustomer(customer) => t.principal.Customer? && t.customer == Some(customer)
    case OfAdmins => t.principal.Admin?
  }

  // The WHERE clause.
  predicate Picks(w: Whose, t: Token) { Names(w, t) && t.revokedAt.None? }

  function RevokeWhere(tokens: Tokens, w: Whose, at: Time): Tokens {
    map k | k in tokens :: if Picks(w, tokens[k]) then Revoked(tokens[k], at, tokens[k].replacedBy) else tokens[k]
  }

  /** A revocation ends every session it names and touches no other: no row it names can be rotated
      afterwards, rows it does not name and rows revoked before stay as they were, the others keep
      all but the marks of their end, and a second revocation finds nothing to do. */
  lemma RevocationEndsSessions(tokens: Tokens, customers: set<Id>, w: Whose, at: Time, id: Id, next: Token, newId: Id, later: Time)
    requires id in tokens
    ensures var after := RevokeWhere(tokens, w, at);
            && after.Keys == tokens.Keys
            && (Names(w, tokens[id]) ==> Names(w, after[id]) && Rotate(after, customers, id, next, newId, later).Err?)
            && (after[id] == tokens[id] <==> !Names(w, tokens[id]) || tokens[id].revokedAt.Some?)
            && after[id].(enabled := tokens[id].enabled, usedAt := tokens[id].usedAt, revokedAt := tokens[id].revokedAt) == tokens[id]
            && (after[id] != tokens[id] ==> after[id].revokedAt == Some(at))
            && RevokeWhere(after, w, later) == after
  {
    var after := RevokeWhere(tokens, w, at);
    forall k | k in after ensures !Picks(w, after[k]) {
      assert k in tokens;
    }
  }

  // A row whose session has just been ended.
  function Ended(t: Token, at: Time): Token { t.(enabled := false, usedAt := Some(at), revokedAt := Some(at)) }

  /** The rows that each of the three revocations changes, and what it changes in them. */
  lemma RevokedExactly(tokens: Tokens, at: Time, hash: string, customer: Id, k: Id)
    requires k in tokens
    ensures var t := tokens[k];
            && RevokeWhere(tokens, ByHash(hash), at).Keys == tokens.Keys
            && RevokeWhere(tokens, OfCustomer(customer), at).Keys == tokens.Keys
            && RevokeWhere(tokens, OfAdmins, at).Keys == tokens.Keys
            && RevokeWhere(tokens, ByHash(hash), at)[k] == (if t.hash == hash && t.revokedAt.None? then Ended(t, at) else t)
            && RevokeWhere(tokens, OfCustomer(customer), at)[k] ==
               (if t.principal == Customer && t.customer == Some(customer) && t.revokedAt.None? then Ended(t, at) else t)
            && RevokeWhere(tokens, OfAdmins, at)[k] == (if t.principal == Admin && t.revokedAt.None? then Ended(t, at) else t)
  {
  }

  /** When a row can be made, and the row that is made. */
  lemma CreatedExactly(tokens: Tokens, customers: set<Id>, t: Token, newId: Id)
    ensures var made, id := Create(tokens, customers, t, newId), if t.id == "" then newId else t.id;
            && (made.Ok? <==>
                && t.subject != "" && t.version != "" && t.hash != "" && t.expiresAt.Some?
                && ((t.principal == Customer && t.customer.Some? && t.customer.value in customers) ||
                    (t.principal == Admin && t.customer.None?))
                && id !in tokens && forall k :: k in tokens ==> tokens[k].hash != t.hash)
            && (made.Ok? ==> made.value == tokens[id := t.(id := id, enabled := true)])
  {
  }

  /** When a row can be exchanged for another: it is enabled and unrevoked, and the other one, with
      what it takes over, can be made; then both rows are as said, and no other changes. */
  lemma ExchangedExactly(tokens: Tokens, customers: set<Id>, current: Id, next: Token, newId: Id, at: Time)
    requires current in tokens
    ensures var made, id, c := Rotate(tokens, customers, current, next, newId, at), if next.id == "" then newId else next.id,
                               tokens[current];
            var principal, customer := if next.principal == Unset then c.principal else next.principal,
                                       if next.customer.None? then c.customer else next.customer;
            && (made.Ok? <==>
                && c.enabled && c.revokedAt.None?
                && next.version != "" && next.hash != "" && next.expiresAt.Some?
                && ((principal == Customer && customer.Some? && customer.value in customers) ||
                    (principal == Admin && customer.None?))
                && id !in tokens && forall k :: k in tokens ==> tokens[k].hash != next.hash)
            && (made.Ok? ==>
                  made.value ==
                  tokens[current := Ended(c, at).(replacedBy := id)]
                        [id := next.(id := id, principal := principal, customer := customer, enabled := true,
                                     subject := if next.subject == "" then c.subject else next.subject)])
  {
    var id := if next.id == "" then newId else next.id;
    var tx := tokens[current := Revoked(tokens[current], at, id)];
    assert HashTaken(tx, next.hash) <==> HashTaken(tokens, next.hash) by {
      forall k | k in tokens ensures tx[k].hash == tokens[k].hash { }
    }
  }

  predicate Old(t: Token, cutoff: Time) {
    (t.expiresAt.Some? && t.expiresAt.value < cutoff) || (t.revokedAt.Some? && t.revokedAt.value < cutoff)
  }

  function Purge(tokens: Tokens, cutoff: Time): Tokens { map k | k in tokens && !Old(tokens[k], cutoff) :: tokens[k] }

  // ---- The table as the store keeps it ----

  class Store {
    var tokens: Tokens
    var customers: set<Id>

    constructor (customers: set<Id>)
      ensures tokens == map[] && this.customers == customers
    {
      tokens, this.customers := map[], customers;
    }

    method CreateAuthRefreshToken(token: Token, newId: Id) returns (r: Result<Token>)
      modifies this`tokens
      ensures var made := Create(old(tokens), customers, token, newId);
              && (r.Ok? <==> made.Ok?)
              && (r.Ok? ==> tokens == made.value && r.value.id in tokens && tokens[r.value.id] == r.value)
              && (r.Err? ==> tokens == old(tokens) && r.error == made.error)
    {
      var t := token;
      if t.id == "" {
        t := t.(id := newId);
      }
      if t.principal.Unset? || t.subject == "" || t.version == "" || t.hash == "" || t.expiresAt.None? {
        return Err(Invalid);
      }
      if !t.principal.Admin? && !t.principal.Customer? {
        return Err(Invalid);
      }
      if t.principal.Customer? && t.customer.None? {
        return Err(Invalid);
      }
      if t.principal.Admin? && t.customer.Some? {
        return Err(Invalid);
      }
      t := t.(enabled := true);
      var inserted := Inserted(tokens, customers, t);
      if inserted.Err? {
        return Err(inserted.error);
      }
      tokens := inserted.value;
      r := Ok(t);
    }

    method GetAuthRefreshTokenByHash(hash: string) returns (r: Result<Token>)
      ensures r.Ok? <==> HashTaken(tokens, hash)
      ensures r.Ok? ==> r.value.hash == hash && exists k :: k in tokens && tokens[k] == r.value
      ensures r.Err? ==> r.error == NotFound
    {
      if k :| k in tokens && tokens[k].hash == hash {
        return Ok(tokens[k]);
      }
      r := Err(NotFound);
    }

    // The defaults a rotation takes over, and the enabled flag it sets once they are checked.
    static method FillIn(current: Token, next: Token, newId: Id) returns (n: Token)
      ensures n == Succeeding(current, next, newId)
    {
      n := next;
      if n.id == "" {
        n := n.(id := newId);
      }
      if n.principal.Unset? {
        n := n.(principal := current.principal);
      }
      if n.subject == "" {
        n := n.(subject := current.subject);
      }
      if n.customer.None? && current.customer.Some? {
        n := n.(customer := current.customer);
      }
      n := n.(enabled := true);
    }

    // The transaction works on its own view of the table, which an error discards.
    method RotateAuthRefreshToken(currentId: Id, next: Token, newId: Id, usedAt: Time) returns (r: Result<Token>)
      modifies this`tokens
      ensures var made := Rotate(old(tokens), customers, currentId, next, newId, usedAt);
              && (r.Ok? <==> made.Ok?)
              && (r.Ok? ==> tokens == made.value && r.value.id in tokens && tokens[r.value.id] == r.value)
              && (r.Err? ==> tokens == old(tokens) && r.error == made.error)
    {
      if currentId !in tokens {
        return Err(NotFound);
      }
      var current := tokens[currentId];
      if !current.enabled || current.revokedAt.Some? {
        return Err(Invalid);
      }
      var n := FillIn(current, next, newId);
      if n.hash == "" || n.version == "" || n.expiresAt.None? {
        return Err(Invalid);
      }
      if !n.principal.Admin? && !n.principal.Customer? {
        return Err(Invalid);
      }
      if n.principal.Customer? && n.customer.None? {
        return Err(Invalid);
      }
      if n.principal.Admin? && n.customer.Some? {
        return Err(Invalid);
      }
      var tx := tokens[currentId := Revoked(current, usedAt, n.id)];
      var inserted := Inserted(tx, customers, n);
      if inserted.Err? {
        return Err(inserted.error);
      }
      tokens := inserted.value;
      r := Ok(n);
    }

    // A hash that names no row, or a revoked one, is not an error.
    method RevokeAuthRefreshTokenByHash(hash: string, revokedAt: Time)
      requires forall j, k :: j in tokens && k in tokens && tokens[j].hash == tokens[k].hash ==> j == k
      modifies this`tokens
      ensures tokens == RevokeWhere(old(tokens), ByHash(hash), revokedAt)
    {
      if k :| k in tokens && tokens[k].hash == hash {
        if tokens[k].revokedAt.None? {
          tokens := tokens[k := Revoked(tokens[k], revokedAt, tokens[k].replacedBy)];
        }
      }
    }

    // One UPDATE; `count` is its number of affected rows.
    method RevokeAuthRefreshTokens(w: Whose, revokedAt: Time) returns (count: nat)
      requires !w.ByHash?
      modifies this`tokens
      ensures tokens == RevokeWhere(old(tokens), w, revokedAt)
      ensures forall k :: k in tokens && Names(w, tokens[k]) ==> tokens[k].revokedAt.Some? && !Live(tokens[k])
      ensures forall k :: k in old(tokens) && !Names(w, old(tokens)[k]) ==> k in tokens && tokens[k] == old(tokens)[k]
      ensures count == |set k | k in tokens && tokens[k] != old(tokens)[k]|
    {
      var rows := set k | k in tokens && Picks(w, tokens[k]);
      count := |rows|;
      tokens := RevokeWhere(tokens, w, revokedAt);
      assert rows == set k | k in tokens && tokens[k] != old(tokens)[k];
    }

    method RevokeCustomerAuthRefreshTokens(customer: Id, revokedAt: Time) returns (count: nat)
      modifies this`tokens
      ensures tokens == RevokeWhere(old(tokens), OfCustomer(customer), revokedAt)
      ensures tokens.Keys == old(tokens).Keys
      ensures forall k :: k in tokens ==>
        tokens[k] == (var t := old(tokens)[k];
                      if t.principal == Customer && t.customer == Some(customer) && t.revokedAt.None? then Ended(t, revokedAt) else t)
      ensures count == |set k | k in tokens && tokens[k] != old(tokens)[k]|
    {
      count := RevokeAuthRefreshTokens(OfCustomer(customer), revokedAt);
    }

    method RevokeAdminAuthRefreshTokens(revokedAt: Time) returns (count: nat)
      modifies this`tokens
      ensures tokens == RevokeWhere(old(tokens), OfAdmins, revokedAt)
      ensures tokens.Keys == old(tokens).Keys
      ensures forall k :: k in tokens ==>
        tokens[k] == (var t := old(tokens)[k];
                      if t.principal == Admin && t.revokedAt.None? then Ended(t, revokedAt) else t)
      ensures count == |set k | k in tokens && tokens[k] != old(tokens)[k]|
    {
      count := RevokeAuthRefreshTokens(OfAdmins, revokedAt);
    }
  }

  // ---- Histories of the table ----

  // The table with what the proofs remember: how many rows were ever made and, for each of
  // their ids, how many were made before it and which login its family of rotations began with.
  datatype Table = Table(rows: Tokens, made: nat, born: map<Id, nat>, family: map<Id, Id>)

  // The statements of the store, each with the customers there are when it runs.
  datatype Op =
    | Mint(customers: set<Id>, id: Id, grant: Grant)
    | Rotation(customers: set<Id>, current: Id, id: Id, grant: Grant, at: Time)
    | Revocation(w: Whose, at: Time)
    | Cleanup(cutoff: Time)

  // Random ids are fresh: they name no row there ever was.
  predicate Fresh(t: Table, id: Id) { id != "" && id !in t.born }

  function Execute(t: Table, op: Op): Table {
    match op
    case Mint(customers, id, grant) =>
      var made := Create(t.rows, customers, NewToken(grant), id);
      if !Fresh(t, id) || made.Err? then t
      else Table(made.value, t.made + 1, t.born[id := t.made], t.family[id := id])
    case Rotation(customers, current, id, grant, at) =>
      var made := Rotate(t.rows, customers, current, NewToken(grant), id, at);
      if !Fresh(t, id) || made.Err? then t
      else Table(made.value, t.made + 1, t.born[id := t.made],
                 t.family[id := if current in t.family then t.family[current] else id])
    case Revocation(w, at) => t.(rows := RevokeWhere(t.rows, w, at))
    case Cleanup(cutoff) => t.(rows := Purge(t.rows, cutoff))
  }

  function Executes(): (Table, Op) -> Table { (t: Table, op: Op) => Execute(t, op) }

  // ---- What every statement keeps ----

  predicate Identified(t: Table) {
    && t.family.Keys == t.born.Keys
    && (forall k {:trigger t.rows[k]} {:trigger k in t.rows} :: k in t.rows ==> t.rows[k].id == k && k in t.born)
    && (forall k {:trigger t.born[k]} :: k in t.born ==> t.born[k] < t.made)
    && (forall k {:trigger t.family[k]} :: k in t.family ==> t.family[k] in t.born)
    && "" !in t.born
  }

  // Every row is enabled exactly while it is not revoked.
  predicate EnabledMeansUnrevoked(t: Table) {
    forall k :: k in t.rows ==> (t.rows[k].enabled <==> t.rows[k].revokedAt.None?)
  }

  // One live token per login.
  predicate OneLive(t: Table)
    requires t.rows.Keys <= t.family.Keys
  {
    forall j, k {:trigger Live(t.rows[j]), Live(t.rows[k])} ::
      j in t.rows && k in t.rows && Live(t.rows[j]) && Live(t.rows[k]) && t.family[j] == t.family[k] ==> j == k
  }

  // A replacement is made later than what it replaces, and only dead rows are replaced.
  predicate LinksForward(t: Table)
    requires t.rows.Keys <= t.born.Keys
  {
    forall k {:trigger t.rows[k].replacedBy} :: k in t.rows && t.rows[k].replacedBy != "" ==>
      t.rows[k].replacedBy in t.born && t.born[k] < t.born[t.rows[k].replacedBy] && t.rows[k].revokedAt.Some?
  }

  predicate HashesUnique(t: Table) {
    forall j, k :: j in t.rows && k in t.rows && t.rows[j].hash == t.rows[k].hash ==> j == k
  }

  predicate Sound(t: Table) {
    Identified(t) && t.rows.Keys <= t.born.Keys && EnabledMeansUnrevoked(t) && OneLive(t) && LinksForward(t) && HashesUnique(t)
  }

  // A row after a statement: as it was, or revoked just now, perhaps in favour of `n`.
  predicate RowFollows(a: Token, b: Token, n: Id) {
    || b == a
    || (a.revokedAt.None? && b.revokedAt.Some? && !b.enabled && b.id == a.id && b.hash == a.hash &&
        (b.replacedBy == a.replacedBy || b.replacedBy == n))
  }

  predicate NewRow(t: Token, n: Id) { t.id == n && t.enabled && t.revokedAt.None? && t.replacedBy == "" }

  predicate RowsFollow(rows: Tokens, after: Tokens, n: Id) {
    && "" !in after
    && (forall k :: k in after && k != n ==> k in rows && RowFollows(rows[k], after[k], n))
    && (n != "" ==> n in after && NewRow(after[n], n))
  }

  predicate MarksFollow(t: Table, u: Table, n: Id, f: Id) {
    if n == "" then u.made == t.made && u.born == t.born && u.family == t.family
    else
      && n !in t.born && u.made == t.made + 1 && u.born == t.born[n := t.made] && u.family == t.family[n := f]
      && (f in t.born || f == n)
  }

  // A new row is the only live one of its family.
  predicate OnlyLive(t: Table, u: Table, n: Id, f: Id) {
    n != "" ==> forall k :: k in u.rows && k != n && k in t.family && t.family[k] == f ==> !Live(u.rows[k])
  }

  predicate NewHash(after: Tokens, n: Id) {
    n in after ==> forall k :: k in after && k != n ==> after[k].hash != after[n].hash
  }

  // The table after a statement that makes the row `n` in the family `f`, or no row if `n` is empty.
  predicate Follows(t: Table, u: Table, n: Id, f: Id) {
    RowsFollow(t.rows, u.rows, n) && MarksFollow(t, u, n, f) && OnlyLive(t, u, n, f) && NewHash(u.rows, n)
  }

  lemma FollowsIds(t: Table, after: Tokens, born: map<Id, nat>, n: Id)
    requires forall k :: k in t.rows ==> t.rows[k].id == k && k in t.born
    requires RowsFollow(t.rows, after, n) && t.born.Keys <= born.Keys && (n != "" ==> n in born)
    ensures forall k :: k in after ==> after[k].id == k && k in born
  {
    forall k | k in after ensures after[k].id == k && k in born {
      if k != n {
        assert k in t.rows && RowFollows(t.rows[k], after[k], n);
      }
    }
  }

  lemma FollowsBorn(t: Table, u: Table, n: Id, f: Id)
    requires Identified(t) && MarksFollow(t, u, n, f)
    ensures u.family.Keys == u.born.Keys && "" !in u.born && (n != "" ==> n in u.born)
    ensures forall k {:trigger u.born[k]} :: k in u.born ==> u.born[k] < u.made
  {
  }

  lemma FollowsFamily(t: Table, u: Table, n: Id, f: Id)
    requires Identified(t) && MarksFollow(t, u, n, f)
    ensures t.born.Keys <= u.born.Keys
    ensures forall k {:trigger u.family[k]} :: k in u.family ==> u.family[k] in u.born
  {
    forall k | k in u.family ensures u.family[k] in u.born {
      if n != "" && k == n {
        assert u.family[k] == f;
      } else {
        assert u.family[k] == t.family[k];
      }
    }
  }

  lemma FollowsIdentified(t: Table, u: Table, n: Id, f: Id)
    requires Identified(t) && Follows(t, u, n, f)
    ensures Identified(u) && u.rows.Keys <= u.born.Keys
  {
    FollowsBorn(t, u, n, f);
    FollowsFamily(t, u, n, f);
    FollowsIds(t, u.rows, u.born, n);
  }

  lemma FollowsEnabled(t: Table, u: Table, n: Id)
    requires EnabledMeansUnrevoked(t) && RowsFollow(t.rows, u.rows, n)
    ensures EnabledMeansUnrevoked(u)
  {
    forall k | k in u.rows ensures u.rows[k].enabled <==> u.rows[k].revokedAt.None? {
      assert k != n ==> k in t.rows && RowFollows(t.rows[k], u.rows[k], n);
    }
  }

  lemma FollowsOneLive(t: Table, u: Table, n: Id, f: Id)
    requires t.rows.Keys <= t.family.Keys && OneLive(t) && u.rows.Keys <= u.family.Keys
    requires RowsFollow(t.rows, u.rows, n) && MarksFollow(t, u, n, f) && OnlyLive(t, u, n, f)
    ensures OneLive(u)
  {
    forall j, k | j in u.rows && k in u.rows && Live(u.rows[j]) && Live(u.rows[k]) && u.family[j] == u.family[k]
      ensures j == k
    {
      if j != n && k != n {
        assert RowFollows(t.rows[j], u.rows[j], n) && RowFollows(t.rows[k], u.rows[k], n);
        assert Live(t.rows[j]) && Live(t.rows[k]);
      }
    }
  }

  lemma LinkFollows(t: Table, u: Table, n: Id, f: Id, k: Id)
    requires Identified(t) && k in t.rows && k in u.rows && k != n && RowFollows(t.rows[k], u.rows[k], n)
    requires MarksFollow(t, u, n, f)
    requires t.rows[k].replacedBy != "" ==>
      t.rows[k].replacedBy in t.born && t.born[k] < t.born[t.rows[k].replacedBy] && t.rows[k].revokedAt.Some?
    ensures var r := u.rows[k].replacedBy;
            r != "" ==> r in u.born && k in u.born && u.born[k] < u.born[r] && u.rows[k].revokedAt.Some?
  {
    assert t.born[k] < t.made;
  }

  lemma FollowsLinks(t: Table, u: Table, n: Id, f: Id)
    requires Identified(t) && t.rows.Keys <= t.born.Keys && LinksForward(t) && u.rows.Keys <= u.born.Keys
    requires RowsFollow(t.rows, u.rows, n) && MarksFollow(t, u, n, f)
    ensures LinksForward(u)
  {
    forall k | k in u.rows && u.rows[k].replacedBy != ""
      ensures u.rows[k].replacedBy in u.born && u.born[k] < u.born[u.rows[k].replacedBy] && u.rows[k].revokedAt.Some?
    {
      assert k != n && k in t.rows && RowFollows(t.rows[k], u.rows[k], n);
      assert t.rows[k].replacedBy == t.rows[k].replacedBy;
      LinkFollows(t, u, n, f, k);
    }
  }

  lemma FollowsHashes(t: Table, u: Table, n: Id)
    requires HashesUnique(t) && RowsFollow(t.rows, u.rows, n) && NewHash(u.rows, n)
    ensures HashesUnique(u)
  {
    forall j, k | j in u.rows && k in u.rows && u.rows[j].hash == u.rows[k].hash ensures j == k {
      if j != n && k != n {
        assert RowFollows(t.rows[j], u.rows[j], n) && RowFollows(t.rows[k], u.rows[k], n);
      }
    }
  }

  lemma FollowsSound(t: Table, u: Table, n: Id, f: Id)
    requires Sound(t) && Follows(t, u, n, f)
    ensures Sound(u)
  {
    FollowsIdentified(t, u, n, f);
    FollowsEnabled(t, u, n);
    FollowsOneLive(t, u, n, f);
    FollowsLinks(t, u, n, f);
    FollowsHashes(t, u, n);
  }

  // What a successful insertion of a new row amounts to.
  predicate Adds(t: Table, u: Table, row: Token) {
    && row.id !in t.rows && (forall k :: k in t.rows ==> t.rows[k].hash != row.hash)
    && u == Table(t.rows[row.id := row], t.made + 1, t.born[row.id := t.made], t.family[row.id := row.id])
  }

  lemma MintAdds(t: Table, customers: set<Id>, id: Id, grant: Grant)
    ensures var u := Execute(t, Mint(customers, id, grant));
            u == t || (Fresh(t, id) && Adds(t, u, NewToken(grant).(id := id)))
  {
    var u := Execute(t, Mint(customers, id, grant));
    if u != t {
      assert !HashTaken(t.rows, grant.hash);
    }
  }

  lemma AddingFollows(t: Table, u: Table, row: Token)
    requires Identified(t) && Fresh(t, row.id) && Adds(t, u, row) && NewRow(row, row.id)
    ensures Follows(t, u, row.id, row.id)
  {
  }

  lemma MintKeeps(t: Table, customers: set<Id>, id: Id, grant: Grant)
    requires Sound(t)
    ensures Sound(Execute(t, Mint(customers, id, grant)))
  {
    var u := Execute(t, Mint(customers, id, grant));
    MintAdds(t, customers, id, grant);
    if u != t {
      AddingFollows(t, u, NewToken(grant).(id := id));
      FollowsSound(t, u, id, id);
    }
  }

  // What a successful rotation does to the rows.
  predicate Replaces(rows: Tokens, after: Tokens, current: Id, next: Token, at: Time) {
    && current in rows && Live(rows[current]) && next.id !in rows && next.id != current
    && after == rows[current := Revoked(rows[current], at, next.id)][next.id := next]
    && (forall k :: k in rows ==> rows[k].hash != next.hash)
  }

  lemma RotationReplaces(customers: set<Id>, rows: Tokens, current: Id, next: Token, newId: Id, at: Time)
    requires next.id == "" && newId != "" && Rotate(rows, customers, current, next, newId, at).Ok?
    ensures current in rows && Succeeding(rows[current], next, newId).id == newId
    ensures Replaces(rows, Rotate(rows, customers, current, next, newId, at).value, current,
                     Succeeding(rows[current], next, newId), at)
  {
    var tx := rows[current := Revoked(rows[current], at, newId)];
    assert !HashTaken(tx, next.hash);
    forall k | k in rows ensures rows[k].hash != next.hash {
      assert tx[k].hash == rows[k].hash;
    }
  }

  lemma OnlyNextLives(t: Table, u: Table, current: Id, next: Token, at: Time)
    requires t.rows.Keys <= t.family.Keys && OneLive(t) && current in t.family
    requires Replaces(t.rows, u.rows, current, next, at)
    ensures OnlyLive(t, u, next.id, t.family[current])
  {
    forall k | k in u.rows && k != next.id && k in t.family && t.family[k] == t.family[current] ensures !Live(u.rows[k]) {
      if k != current {
        assert u.rows[k] == t.rows[k];
        assert !(Live(t.rows[current]) && Live(t.rows[k]));
      }
    }
  }

  lemma ReplacedRowsFollow(rows: Tokens, after: Tokens, current: Id, next: Token, at: Time)
    requires "" !in rows && forall k :: k in rows ==> rows[k].id == k
    requires Replaces(rows, after, current, next, at) && NewRow(next, next.id) && next.id != ""
    ensures RowsFollow(rows, after, next.id) && NewHash(after, next.id)
  {
  }

  lemma RotationFollows(t: Table, u: Table, current: Id, next: Token, at: Time)
    requires Sound(t) && Fresh(t, next.id) && Replaces(t.rows, u.rows, current, next, at) && NewRow(next, next.id)
    requires current in t.family && MarksFollow(t, u, next.id, t.family[current])
    ensures Follows(t, u, next.id, t.family[current])
  {
    OnlyNextLives(t, u, current, next, at);
    ReplacedRowsFollow(t.rows, u.rows, current, next, at);
  }

  lemma RotationKeeps(t: Table, customers: set<Id>, current: Id, id: Id, grant: Grant, at: Time)
    requires Sound(t) && Fresh(t, id) && Rotate(t.rows, customers, current, NewToken(grant), id, at).Ok?
    ensures Sound(Execute(t, Rotation(customers, current, id, grant, at)))
  {
    var u := Execute(t, Rotation(customers, current, id, grant, at));
    RotationReplaces(customers, t.rows, current, NewToken(grant), id, at);
    assert current in t.born && t.family[current] in t.born;
    RotationFollows(t, u, current, Succeeding(t.rows[current], NewToken(grant), id), at);
    FollowsSound(t, u, id, t.family[current]);
  }

  lemma RevocationFollows(t: Table, w: Whose, at: Time)
    requires "" !in t.rows
    ensures Follows(t, t.(rows := RevokeWhere(t.rows, w, at)), "", "")
  {
  }

  lemma CleanupFollows(t: Table, cutoff: Time)
    requires "" !in t.rows
    ensures Follows(t, t.(rows := Purge(t.rows, cutoff)), "", "")
  {
  }

  // Statements that make no row.
  lemma UpdateKeeps(t: Table, op: Op)
    requires Sound(t) && (op.Revocation? || op.Cleanup?)
    ensures Sound(Execute(t, op))
  {
    if op.Revocation? {
      RevocationFollows(t, op.w, op.at);
    } else {
      CleanupFollows(t, op.cutoff);
    }
    FollowsSound(t, Execute(t, op), "", "");
  }

  lemma StatementKeeps(t: Table, op: Op)
    requires Sound(t)
    ensures Sound(Execute(t, op))
  {
    match op
    case Mint(customers, id, grant) => MintKeeps(t, customers, id, grant);
    case Rotation(customers, current, id, grant, at) =>
      if Fresh(t, id) && Rotate(t.rows, customers, current, NewToken(grant), id, at).Ok? {
        RotationKeeps(t, customers, current, id, grant, at);
      }
    case _ => UpdateKeeps(t, op);
  }

  ghost function SoundNow(): Table -> bool { (t: Table) => Sound(t) }

  lemma RunKeeps(t: Table, ops: seq<Op>)
    requires Sound(t)
    ensures Sound(After(Executes(), t, ops))
  {
    forall x: Table, op: Op | SoundNow()(x) ensures SoundNow()(Executes()(x, op)) {
      StatementKeeps(x, op);
    }
    Invariant(Executes(), t, ops, |ops|, SoundNow());
  }

  const EMPTY: Table := Table(map[], 0, map[], map[])

  /** One live token per login, in every sequence of statements: of the rows that descend from one
      login at most one can still be refreshed, and a row is enabled exactly while it is unrevoked. */
  lemma OneLiveTokenPerLogin(ops: seq<Op>)
    ensures var t := After(Executes(), EMPTY, ops);
            t.rows.Keys <= t.family.Keys && OneLive(t) && EnabledMeansUnrevoked(t)
  {
    RunKeeps(EMPTY, ops);
  }

  // ---- Written once ----

  // Once revoked, a row never changes again; deleted, it never comes back.
  predicate Frozen(id: Id, row: Token, t: Table) { id in t.born && (id in t.rows ==> t.rows[id] == row) }

  lemma StatementFreezes(t: Table, op: Op, id: Id, row: Token)
    requires Frozen(id, row, t) && row.revokedAt.Some?
    ensures Frozen(id, row, Execute(t, op))
  {
  }

  ghost function FrozenNow(id: Id, row: Token): Table -> bool { (t: Table) => Frozen(id, row, t) }

  /** revoked_at and replaced_by_id are written at most once: whatever statements follow, a
      revoked row is as it was when it was revoked, or deleted for good. */
  lemma WrittenOnce(t: Table, ops: seq<Op>, id: Id)
    requires id in t.rows && id in t.born && t.rows[id].revokedAt.Some?
    ensures Frozen(id, t.rows[id], After(Executes(), t, ops))
  {
    var row := t.rows[id];
    forall x: Table, op: Op | FrozenNow(id, row)(x) ensures FrozenNow(id, row)(Executes()(x, op)) {
      StatementFreezes(x, op, id, row);
    }
    Invariant(Executes(), t, ops, |ops|, FrozenNow(id, row));
  }

  lemma RotationRevokes(t: Table, customers: set<Id>, current: Id, id: Id, grant: Grant, at: Time)
    requires Identified(t) && Fresh(t, id) && Rotate(t.rows, customers, current, NewToken(grant), id, at).Ok?
    ensures var u := Execute(t, Rotation(customers, current, id, grant, at));
            current in u.rows && current in u.born && u.rows[current] == Revoked(t.rows[current], at, id)
  {
  }

  /** A token can be exchanged once: after a successful rotation no rotation of it succeeds. */
  lemma RotatedOnce(t: Table, customers: set<Id>, current: Id, id: Id, grant: Grant, at: Time, ops: seq<Op>,
                    others: set<Id>, again: Token, againId: Id, later: Time)
    requires Identified(t) && Fresh(t, id) && Rotate(t.rows, customers, current, NewToken(grant), id, at).Ok?
    ensures var then_ := After(Executes(), Execute(t, Rotation(customers, current, id, grant, at)), ops);
            Rotate(then_.rows, others, current, again, againId, later).Err?
  {
    RotationRevokes(t, customers, current, id, grant, at);
    WrittenOnce(Execute(t, Rotation(customers, current, id, grant, at)), ops, current);
  }

  // ---- Links ----

  predicate Linked(t: Table, path: seq<Id>) {
    forall i {:trigger path[i]} :: 0 <= i < |path| - 1 ==>
      path[i] in t.rows && path[i] != "" && t.rows[path[i]].replacedBy == path[i + 1] && path[i + 1] != ""
  }

  lemma {:induction false} LinksClimb(t: Table, path: seq<Id>, n: nat)
    requires Sound(t) && Linked(t, path) && 0 < n < |path|
    ensures path[n] in t.born && path[0] in t.born && t.born[path[0]] < t.born[path[n]]
  {
    assert path[n - 1] in t.rows && t.rows[path[n - 1]].replacedBy == path[n];
    if n > 1 {
      LinksClimb(t, path, n - 1);
    }
  }

  /** Following replacement links never leads back to the start. */
  lemma NoLinkCycle(ops: seq<Op>, path: seq<Id>)
    requires |path| > 1 && Linked(After(Executes(), EMPTY, ops), path)
    ensures path[0] != path[|path| - 1]
  {
    RunKeeps(EMPTY, ops);
    LinksClimb(After(Executes(), EMPTY, ops), path, |path| - 1);
  }

  // ---- Cleanup ----

  /** A cleanup, whose cutoff lies a positive retention before its own time, deletes no row that
      a refresh at that time or later would accept, and deletes exactly the old ones. */
  lemma CleanupSparesRefreshable(tokens: Tokens, id: Id, cleanupAt: Time, retention: int, now: Time)
    requires retention > 0 && now >= cleanupAt && id in tokens
    ensures var cutoff := cleanupAt - retention;
            && (Refreshable(tokens[id], now) ==> id in Purge(tokens, cutoff) && Purge(tokens, cutoff)[id] == tokens[id])
            && (id !in Purge(tokens, cutoff) <==>
                  (tokens[id].expiresAt.Some? && tokens[id].expiresAt.value < cutoff) ||
                  (tokens[id].revokedAt.Some? && tokens[id].revokedAt.value < cutoff))
  {
  }
}
