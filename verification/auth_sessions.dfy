/** internal/httpapi/server.go: logins, refreshes and customer updates as sequences of separate
    reads and writes that interleave freely.

    Two updates of one customer do not overlap between their read and their save.  Customers
    are not deleted. */
module AuthSessions {
  import opened AuthTokens
  import Domain
  import opened Ordering
  import opened Results
  import opened Runs
  import opened Text

  datatype CustomerRow = CustomerRow(id: Id, email: string, displayName: string, passwordHash: string, epoch: string,
                                     status: string, expiresAt: Option<Time>)

  // What the handlers compute from a row, and which rows the database can hold.
  datatype Rules = Rules(version: CustomerRow -> string, canLogin: (CustomerRow, Time) -> bool,
                         admin: Token -> bool, storable: CustomerRow -> bool)

  // The version names the epoch, and does not depend on the display name.
  ghost predicate VersionRule(rules: Rules) {
    && (forall a, b :: rules.storable(a) && rules.storable(b) && rules.version(a) == rules.version(b) ==> a.epoch == b.epoch)
    && (forall a: CustomerRow, name :: rules.version(a.(displayName := name)) == rules.version(a))
  }

  // The fields present in a PATCH.
  datatype Change = Change(email: Option<string>, displayName: Option<string>, password: Option<string>,
                           status: Option<string>, expiresAt: Option<Option<Time>>, reset: bool)

  predicate Bumps(change: Change) {
    change.email.Some? || change.password.Some? || change.status.Some? || change.expiresAt.Some? || change.reset
  }

  function Or<T>(field: Option<T>, current: T): T { if field.Some? then field.value else current }

  // The row an update saves: the row it read with the fields of the PATCH, and a new epoch
  // unless only the display name may have changed.
  function Patched(row: CustomerRow, change: Change, epoch: string): CustomerRow {
    CustomerRow(row.id, Or(change.email, row.email), Or(change.displayName, row.displayName),
                Or(change.password, row.passwordHash), if Bumps(change) then epoch else row.epoch,
                Or(change.status, row.status), Or(change.expiresAt, row.expiresAt))
  }

  predicate Sets<T(==)>(field: Option<T>, before: T, after: T) {
    match field
    case Some(v) => after == v
    case None => after == before
  }

  /** A PATCH sets exactly the fields it carries, and a customer whose e-mail, password, status or
      expiry it changes, or whose reset it asks for, gets the new epoch; any other keeps its own. */
  lemma PatchSetsItsFields(row: CustomerRow, change: Change, epoch: string)
    ensures var next := Patched(row, change, epoch);
            && next.id == row.id
            && Sets(change.email, row.email, next.email) && Sets(change.displayName, row.displayName, next.displayName)
            && Sets(change.password, row.passwordHash, next.passwordHash) && Sets(change.status, row.status, next.status)
            && Sets(change.expiresAt, row.expiresAt, next.expiresAt)
            && (change.reset || next.(epoch := row.epoch, displayName := row.displayName) != row ==> next.epoch == epoch)
            && (change == Change(None, change.displayName, None, None, None, false) ==> next.epoch == row.epoch)
            && next.epoch == if change.email.Some? || change.password.Some? || change.status.Some? || change.expiresAt.Some?
                                || change.reset then epoch else row.epoch
  {
  }

  // A login that has checked the password; a refresh that has read its token, and perhaps
  // its customer.
  datatype Login = Login(customer: Id, version: string)

  datatype Refresh = TokenRead(token: Token) | CustomerRead(token: Token, version: string)

  // `patches` holds the row that each update in flight has read.  `history` remembers, of each
  // customer, the row as created and as after each bump of its epoch; `used` all random values.
  datatype Sys = Sys(tokens: Tokens, customers: map<Id, CustomerRow>, logins: seq<Login>, refreshes: seq<Refresh>,
                     patches: map<Id, CustomerRow>, history: map<Id, seq<CustomerRow>>, used: set<string>)

  datatype Event =
    | NewCustomer(row: CustomerRow)
    | LoginRead(customer: Id, now: Time, passwordOk: bool)
    | LoginCreate(i: nat, newId: Id, hash: string, expiresAt: Time)
    | RefreshReadToken(id: Id, now: Time)
    | RefreshReadCustomer(i: nat, now: Time)
    | RefreshRotate(i: nat, newId: Id, hash: string, expiresAt: Time, now: Time)
    | AdminLogin(subject: string, version: string, newId: Id, hash: string, expiresAt: Time)
    | Revoke(w: Whose, at: Time)
    | Expire(cutoff: Time)
    | PatchRead(customer: Id)
    | PatchSave(customer: Id, change: Change, epoch: string)

  function Without<T>(xs: seq<T>, i: nat): seq<T>
    requires i < |xs|
  {
    xs[..i] + xs[i + 1..]
  }

  // refreshPrincipal's answer, once the token has passed its own checks: the version it will
  // pass on.
  function PrincipalOf(rules: Rules, s: Sys, token: Token, now: Time): Option<string> {
    match token.principal
    case Admin => if rules.admin(token) then Some(token.version) else None
    case Customer =>
      if token.customer.None? || token.subject != token.customer.value || token.customer.value !in s.customers then None
      else
        var row := s.customers[token.customer.value];
        if !rules.canLogin(row, now) || row.passwordHash == "" || token.version != rules.version(row) then None
        else Some(rules.version(row))
    case _ => None
  }

  // customerLogin up to the tokens: the customer is read and the password checked.
  function LoginStep(rules: Rules, s: Sys, customer: Id, now: Time, passwordOk: bool): Sys {
    if customer !in s.customers || !rules.canLogin(s.customers[customer], now) then s
    else if s.customers[customer].passwordHash == "" || !passwordOk then s
    else s.(logins := s.logins + [Login(customer, rules.version(s.customers[customer]))])
  }

  // Both ways of making a row need random values that were never used before.
  predicate Unused(s: Sys, newId: Id, hash: string) {
    newId != "" && newId !in s.used && hash !in s.used && newId != hash
  }

  // The rows that issueAuthTokens and refreshAuth make.
  function LoginGrant(l: Login, hash: string, expiresAt: Time): Grant {
    Grant(Customer, Some(l.customer), l.customer, l.version, hash, expiresAt)
  }

  function AdminGrant(subject: string, version: string, hash: string, expiresAt: Time): Grant {
    Grant(Admin, None, subject, version, hash, expiresAt)
  }

  function RefreshGrant(r: Refresh, hash: string, expiresAt: Time): Grant
    requires r.CustomerRead?
  {
    Grant(r.token.principal, r.token.customer, r.token.subject, r.version, hash, expiresAt)
  }

  // The table after a statement that may have failed.
  function OrElse(made: Result<Tokens>, tokens: Tokens): Tokens { if made.Ok? then made.value else tokens }

  function MintStep(s: Sys, i: nat, newId: Id, hash: string, expiresAt: Time): Sys {
    if i >= |s.logins| || !Unused(s, newId, hash) then s
    else
      var made := Create(s.tokens, s.customers.Keys, NewToken(LoginGrant(s.logins[i], hash, expiresAt)), newId);
      s.(tokens := OrElse(made, s.tokens), logins := Without(s.logins, i), used := s.used + {newId, hash})
  }

  // An administrator's login reads no table.
  function AdminStep(s: Sys, subject: string, version: string, newId: Id, hash: string, expiresAt: Time): Sys {
    if !Unused(s, newId, hash) then s
    else
      var made := Create(s.tokens, s.customers.Keys, NewToken(AdminGrant(subject, version, hash, expiresAt)), newId);
      s.(tokens := OrElse(made, s.tokens), used := s.used + {newId, hash})
  }

  // refreshPrincipal reads the customer; a refused refresh is over.
  function ReadStep(rules: Rules, s: Sys, i: nat, now: Time): Sys {
    if i >= |s.refreshes| || !s.refreshes[i].TokenRead? then s
    else
      var token := s.refreshes[i].token;
      var version := PrincipalOf(rules, s, token, now);
      if version.None? then s.(refreshes := Without(s.refreshes, i))
      else s.(refreshes := s.refreshes[i := CustomerRead(token, version.value)])
  }

  function RotateStep(s: Sys, i: nat, newId: Id, hash: string, expiresAt: Time, now: Time): Sys {
    if i >= |s.refreshes| || !s.refreshes[i].CustomerRead? || !Unused(s, newId, hash) then s
    else
      var r := s.refreshes[i];
      var made := Rotate(s.tokens, s.customers.Keys, r.token.id, NewToken(RefreshGrant(r, hash, expiresAt)), newId, now);
      s.(tokens := OrElse(made, s.tokens), refreshes := Without(s.refreshes, i), used := s.used + {newId, hash})
  }

  function SaveStep(rules: Rules, s: Sys, customer: Id, change: Change, epoch: string): Sys {
    if customer !in s.patches || customer !in s.customers || customer !in s.history then s
    else if Bumps(change) && epoch in s.used then s
    else
      var row := Patched(s.patches[customer], change, epoch);
      if !rules.storable(row) then s.(patches := s.patches - {customer})
      else
        var saved := s.(customers := s.customers[customer := row], patches := s.patches - {customer});
        if Bumps(change)
        then saved.(used := s.used + {epoch}, history := s.history[customer := s.history[customer] + [row]])
        else saved
  }

  // An event that cannot happen in `s` changes nothing.
  function Next(rules: Rules, s: Sys, e: Event): Sys {
    match e
    case NewCustomer(row) =>
      if row.id in s.customers || row.id in s.history || !rules.storable(row) then s
      else s.(customers := s.customers[row.id := row], history := s.history[row.id := [row]], used := s.used + {row.epoch})
    case LoginRead(customer, now, passwordOk) =>
      LoginStep(rules, s, customer, now, passwordOk)
    case LoginCreate(i, newId, hash, expiresAt) => MintStep(s, i, newId, hash, expiresAt)
    case RefreshReadToken(id, now) =>
      if id !in s.tokens || !Refreshable(s.tokens[id], now) then s
      else s.(refreshes := s.refreshes + [TokenRead(s.tokens[id])])
    case RefreshReadCustomer(i, now) => ReadStep(rules, s, i, now)
    case RefreshRotate(i, newId, hash, expiresAt, now) => RotateStep(s, i, newId, hash, expiresAt, now)
    case AdminLogin(subject, version, newId, hash, expiresAt) => AdminStep(s, subject, version, newId, hash, expiresAt)
    case Revoke(w, at) => s.(tokens := RevokeWhere(s.tokens, w, at))
    case Expire(cutoff) => s.(tokens := Purge(s.tokens, cutoff))
    case PatchRead(customer) =>
      if customer !in s.customers || customer in s.patches then s
      else s.(patches := s.patches[customer := s.customers[customer]])
    case PatchSave(customer, change, epoch) => SaveStep(rules, s, customer, change, epoch)
  }

  function Step(rules: Rules): (Sys, Event) -> Sys { (s: Sys, e: Event) => Next(rules, s, e) }

  // ---- Versions known to a state ----

  // `v` is a version that the customer has now or had before.
  ghost predicate Known(rules: Rules, s: Sys, customer: Id, v: string) {
    customer in s.history &&
    exists i {:trigger s.history[customer][i]} :: 0 <= i < |s.history[customer]| && rules.version(s.history[customer][i]) == v
  }

  // Each customer's history: rows with epochs that were used once, the last naming the version
  // the customer has now; an update in flight has read the row as it is.
  ghost predicate HistoryOk(rules: Rules, s: Sys) {
    RowsOk(rules, s.history, s.customers, s.used) && PatchesOk(s.patches, s.customers)
  }

  ghost predicate RowsOk(rules: Rules, history: map<Id, seq<CustomerRow>>, customers: map<Id, CustomerRow>, used: set<string>) {
    && history.Keys == customers.Keys
    && forall c {:trigger history[c]} :: c in history ==> CustomerOk(rules, history[c], customers[c], used)
  }

  ghost predicate PatchesOk(patches: map<Id, CustomerRow>, customers: map<Id, CustomerRow>) {
    forall c :: c in patches ==> c in customers && patches[c] == customers[c]
  }

  ghost predicate CustomerOk(rules: Rules, history: seq<CustomerRow>, row: CustomerRow, used: set<string>) {
    && history != []
    && rules.storable(row) && row.epoch == history[|history| - 1].epoch
    && rules.version(row) == rules.version(history[|history| - 1])
    && (forall i :: 0 <= i < |history| ==> rules.storable(history[i]) && history[i].epoch in used)
    && (forall i, j :: 0 <= i < j < |history| ==> history[i].epoch != history[j].epoch)
  }

  ghost predicate TokenOk(rules: Rules, s: Sys, t: Token) {
    t.principal.Customer? && t.customer.Some? ==> Known(rules, s, t.customer.value, t.version)
  }

  ghost predicate RefreshOk(rules: Rules, s: Sys, r: Refresh) {
    && TokenOk(rules, s, r.token)
    && (r.CustomerRead? ==>
          || r.token.principal.Admin?
          || (r.token.principal.Customer? && r.token.customer.Some? && Known(rules, s, r.token.customer.value, r.version)))
  }

  // Every version in a row or in flight is one that its customer has or had.
  ghost predicate VersionsKnown(rules: Rules, s: Sys) {
    && (forall k :: k in s.tokens ==> TokenOk(rules, s, s.tokens[k]))
    && (forall l :: l in s.logins ==> Known(rules, s, l.customer, l.version))
    && (forall r :: r in s.refreshes ==> RefreshOk(rules, s, r))
  }

  // ---- What every event keeps ----

  predicate Extends(s: Sys, u: Sys) {
    s.used <= u.used && forall c :: c in s.history ==> c in u.history && s.history[c] <= u.history[c]
  }

  lemma StepExtends(rules: Rules, s: Sys, e: Event)
    ensures Extends(s, Next(rules, s, e))
  {
    match e
    case PatchSave(customer, change, epoch) =>
    case LoginCreate(i, newId, hash, expiresAt) =>
    case RefreshRotate(i, newId, hash, expiresAt, now) =>
    case NewCustomer(row) =>
    case RefreshReadCustomer(i, now) =>
    case _ =>
  }

  lemma KnownStays(rules: Rules, s: Sys, u: Sys, c: Id, v: string)
    requires Known(rules, s, c, v) && Extends(s, u)
    ensures Known(rules, u, c, v)
  {
    var i :| 0 <= i < |s.history[c]| && rules.version(s.history[c][i]) == v;
    assert u.history[c][i] == s.history[c][i];
  }

  lemma CurrentIsKnown(rules: Rules, s: Sys, c: Id)
    requires HistoryOk(rules, s) && c in s.customers
    ensures Known(rules, s, c, rules.version(s.customers[c]))
  {
    assert CustomerOk(rules, s.history[c], s.customers[c], s.used);
    assert rules.version(s.history[c][|s.history[c]| - 1]) == rules.version(s.customers[c]);
  }

  lemma CustomerStaysOk(rules: Rules, history: seq<CustomerRow>, row: CustomerRow, used: set<string>, more: set<string>)
    requires CustomerOk(rules, history, row, used) && used <= more
    ensures CustomerOk(rules, history, row, more)
  {
  }

  lemma BumpIsOk(rules: Rules, history: seq<CustomerRow>, row: CustomerRow, change: Change, epoch: string, used: set<string>)
    requires CustomerOk(rules, history, row, used) && Bumps(change) && epoch !in used
    requires rules.storable(Patched(row, change, epoch))
    ensures CustomerOk(rules, history + [Patched(row, change, epoch)], Patched(row, change, epoch), used + {epoch})
  {
  }

  lemma RenameIsOk(rules: Rules, history: seq<CustomerRow>, row: CustomerRow, change: Change, epoch: string, used: set<string>)
    requires VersionRule(rules) && CustomerOk(rules, history, row, used) && !Bumps(change)
    requires rules.storable(Patched(row, change, epoch))
    ensures CustomerOk(rules, history, Patched(row, change, epoch), used)
  {
    assert Patched(row, change, epoch) == row.(displayName := Or(change.displayName, row.displayName));
  }

  lemma OneRowChanges(rules: Rules, history: map<Id, seq<CustomerRow>>, customers: map<Id, CustomerRow>, used: set<string>,
                      c: Id, rows: seq<CustomerRow>, row: CustomerRow, more: set<string>)
    requires RowsOk(rules, history, customers, used) && used <= more && CustomerOk(rules, rows, row, more)
    ensures RowsOk(rules, history[c := rows], customers[c := row], more)
  {
    var h, m := history[c := rows], customers[c := row];
    forall k | k in h ensures CustomerOk(rules, h[k], m[k], more) {
      if k != c {
        CustomerStaysOk(rules, history[k], customers[k], used, more);
      }
    }
  }

  lemma RowsStayOk(rules: Rules, history: map<Id, seq<CustomerRow>>, customers: map<Id, CustomerRow>, used: set<string>,
                   more: set<string>)
    requires RowsOk(rules, history, customers, used) && used <= more
    ensures RowsOk(rules, history, customers, more)
  {
    forall k | k in history ensures CustomerOk(rules, history[k], customers[k], more) {
      CustomerStaysOk(rules, history[k], customers[k], used, more);
    }
  }

  lemma PatchesStayOk(patches: map<Id, CustomerRow>, customers: map<Id, CustomerRow>, c: Id, row: CustomerRow)
    requires PatchesOk(patches, customers)
    ensures PatchesOk(patches - {c}, customers[c := row]) && PatchesOk(patches - {c}, customers)
  {
  }

  lemma BumpKeepsRows(rules: Rules, s: Sys, c: Id, change: Change, epoch: string)
    requires RowsOk(rules, s.history, s.customers, s.used) && c in s.customers && Bumps(change) && epoch !in s.used
    requires rules.storable(Patched(s.customers[c], change, epoch))
    ensures var row := Patched(s.customers[c], change, epoch);
            RowsOk(rules, s.history[c := s.history[c] + [row]], s.customers[c := row], s.used + {epoch})
  {
    var row := Patched(s.customers[c], change, epoch);
    BumpIsOk(rules, s.history[c], s.customers[c], change, epoch, s.used);
    OneRowChanges(rules, s.history, s.customers, s.used, c, s.history[c] + [row], row, s.used + {epoch});
  }

  lemma RenameKeepsRows(rules: Rules, s: Sys, c: Id, change: Change, epoch: string)
    requires VersionRule(rules) && RowsOk(rules, s.history, s.customers, s.used) && c in s.customers && !Bumps(change)
    requires rules.storable(Patched(s.customers[c], change, epoch))
    ensures RowsOk(rules, s.history, s.customers[c := Patched(s.customers[c], change, epoch)], s.used)
  {
    var row := Patched(s.customers[c], change, epoch);
    RenameIsOk(rules, s.history[c], s.customers[c], change, epoch, s.used);
    OneRowChanges(rules, s.history, s.customers, s.used, c, s.history[c], row, s.used);
    assert s.history[c := s.history[c]] == s.history;
  }

  lemma SaveKeepsHistory(rules: Rules, s: Sys, customer: Id, change: Change, epoch: string)
    requires VersionRule(rules) && HistoryOk(rules, s)
    ensures HistoryOk(rules, SaveStep(rules, s, customer, change, epoch))
  {
    if customer in s.patches {
      var row := Patched(s.customers[customer], change, epoch);
      PatchesStayOk(s.patches, s.customers, customer, row);
      if rules.storable(row) {
        if !Bumps(change) {
          RenameKeepsRows(rules, s, customer, change, epoch);
        } else if epoch !in s.used {
          BumpKeepsRows(rules, s, customer, change, epoch);
        }
      }
    }
  }

  // The customers, their histories and the updates in flight are left alone.
  predicate Untouched(s: Sys, u: Sys) {
    u.history == s.history && u.customers == s.customers && u.patches == s.patches && s.used <= u.used
  }

  lemma MintUntouched(s: Sys, i: nat, newId: Id, hash: string, expiresAt: Time)
    ensures Untouched(s, MintStep(s, i, newId, hash, expiresAt))
  {
  }

  lemma AdminUntouched(s: Sys, subject: string, version: string, newId: Id, hash: string, expiresAt: Time)
    ensures Untouched(s, AdminStep(s, subject, version, newId, hash, expiresAt))
  {
  }

  lemma ReadUntouched(rules: Rules, s: Sys, i: nat, now: Time)
    ensures Untouched(s, ReadStep(rules, s, i, now))
  {
  }

  lemma RotateUntouched(s: Sys, i: nat, newId: Id, hash: string, expiresAt: Time, now: Time)
    ensures Untouched(s, RotateStep(s, i, newId, hash, expiresAt, now))
  {
  }

  lemma CustomersUntouched(rules: Rules, s: Sys, e: Event)
    requires !e.PatchSave? && !e.NewCustomer? && !e.PatchRead?
    ensures Untouched(s, Next(rules, s, e))
  {
    match e
    case LoginCreate(i, newId, hash, expiresAt) => MintUntouched(s, i, newId, hash, expiresAt);
    case RefreshReadCustomer(i, now) => ReadUntouched(rules, s, i, now);
    case AdminLogin(subject, version, newId, hash, expiresAt) => AdminUntouched(s, subject, version, newId, hash, expiresAt);
    case RefreshRotate(i, newId, hash, expiresAt, now) => RotateUntouched(s, i, newId, hash, expiresAt, now);
    case _ =>
  }

  lemma NewCustomerKeepsRows(rules: Rules, s: Sys, row: CustomerRow)
    requires RowsOk(rules, s.history, s.customers, s.used) && rules.storable(row)
    ensures RowsOk(rules, s.history[row.id := [row]], s.customers[row.id := row], s.used + {row.epoch})
  {
    OneRowChanges(rules, s.history, s.customers, s.used, row.id, [row], row, s.used + {row.epoch});
  }

  lemma NewCustomerKeepsHistory(rules: Rules, s: Sys, row: CustomerRow)
    requires HistoryOk(rules, s)
    ensures HistoryOk(rules, Next(rules, s, NewCustomer(row)))
  {
    if row.id !in s.customers && row.id !in s.history && rules.storable(row) {
      NewCustomerKeepsRows(rules, s, row);
    }
  }

  lemma PatchReadKeepsHistory(rules: Rules, s: Sys, e: Event)
    requires HistoryOk(rules, s) && e.PatchRead?
    ensures HistoryOk(rules, Next(rules, s, e))
  {
  }

  lemma HistoryKept(rules: Rules, s: Sys, e: Event)
    requires VersionRule(rules) && HistoryOk(rules, s)
    ensures HistoryOk(rules, Next(rules, s, e))
  {
    if e.PatchSave? {
      SaveKeepsHistory(rules, s, e.customer, e.change, e.epoch);
    } else if e.NewCustomer? {
      NewCustomerKeepsHistory(rules, s, e.row);
    } else if e.PatchRead? {
      PatchReadKeepsHistory(rules, s, e);
    } else {
      CustomersUntouched(rules, s, e);
      RowsStayOk(rules, s.history, s.customers, s.used, Next(rules, s, e).used);
    }
  }

  lemma TokenStaysOk(rules: Rules, s: Sys, u: Sys, t: Token)
    requires TokenOk(rules, s, t) && Extends(s, u)
    ensures TokenOk(rules, u, t)
  {
    if t.principal.Customer? && t.customer.Some? {
      KnownStays(rules, s, u, t.customer.value, t.version);
    }
  }

  lemma RefreshStaysOk(rules: Rules, s: Sys, u: Sys, r: Refresh)
    requires RefreshOk(rules, s, r) && Extends(s, u)
    ensures RefreshOk(rules, u, r)
  {
    TokenStaysOk(rules, s, u, r.token);
    if r.CustomerRead? && r.token.principal.Customer? && r.token.customer.Some? {
      KnownStays(rules, s, u, r.token.customer.value, r.version);
    }
  }

  lemma MintKnown(rules: Rules, s: Sys, e: Event)
    requires VersionsKnown(rules, s) && e.LoginCreate?
    ensures forall k :: k in MintStep(s, e.i, e.newId, e.hash, e.expiresAt).tokens ==>
              TokenOk(rules, s, MintStep(s, e.i, e.newId, e.hash, e.expiresAt).tokens[k])
  {
    if e.i < |s.logins| {
      assert s.logins[e.i] in s.logins;
    }
  }

  lemma RotateKnown(rules: Rules, s: Sys, e: Event)
    requires VersionsKnown(rules, s) && e.RefreshRotate?
    ensures forall k :: k in RotateStep(s, e.i, e.newId, e.hash, e.expiresAt, e.now).tokens ==>
              TokenOk(rules, s, RotateStep(s, e.i, e.newId, e.hash, e.expiresAt, e.now).tokens[k])
  {
    if e.i < |s.refreshes| {
      assert s.refreshes[e.i] in s.refreshes;
    }
  }

  lemma AdminKnown(rules: Rules, s: Sys, e: Event)
    requires VersionsKnown(rules, s) && e.AdminLogin?
    ensures forall k :: k in AdminStep(s, e.subject, e.version, e.newId, e.hash, e.expiresAt).tokens ==>
              TokenOk(rules, s, AdminStep(s, e.subject, e.version, e.newId, e.hash, e.expiresAt).tokens[k])
  {
  }

  lemma TokensKnown(rules: Rules, s: Sys, e: Event)
    requires VersionsKnown(rules, s)
    ensures forall k :: k in Next(rules, s, e).tokens ==> TokenOk(rules, s, Next(rules, s, e).tokens[k])
  {
    match e
    case LoginCreate(_, _, _, _) => MintKnown(rules, s, e);
    case AdminLogin(_, _, _, _, _) => AdminKnown(rules, s, e);
    case RefreshRotate(_, _, _, _, _) => RotateKnown(rules, s, e);
    case _ =>
  }

  lemma LoginKnown(rules: Rules, s: Sys, customer: Id, now: Time, passwordOk: bool)
    requires HistoryOk(rules, s) && VersionsKnown(rules, s)
    ensures forall l :: l in LoginStep(rules, s, customer, now, passwordOk).logins ==> Known(rules, s, l.customer, l.version)
  {
    if customer in s.customers {
      CurrentIsKnown(rules, s, customer);
    }
  }

  lemma LoginsKnown(rules: Rules, s: Sys, e: Event)
    requires HistoryOk(rules, s) && VersionsKnown(rules, s)
    ensures var u := Next(rules, s, e);
            forall l :: l in u.logins ==> Known(rules, s, l.customer, l.version)
  {
    match e
    case LoginRead(customer, now, passwordOk) => LoginKnown(rules, s, customer, now, passwordOk);
    case LoginCreate(_, _, _, _) =>
    case _ => assert Next(rules, s, e).logins == s.logins;
  }

  lemma PrincipalKnown(rules: Rules, s: Sys, r: Refresh, now: Time)
    requires HistoryOk(rules, s) && RefreshOk(rules, s, r)
    ensures var version := PrincipalOf(rules, s, r.token, now);
            version.Some? ==> RefreshOk(rules, s, CustomerRead(r.token, version.value))
  {
    if r.token.customer.Some? && r.token.customer.value in s.customers {
      CurrentIsKnown(rules, s, r.token.customer.value);
    }
  }

  lemma ReadKnown(rules: Rules, s: Sys, i: nat, now: Time)
    requires HistoryOk(rules, s) && VersionsKnown(rules, s)
    ensures var u := ReadStep(rules, s, i, now);
            forall r :: r in u.refreshes ==> RefreshOk(rules, s, r)
  {
    if i < |s.refreshes| {
      assert s.refreshes[i] in s.refreshes;
      PrincipalKnown(rules, s, s.refreshes[i], now);
    }
  }

  lemma RefreshesKnown(rules: Rules, s: Sys, e: Event)
    requires HistoryOk(rules, s) && VersionsKnown(rules, s)
    ensures var u := Next(rules, s, e);
            forall r :: r in u.refreshes ==> RefreshOk(rules, s, r)
  {
    match e
    case RefreshReadCustomer(i, now) => ReadKnown(rules, s, i, now);
    case RefreshReadToken(_, _) =>
    case RefreshRotate(_, _, _, _, _) =>
    case _ => assert Next(rules, s, e).refreshes == s.refreshes;
  }

  ghost predicate Sound(rules: Rules, s: Sys) { HistoryOk(rules, s) && VersionsKnown(rules, s) }

  lemma StepSound(rules: Rules, s: Sys, e: Event)
    requires VersionRule(rules) && Sound(rules, s)
    ensures Sound(rules, Next(rules, s, e))
  {
    var u := Next(rules, s, e);
    HistoryKept(rules, s, e);
    StepExtends(rules, s, e);
    TokensKnown(rules, s, e);
    LoginsKnown(rules, s, e);
    RefreshesKnown(rules, s, e);
    forall k | k in u.tokens ensures TokenOk(rules, u, u.tokens[k]) { TokenStaysOk(rules, s, u, u.tokens[k]); }
    forall l | l in u.logins ensures Known(rules, u, l.customer, l.version) {
      KnownStays(rules, s, u, l.customer, l.version);
    }
    forall r | r in u.refreshes ensures RefreshOk(rules, u, r) { RefreshStaysOk(rules, s, u, r); }
  }

  lemma RunSound(rules: Rules, s: Sys, events: seq<Event>)
    requires VersionRule(rules) && Sound(rules, s)
    ensures Sound(rules, After(Step(rules), s, events)) && Extends(s, After(Step(rules), s, events))
  {
    var inv := (x: Sys) => Sound(rules, x) && Extends(s, x);
    forall x: Sys, e: Event | inv(x) ensures inv(Step(rules)(x, e)) {
      StepSound(rules, x, e);
      StepExtends(rules, x, e);
      ExtendsTransitive(s, x, Next(rules, x, e));
    }
    Invariant(Step(rules), s, events, |events|, inv);
  }

  lemma ExtendsTransitive(a: Sys, b: Sys, c: Sys)
    requires Extends(a, b) && Extends(b, c)
    ensures Extends(a, c)
  {
  }

  // Nobody yet.
  const START: Sys := Sys(map[], map[], [], [], map[], map[], {})

  lemma EveryReachableStateIsSound(rules: Rules, events: seq<Event>)
    requires VersionRule(rules)
    ensures Sound(rules, After(Step(rules), START, events))
  {
    RunSound(rules, START, events);
  }

  // ---- Epoch safety ----

  lemma OlderDiffers(rules: Rules, history: seq<CustomerRow>, row: CustomerRow, used: set<string>, i: nat)
    requires VersionRule(rules) && CustomerOk(rules, history, row, used) && i < |history| - 1
    ensures rules.version(history[i]) != rules.version(row)
  {
    assert history[i].epoch != history[|history| - 1].epoch;
  }

  lemma RetiredRowStaysRetired(rules: Rules, before: seq<CustomerRow>, row: CustomerRow, used: set<string>,
                               after: seq<CustomerRow>, next: CustomerRow, more: set<string>, i: nat)
    requires VersionRule(rules) && CustomerOk(rules, before, row, used) && CustomerOk(rules, after, next, more)
    requires before <= after && i < |before| && rules.version(before[i]) != rules.version(row)
    ensures rules.version(before[i]) != rules.version(next)
  {
    assert i != |before| - 1 && after[i] == before[i];
    OlderDiffers(rules, after, next, more, i);
  }

  lemma CustomerAt(rules: Rules, s: Sys, c: Id)
    requires HistoryOk(rules, s) && c in s.history
    ensures c in s.customers && CustomerOk(rules, s.history[c], s.customers[c], s.used)
  {
  }

  lemma RetiredStaysRetired(rules: Rules, s: Sys, u: Sys, c: Id, v: string)
    requires VersionRule(rules) && HistoryOk(rules, s) && HistoryOk(rules, u) && Extends(s, u)
    requires c in s.customers && Known(rules, s, c, v) && rules.version(s.customers[c]) != v
    ensures c in u.customers && rules.version(u.customers[c]) != v
  {
    CustomerAt(rules, s, c);
    CustomerAt(rules, u, c);
    RetiredIn(rules, s, u, c, v);
  }

  lemma RetiredIn(rules: Rules, s: Sys, u: Sys, c: Id, v: string)
    requires VersionRule(rules) && Known(rules, s, c, v)
    requires c in s.customers && CustomerOk(rules, s.history[c], s.customers[c], s.used)
    requires c in u.history && c in u.customers && CustomerOk(rules, u.history[c], u.customers[c], u.used)
    requires s.history[c] <= u.history[c] && rules.version(s.customers[c]) != v
    ensures rules.version(u.customers[c]) != v
  {
    var i :| 0 <= i < |s.history[c]| && rules.version(s.history[c][i]) == v;
    RetiredRowStaysRetired(rules, s.history[c], s.customers[c], s.used, u.history[c], u.customers[c], u.used, i);
  }

  /** Old versions never recur: a version that a customer had, and has no longer, it never has
      again, in any continuation. */
  lemma VersionsNeverRecur(rules: Rules, s: Sys, events: seq<Event>, c: Id, v: string)
    requires VersionRule(rules) && Sound(rules, s) && c in s.customers
    requires Known(rules, s, c, v) && rules.version(s.customers[c]) != v
    ensures var u := After(Step(rules), s, events);
            c in u.customers && rules.version(u.customers[c]) != v
  {
    RunSound(rules, s, events);
    RetiredStaysRetired(rules, s, After(Step(rules), s, events), c, v);
  }

  lemma NewEpochNewVersion(rules: Rules, history: seq<CustomerRow>, row: CustomerRow, used: set<string>, next: CustomerRow, i: nat)
    requires VersionRule(rules) && CustomerOk(rules, history, row, used) && i < |history|
    requires rules.storable(next) && next.epoch !in used
    ensures rules.version(next) != rules.version(history[i])
  {
    assert history[i].epoch in used;
  }

  // A save with a new epoch makes every version the customer had an old one.
  lemma BumpRetiresAll(rules: Rules, s: Sys, c: Id, change: Change, epoch: string, v: string)
    requires VersionRule(rules) && HistoryOk(rules, s) && c in s.patches && Bumps(change) && epoch !in s.used
    requires rules.storable(Patched(s.patches[c], change, epoch)) && Known(rules, s, c, v)
    ensures var u := SaveStep(rules, s, c, change, epoch);
            c in u.customers && rules.version(u.customers[c]) != v
  {
    var i :| 0 <= i < |s.history[c]| && rules.version(s.history[c][i]) == v;
    NewEpochNewVersion(rules, s.history[c], s.customers[c], s.used, Patched(s.patches[c], change, epoch), i);
  }

  predicate OfCustomerWith(t: Token, c: Id) { t.principal.Customer? && t.customer == Some(c) }

  lemma RetiredIsRefused(rules: Rules, u: Sys, c: Id, token: Token, now: Time)
    requires OfCustomerWith(token, c) && c in u.customers && rules.version(u.customers[c]) != token.version
    ensures PrincipalOf(rules, u, token, now) == None
  {
  }

  lemma RefusedEverAfter(rules: Rules, s: Sys, s1: Sys, c: Id, events: seq<Event>, token: Token, now: Time)
    requires VersionRule(rules) && Sound(rules, s1) && Extends(s, s1) && c in s1.customers
    requires OfCustomerWith(token, c) && Known(rules, s, c, token.version)
    requires rules.version(s1.customers[c]) != token.version
    ensures var u := After(Step(rules), s1, events);
            && c in u.customers && rules.version(u.customers[c]) != token.version
            && PrincipalOf(rules, u, token, now) == None
  {
    KnownStays(rules, s, s1, c, token.version);
    VersionsNeverRecur(rules, s1, events, c, token.version);
    RetiredIsRefused(rules, After(Step(rules), s1, events), c, token, now);
  }

  lemma NextSaves(rules: Rules, s: Sys, c: Id, change: Change, epoch: string)
    ensures Next(rules, s, PatchSave(c, change, epoch)) == SaveStep(rules, s, c, change, epoch)
  {
  }

  lemma SoundAfter(rules: Rules, s: Sys, e: Event, u: Sys)
    requires VersionRule(rules) && Sound(rules, s) && u == Next(rules, s, e)
    ensures Sound(rules, u) && Extends(s, u)
  {
    StepSound(rules, s, e);
    StepExtends(rules, s, e);
  }

  lemma SaveSound(rules: Rules, s: Sys, c: Id, change: Change, epoch: string)
    requires VersionRule(rules) && Sound(rules, s)
    ensures Sound(rules, SaveStep(rules, s, c, change, epoch)) && Extends(s, SaveStep(rules, s, c, change, epoch))
  {
    NextSaves(rules, s, c, change, epoch);
    SoundAfter(rules, s, PatchSave(c, change, epoch), SaveStep(rules, s, c, change, epoch));
  }

  /** Session epoch safety: once an update that bumps the epoch of `c` has been saved, then in
      every continuation no version that `c` had before is its version, and no refresh that
      reads the customer from then on gets past that read with a token of such a version. */
  lemma EpochSafety(rules: Rules, s: Sys, c: Id, change: Change, epoch: string, events: seq<Event>, token: Token, now: Time)
    requires VersionRule(rules) && Sound(rules, s) && c in s.patches && Bumps(change) && epoch !in s.used
    requires rules.storable(Patched(s.patches[c], change, epoch))
    requires OfCustomerWith(token, c) && Known(rules, s, c, token.version)
    ensures var u := After(Step(rules), SaveStep(rules, s, c, change, epoch), events);
            && c in u.customers && rules.version(u.customers[c]) != token.version
            && PrincipalOf(rules, u, token, now) == None
  {
    SaveSound(rules, s, c, change, epoch);
    BumpRetiresAll(rules, s, c, change, epoch, token.version);
    RefusedEverAfter(rules, s, SaveStep(rules, s, c, change, epoch), c, events, token, now);
  }

  /** Which tokens those are: every row of the customer, and every row that a login or a refresh
      in flight at the time may still make. */
  lemma EverythingBeforeIsKnown(rules: Rules, s: Sys, c: Id)
    requires Sound(rules, s)
    ensures forall k :: k in s.tokens && OfCustomerWith(s.tokens[k], c) ==> Known(rules, s, c, s.tokens[k].version)
    ensures forall l :: l in s.logins && l.customer == c ==> Known(rules, s, c, l.version)
    ensures forall r :: r in s.refreshes && OfCustomerWith(r.token, c) ==>
              Known(rules, s, c, r.token.version) && (r.CustomerRead? ==> Known(rules, s, c, r.version))
  {
    forall k | k in s.tokens && OfCustomerWith(s.tokens[k], c) ensures Known(rules, s, c, s.tokens[k].version) {
      assert TokenOk(rules, s, s.tokens[k]);
    }
    forall r | r in s.refreshes && OfCustomerWith(r.token, c)
      ensures Known(rules, s, c, r.token.version) && (r.CustomerRead? ==> Known(rules, s, c, r.version))
    {
      assert RefreshOk(rules, s, r);
    }
  }

  /** A row that a login or a refresh makes carries the version that it had read. */
  lemma NewRowsCarryTheVersionRead(s: Sys, i: nat, newId: Id, hash: string, expiresAt: Time, now: Time)
    ensures i < |s.logins| && MintStep(s, i, newId, hash, expiresAt).tokens != s.tokens ==>
      var u := MintStep(s, i, newId, hash, expiresAt);
      newId in u.tokens && OfCustomerWith(u.tokens[newId], s.logins[i].customer) &&
      u.tokens[newId].version == s.logins[i].version
    ensures i < |s.refreshes| && RotateStep(s, i, newId, hash, expiresAt, now).tokens != s.tokens ==>
      var u := RotateStep(s, i, newId, hash, expiresAt, now);
      s.refreshes[i].CustomerRead? && newId in u.tokens && u.tokens[newId].version == s.refreshes[i].version
  {
  }

  /** When each of the two logins makes a row, given random values that were never used, and the row. */
  lemma LoginMakesExactly(s: Sys, i: nat, newId: Id, hash: string, expiresAt: Time)
    requires i < |s.logins| && Unused(s, newId, hash)
    ensures var l, u := s.logins[i], MintStep(s, i, newId, hash, expiresAt).tokens;
            if && l.customer != "" && l.version != "" && hash != "" && l.customer in s.customers && newId !in s.tokens
               && forall k :: k in s.tokens ==> s.tokens[k].hash != hash
            then u == s.tokens[newId := Token(newId, Customer, Some(l.customer), l.customer, l.version, hash, true,
                                              Some(expiresAt), None, None, "")]
            else u == s.tokens
  {
  }

  lemma AdminLoginMakesExactly(s: Sys, subject: string, version: string, newId: Id, hash: string, expiresAt: Time)
    requires Unused(s, newId, hash)
    ensures var u := AdminStep(s, subject, version, newId, hash, expiresAt).tokens;
            if && subject != "" && version != "" && hash != "" && newId !in s.tokens
               && forall k :: k in s.tokens ==> s.tokens[k].hash != hash
            then u == s.tokens[newId := Token(newId, Admin, None, subject, version, hash, true, Some(expiresAt), None, None, "")]
            else u == s.tokens
  {
  }

  /** When a refresh exchanges its row, and the two rows that change: the one it has read is revoked
      and names its successor, and the successor is for the same principal, with the version read. */
  lemma RefreshMakesExactly(s: Sys, i: nat, newId: Id, hash: string, expiresAt: Time, now: Time)
    requires i < |s.refreshes| && s.refreshes[i].CustomerRead? && Unused(s, newId, hash)
    requires s.refreshes[i].token.principal == Customer && s.refreshes[i].token.customer == Some(s.refreshes[i].token.subject)
    requires s.refreshes[i].token.subject != ""
    ensures var u, r := RotateStep(s, i, newId, hash, expiresAt, now).tokens, s.refreshes[i];
            var t := r.token;
            if && t.id in s.tokens && s.tokens[t.id].enabled && s.tokens[t.id].revokedAt.None?
               && r.version != "" && hash != "" && t.subject in s.customers && newId !in s.tokens
               && forall k :: k in s.tokens ==> s.tokens[k].hash != hash
            then u == s.tokens[t.id := Ended(s.tokens[t.id], now).(replacedBy := newId)]
                              [newId := Token(newId, Customer, Some(t.subject), t.subject, r.version, hash, true,
                                              Some(expiresAt), None, None, "")]
            else u == s.tokens
  {
    var r := s.refreshes[i];
    if r.token.id in s.tokens {
      ExchangedExactly(s.tokens, s.customers.Keys, r.token.id, NewToken(RefreshGrant(r, hash, expiresAt)), newId, now);
    }
  }

  lemma AdminRefreshMakesExactly(s: Sys, i: nat, newId: Id, hash: string, expiresAt: Time, now: Time)
    requires i < |s.refreshes| && s.refreshes[i].CustomerRead? && Unused(s, newId, hash)
    requires s.refreshes[i].token.principal == Admin && s.refreshes[i].token.customer == None
    requires s.refreshes[i].token.subject != ""
    ensures var u, r := RotateStep(s, i, newId, hash, expiresAt, now).tokens, s.refreshes[i];
            var t := r.token;
            if && t.id in s.tokens && s.tokens[t.id].enabled && s.tokens[t.id].revokedAt.None? && s.tokens[t.id].customer.None?
               && r.version != "" && hash != "" && newId !in s.tokens
               && forall k :: k in s.tokens ==> s.tokens[k].hash != hash
            then u == s.tokens[t.id := Ended(s.tokens[t.id], now).(replacedBy := newId)]
                              [newId := Token(newId, Admin, None, t.subject, r.version, hash, true, Some(expiresAt), None, None, "")]
            else u == s.tokens
  {
    var r := s.refreshes[i];
    if r.token.id in s.tokens {
      ExchangedExactly(s.tokens, s.customers.Keys, r.token.id, NewToken(RefreshGrant(r, hash, expiresAt)), newId, now);
    }
  }

  // ---- AuthSessionVersion ----

  function PrefixedUpTo(parts: seq<string>, n: nat): string
    requires n <= |parts|
  {
    if n == 0 then "" else PrefixedUpTo(parts, n - 1) + [NUL] + parts[n - 1]
  }

  // `mac` stands for HMAC-SHA-256 in hexadecimal: key first, then message.
  method AuthSessionVersion(mac: (string, string) -> string, secretKey: string, parts: seq<string>) returns (version: string)
    ensures version == mac(secretKey, PrefixedUpTo(parts, |parts|))
  {
    var written := "";
    for i := 0 to |parts|
      invariant written == PrefixedUpTo(parts, i)
    {
      written := written + [NUL];
      written := written + parts[i];
    }
    version := mac(secretKey, written);
  }

  lemma {:induction false} PrefixedIsJoin(parts: seq<string>, n: nat)
    requires n <= |parts|
    ensures PrefixedUpTo(parts, n) + [NUL] == [NUL] + JoinUpTo(parts, n)
  {
    if n > 0 {
      PrefixedIsJoin(parts, n - 1);
      calc {
        PrefixedUpTo(parts, n) + [NUL];
        (PrefixedUpTo(parts, n - 1) + [NUL]) + (parts[n - 1] + [NUL]);
        ([NUL] + JoinUpTo(parts, n - 1)) + (parts[n - 1] + [NUL]);
        [NUL] + JoinUpTo(parts, n);
      }
    }
  }

  lemma SamePrefixedSameJoin(a: seq<string>, b: seq<string>)
    requires PrefixedUpTo(a, |a|) == PrefixedUpTo(b, |b|)
    ensures Join(a) == Join(b)
  {
    var x, y := Join(a), Join(b);
    PrefixedIsJoin(a, |a|);
    PrefixedIsJoin(b, |b|);
    assert [NUL] + x == [NUL] + y;
    assert x == ([NUL] + x)[1..] && y == ([NUL] + y)[1..];
  }

  predicate AllNulFree(parts: seq<string>) { forall i :: 0 <= i < |parts| ==> NulFree(parts[i]) }

  lemma TextNamesParts(a: seq<string>, b: seq<string>)
    requires AllNulFree(a) && AllNulFree(b) && PrefixedUpTo(a, |a|) == PrefixedUpTo(b, |b|)
    ensures a == b
  {
    SamePrefixedSameJoin(a, b);
    JoinInjective(a, b, |a|, |b|);
    assert a[..|a|] == a && b[..|b|] == b;
  }

  /** With an injective mac, versions of NUL-free parts are equal only if all parts are. */
  lemma SessionVersionsInjective(mac: (string, string) -> string, key: string, a: seq<string>, b: seq<string>)
    requires forall x, y :: mac(key, x) == mac(key, y) ==> x == y
    requires AllNulFree(a) && AllNulFree(b)
    requires mac(key, PrefixedUpTo(a, |a|)) == mac(key, PrefixedUpTo(b, |b|))
    ensures a == b
  {
    TextNamesParts(a, b);
  }

  // customerSessionVersion
  function Parts(row: CustomerRow): seq<string> { ["customer", row.id, row.email, row.passwordHash, row.epoch] }

  predicate TextColumns(row: CustomerRow) {
    NulFree(row.id) && NulFree(row.email) && NulFree(row.passwordHash) && NulFree(row.epoch)
  }

  function CanLogin(row: CustomerRow, now: Time): bool {
    Domain.CustomerStatusIsActive(row.status) && (row.expiresAt.None? || row.expiresAt.value > now)
  }

  predicate IsConfiguredAdmin(t: Token, adminVersion: string) { t.subject == "configured-admin" && t.version == adminVersion }

  function ServerRules(mac: (string, string) -> string, key: string, adminVersion: string): Rules {
    Rules((row: CustomerRow) => mac(key, PrefixedUpTo(Parts(row), 5)), CanLogin,
          (t: Token) => IsConfiguredAdmin(t, adminVersion), TextColumns)
  }

  lemma PartsNulFree(row: CustomerRow)
    requires TextColumns(row)
    ensures AllNulFree(Parts(row))
  {
    assert NulFree("customer");
  }

  /** The version of a customer names its id, e-mail, password hash and epoch, and nothing else:
      with an injective mac two customers have the same version if and only if they agree on all four. */
  lemma VersionNames(mac: (string, string) -> string, key: string, adminVersion: string, a: CustomerRow, b: CustomerRow)
    requires forall x, y :: mac(key, x) == mac(key, y) ==> x == y
    requires TextColumns(a) && TextColumns(b)
    ensures var version := ServerRules(mac, key, adminVersion).version;
            version(a) == version(b) <==>
            a.id == b.id && a.email == b.email && a.passwordHash == b.passwordHash && a.epoch == b.epoch
  {
    if a.id == b.id && a.email == b.email && a.passwordHash == b.passwordHash && a.epoch == b.epoch {
      assert Parts(a) == Parts(b);
    }
    if ServerRules(mac, key, adminVersion).version(a) == ServerRules(mac, key, adminVersion).version(b) {
      PartsNulFree(a);
      PartsNulFree(b);
      SessionVersionsInjective(mac, key, Parts(a), Parts(b));
      assert Parts(a)[1] == Parts(b)[1] && Parts(a)[2] == Parts(b)[2] && Parts(a)[3] == Parts(b)[3] && Parts(a)[4] == Parts(b)[4];
    }
  }

  /** The server's own rules meet what epoch safety asks of them. */
  lemma ServerRulesQualify(mac: (string, string) -> string, key: string, adminVersion: string)
    requires forall x, y :: mac(key, x) == mac(key, y) ==> x == y
    ensures VersionRule(ServerRules(mac, key, adminVersion))
  {
    var rules := ServerRules(mac, key, adminVersion);
    forall a, b | rules.storable(a) && rules.storable(b) && rules.version(a) == rules.version(b) ensures a.epoch == b.epoch {
      VersionNames(mac, key, adminVersion, a, b);
    }
    forall a: CustomerRow, name ensures rules.version(a.(displayName := name)) == rules.version(a) {
      assert Parts(a.(displayName := name)) == Parts(a);
    }
  }
}
