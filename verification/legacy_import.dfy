/** internal/store/legacy_import.go: importing accounts and bindings in one transaction.

    Both imports run the same loop over entries that are prepared from their input: trimmed,
    with the key that tells duplicates apart and the node the entry is to be bound to. */
module LegacyImport {
  import Decimal
  import NodeMatch
  import opened Percent
  import opened Results
  import opened Runs
  import S = Subscription
  import P = SubscriptionParse
  import opened Text

  type Id = string

  datatype Account = Account(id: Id, customer: Id, uuid: string, emailTag: string, flow: string)

  // The tables an import writes: customers by e-mail, the customers that have a token,
  // accounts by UUID, and bindings of account ids to node ids.
  datatype Db = Db(customers: map<string, Id>, tokens: set<Id>, accounts: map<string, Account>, bindings: set<(Id, Id)>)

  // One prepared entry; `node` is None when no node matches.
  datatype Entry = Entry(uuid: string, emailTag: string, flow: string, key: string, node: Option<Id>)

  // Which statements for an entry fail, and the random id a new account would get.
  datatype Item = Item(entry: Entry, newId: Id, lookupFails: bool, insertFails: bool, bindFails: bool)

  datatype Counts = Counts(customers: nat, tokens: nat, created: nat, existing: nat, bindings: nat, unmatched: nat, skipped: nat)

  const NOTHING: Counts := Counts(0, 0, 0, 0, 0, 0, 0)

  // A transaction under way: its view of the tables, the counters and the keys seen.
  datatype Progress = Progress(db: Db, counts: Counts, seen: set<string>, error: Option<Error>)

  datatype Upserted = Upserted(db: Db, id: Id, created: bool)

  // upsertLegacyProxyAccountByUUIDTx
  function Upsert(db: Db, customer: Id, item: Item): Result<Upserted> {
    var e := item.entry;
    if item.lookupFails then Err(Failed)
    else if e.uuid in db.accounts then
      var account := db.accounts[e.uuid];
      if account.customer != customer || TrimSpace(account.flow) != TrimSpace(e.flow) then Err(Invalid)
      else Ok(Upserted(db, account.id, false))
    else if item.insertFails then Err(Failed)
    else
      var account := Account(item.newId, customer, e.uuid, e.emailTag, e.flow);
      Ok(Upserted(db.(accounts := db.accounts[e.uuid := account]), item.newId, true))
  }

  function Fail(p: Progress, error: Error): Progress { p.(error := Some(error)) }

  // What an entry does once its account is there.
  function BindEntry(p: Progress, account: Id, item: Item): Progress {
    if item.entry.node.None? then p.(counts := p.counts.(unmatched := p.counts.unmatched + 1))
    else if item.bindFails then Fail(p, Failed)
    else
      var binding := (account, item.entry.node.value);
      if binding in p.db.bindings then p
      else p.(db := p.db.(bindings := p.db.bindings + {binding}), counts := p.counts.(bindings := p.counts.bindings + 1))
  }

  // One iteration; after an error the loop is over.
  function Advance(customer: Id, p: Progress, item: Item): Progress {
    var e := item.entry;
    if p.error.Some? then p
    else if e.uuid == "" || e.key in p.seen then p.(counts := p.counts.(skipped := p.counts.skipped + 1))
    else
      var q := p.(seen := p.seen + {e.key});
      var u := Upsert(p.db, customer, item);
      if u.Err? then Fail(q, u.error)
      else
        var counts := if u.value.created then q.counts.(created := q.counts.created + 1)
                      else q.counts.(existing := q.counts.existing + 1);
        BindEntry(q.(db := u.value.db, counts := counts), u.value.id, item)
  }

  function Step(customer: Id): (Progress, Item) -> Progress { (p: Progress, item: Item) => Advance(customer, p, item) }

  // ---- What comes before the loop ----

  // Who the import is for; the last three say which of its own statements fail,
  // looking up the node or the nodes last.
  datatype Owner = Owner(email: string, newId: Id, wantToken: bool, customerFails: bool, tokenFails: bool, nodes: Option<Error>)

  function OwnerId(db: Db, o: Owner): Id { if o.email in db.customers then db.customers[o.email] else o.newId }

  function EnsureCustomer(db: Db, o: Owner): Progress {
    var p := Progress(db, NOTHING, {}, None);
    if o.customerFails then Fail(p, Failed)
    else if o.email in db.customers then p
    else Progress(db.(customers := db.customers[o.email := o.newId]), NOTHING.(customers := 1), {}, None)
  }

  function EnsureToken(p: Progress, customer: Id, o: Owner): Progress {
    if p.error.Some? || !o.wantToken then p
    else if o.tokenFails then Fail(p, Failed)
    else if customer in p.db.tokens then p
    else p.(db := p.db.(tokens := p.db.tokens + {customer}), counts := p.counts.(tokens := 1))
  }

  function Opened(db: Db, o: Owner): Progress {
    var p := EnsureToken(EnsureCustomer(db, o), OwnerId(db, o), o);
    if p.error.None? && o.nodes.Some? then Fail(p, o.nodes.value) else p
  }

  // The whole transaction, before it commits or rolls back.
  function Import(db: Db, o: Owner, items: seq<Item>): Progress {
    if Opened(db, o).error.Some? then Opened(db, o)
    else After(Step(OwnerId(db, o)), Opened(db, o), items)
  }

  // ---- The store ----

  class Store {
    var db: Db

    constructor (db: Db)
      ensures this.db == db
    {
      this.db := db;
    }

    /** The transaction: an error leaves the tables as they were, though the counters of what
        had been done so far are returned with it. */
    method ImportEntries(o: Owner, items: seq<Item>) returns (counts: Counts, error: Option<Error>)
      modifies this
      ensures var end := Import(old(db), o, items);
              counts == end.counts && error == end.error && db == if error.Some? then old(db) else end.db
    {
      var p := Opened(db, o);
      counts, error := p.counts, p.error;
      if error.Some? {
        return;
      }
      var customer := OwnerId(db, o);
      ghost var p0, step := p, Step(customer);
      for i := 0 to |items|
        invariant p == Run(step, p0, items, i) && p.error.None?
      {
        ghost var before := p;
        p := Advance(customer, p, items[i]);
        assert Run(step, p0, items, i + 1) == step(before, items[i]);
        if p.error.Some? {
          StopsAtError(customer, p0, items, i + 1);
          return p.counts, p.error;
        }
      }
      counts, error, db := p.counts, None, p.db;
    }
  }

  lemma StopsAtError(customer: Id, p: Progress, items: seq<Item>, n: nat)
    requires n <= |items| && Run(Step(customer), p, items, n).error.Some?
    ensures After(Step(customer), p, items) == Run(Step(customer), p, items, n)
  {
    Stopped(Step(customer), p, items, n, |items|);
  }

  // ---- Counters ----

  function Accounted(c: Counts): nat { c.created + c.existing + c.skipped }

  lemma {:induction false} EveryEntryCounted(customer: Id, p: Progress, items: seq<Item>, n: nat)
    requires n <= |items| && Run(Step(customer), p, items, n).error.None?
    ensures Accounted(Run(Step(customer), p, items, n).counts) == Accounted(p.counts) + n
  {
    if n > 0 {
      EveryEntryCounted(customer, p, items, n - 1);
    }
  }

  /** On success created, existing and skipped add up to the length of the input. */
  lemma CountsAddUp(db: Db, o: Owner, items: seq<Item>)
    requires Import(db, o, items).error.None?
    ensures Accounted(Import(db, o, items).counts) == |items|
  {
    EveryEntryCounted(OwnerId(db, o), Opened(db, o), items, |items|);
  }

  // ---- Idempotence ----

  // Everything in `a` is in `b`, accounts unchanged.
  predicate Within(a: Db, b: Db) {
    && (forall u :: u in a.accounts ==> u in b.accounts && b.accounts[u] == a.accounts[u])
    && a.bindings <= b.bindings && a.tokens <= b.tokens
    && (forall m :: m in a.customers ==> m in b.customers && b.customers[m] == a.customers[m])
  }

  lemma WithinTransitive(a: Db, b: Db, c: Db)
    requires Within(a, b) && Within(b, c)
    ensures Within(a, c)
  {
  }

  lemma AdvanceGrows(customer: Id, p: Progress, item: Item)
    ensures Within(p.db, Advance(customer, p, item).db)
    ensures Advance(customer, p, item).db.customers == p.db.customers && Advance(customer, p, item).db.tokens == p.db.tokens
  {
  }

  lemma {:induction false} RunGrows(customer: Id, p: Progress, items: seq<Item>, n: nat, m: nat)
    requires n <= m <= |items|
    ensures Within(Run(Step(customer), p, items, n).db, Run(Step(customer), p, items, m).db)
    ensures Run(Step(customer), p, items, m).error.None? ==> Run(Step(customer), p, items, n).error.None?
    ensures Run(Step(customer), p, items, m).db.customers == Run(Step(customer), p, items, n).db.customers
    ensures Run(Step(customer), p, items, m).db.tokens == Run(Step(customer), p, items, n).db.tokens
  {
    if n < m {
      RunGrows(customer, p, items, n, m - 1);
      var q := Run(Step(customer), p, items, m - 1);
      AdvanceGrows(customer, q, items[m - 1]);
      WithinTransitive(Run(Step(customer), p, items, n).db, q.db, Run(Step(customer), p, items, m).db);
    }
  }

  // What an entry needs for a second run to find everything in place.
  predicate Settled(db: Db, customer: Id, e: Entry) {
    && e.uuid in db.accounts && db.accounts[e.uuid].customer == customer
    && TrimSpace(db.accounts[e.uuid].flow) == TrimSpace(e.flow)
    && (e.node.Some? ==> (db.accounts[e.uuid].id, e.node.value) in db.bindings)
  }

  // A successful iteration settles its entry, unless it is skipped.
  lemma AdvanceSettles(customer: Id, p: Progress, item: Item)
    requires p.error.None? && Advance(customer, p, item).error.None?
    ensures item.entry.uuid == "" || item.entry.key in p.seen || Settled(Advance(customer, p, item).db, customer, item.entry)
  {
  }

  lemma SettledStays(a: Db, b: Db, customer: Id, e: Entry)
    requires Settled(a, customer, e) && Within(a, b)
    ensures Settled(b, customer, e)
  {
  }

  // The same entries, with statements that do not fail.
  predicate SameEntries(items: seq<Item>, again: seq<Item>) {
    |items| == |again| && forall i :: 0 <= i < |items| ==>
      again[i].entry == items[i].entry && !again[i].lookupFails && !again[i].insertFails && !again[i].bindFails
  }

  // A second run is where the first one was, over the final tables, having made nothing.
  predicate Shadows(q: Progress, p: Progress, end: Db) {
    && q.db == end && q.seen == p.seen && q.error.None?
    && q.counts.customers == q.counts.tokens == q.counts.created == q.counts.bindings == 0
  }

  lemma AdvanceShadows(customer: Id, p: Progress, q: Progress, item: Item, twin: Item, end: Db)
    requires p.error.None? && Advance(customer, p, item).error.None? && Shadows(q, p, end)
    requires twin.entry == item.entry && !twin.lookupFails && !twin.insertFails && !twin.bindFails
    requires Within(Advance(customer, p, item).db, end)
    ensures Shadows(Advance(customer, q, twin), Advance(customer, p, item), end)
  {
    AdvanceSettles(customer, p, item);
    if item.entry.uuid != "" && item.entry.key !in p.seen {
      SettledStays(Advance(customer, p, item).db, end, customer, item.entry);
      SeenNext(customer, p, item);
      SeenNext(customer, q, twin);
    }
  }

  lemma SeenNext(customer: Id, p: Progress, item: Item)
    requires p.error.None? && item.entry.uuid != "" && item.entry.key !in p.seen
    ensures Advance(customer, p, item).seen == p.seen + {item.entry.key}
  {
  }

  lemma {:induction false} RunShadows(customer: Id, p: Progress, q: Progress, items: seq<Item>, again: seq<Item>, n: nat,
                                      end: Db)
    requires n <= |items| && SameEntries(items, again) && Shadows(q, p, end)
    requires After(Step(customer), p, items).error.None? && After(Step(customer), p, items).db == end
    ensures Shadows(Run(Step(customer), q, again, n), Run(Step(customer), p, items, n), end)
  {
    if n > 0 {
      RunShadows(customer, p, q, items, again, n - 1, end);
      var a, b := Run(Step(customer), p, items, n - 1), Run(Step(customer), q, again, n - 1);
      RunGrows(customer, p, items, n, |items|);
      RunGrows(customer, p, items, n - 1, n);
      AdvanceShadows(customer, a, b, items[n - 1], again[n - 1], end);
    }
  }

  // The same owner, with statements that do not fail.
  predicate SameOwner(o: Owner, again: Owner) {
    again.email == o.email && again.wantToken == o.wantToken && !again.customerFails && !again.tokenFails && again.nodes.None?
  }

  lemma ReopensTheSame(db: Db, o: Owner, again: Owner, end: Db)
    requires SameOwner(o, again) && Opened(db, o).error.None? && Within(Opened(db, o).db, end)
    ensures OwnerId(end, again) == OwnerId(db, o)
    ensures Opened(end, again) == Progress(end, NOTHING, {}, None)
  {
    assert o.email in Opened(db, o).db.customers && Opened(db, o).db.customers[o.email] == OwnerId(db, o);
  }

  /** Idempotence: after a successful import the same input imports again without an error,
      changes nothing, and reports no customer, token, account or binding created. */
  lemma ImportTwice(db: Db, o: Owner, items: seq<Item>, againOwner: Owner, again: seq<Item>)
    requires Import(db, o, items).error.None? && SameOwner(o, againOwner) && SameEntries(items, again)
    ensures var end := Import(db, o, items).db;
            var second := Import(end, againOwner, again);
            && second.error.None? && second.db == end
            && second.counts.customers == second.counts.tokens == second.counts.created == second.counts.bindings == 0
  {
    var customer, p := OwnerId(db, o), Opened(db, o);
    var end := After(Step(customer), p, items).db;
    RunGrows(customer, p, items, 0, |items|);
    ReopensTheSame(db, o, againOwner, end);
    RunShadows(customer, p, Progress(end, NOTHING, {}, None), items, again, |items|, end);
  }

  // ---- The two imports ----

  const DEFAULT_PREFIX: string := "legacy-public"

  function ShortValue(value: string): string {
    var v := TrimSpace(value);
    if |v| <= 8 then v else v[|v| - 8..]
  }

  function TagOr(tag: string, prefix: string, uuid: string): string {
    if tag == "" then prefix + "-" + ShortValue(uuid) else tag
  }

  function TrimLink(l: P.Link): P.Link {
    l.(uuid := TrimSpace(l.uuid), emailTag := TrimSpace(l.emailTag), flow := TrimSpace(l.flow), host := TrimSpace(l.host),
       transport := TrimSpace(l.transport), security := TrimSpace(l.security), path := TrimSpace(l.path),
       hostHeader := TrimSpace(l.hostHeader), realityPublicKey := TrimSpace(l.realityPublicKey),
       realityShortId := TrimSpace(l.realityShortId))
  }

  function IntText(n: int): string { if n < 0 then "-" + Decimal.Print(-n) else Decimal.Print(n) }

  // legacySubscriptionLinkKey
  function LinkKey(l: P.Link): string {
    TrimSpace(l.uuid) + "|" + ToLower(TrimSpace(l.host)) + "|" + IntText(l.port) + "|" + ToLower(TrimSpace(l.transport)) +
    "|" + ToLower(TrimSpace(l.security)) + "|" + TrimSpace(l.path)
  }

  predicate NoBar(s: string) { '|' !in s }

  // The parts of a key.
  function KeyParts(l: P.Link): seq<string> {
    [TrimSpace(l.uuid), ToLower(TrimSpace(l.host)), IntText(l.port), ToLower(TrimSpace(l.transport)),
     ToLower(TrimSpace(l.security)), TrimSpace(l.path)]
  }

  lemma IntTextDigits(n: int)
    ensures forall i :: 0 <= i < |IntText(n)| ==> IsDigit(IntText(n)[i]) || IntText(n)[i] == '-'
    ensures IntText(n) != "" && (n < 0 <==> IntText(n)[0] == '-')
  {
    Decimal.PrintRoundTrip(if n < 0 then -n else n);
  }

  lemma IntTextInjective(m: int, n: int)
    requires IntText(m) == IntText(n)
    ensures m == n
  {
    IntTextDigits(m);
    IntTextDigits(n);
    Decimal.PrintRoundTrip(if m < 0 then -m else m);
    Decimal.PrintRoundTrip(if n < 0 then -n else n);
    if m < 0 {
      assert IntText(m)[1..] == Decimal.Print(-m) && IntText(n)[1..] == Decimal.Print(-n);
    }
  }

  lemma SplitSix(a: string, b: string, c: string, d: string, e: string, f: string)
    requires NoBar(a) && NoBar(b) && NoBar(c) && NoBar(d) && NoBar(e) && NoBar(f)
    ensures SplitOn(a + "|" + b + "|" + c + "|" + d + "|" + e + "|" + f, '|') == [a, b, c, d, e, f]
  {
    SplitNothing(a, '|');
    SplitNothing(b, '|');
    SplitNothing(c, '|');
    SplitNothing(d, '|');
    SplitNothing(e, '|');
    SplitNothing(f, '|');
    SplitAppend(a, '|', b);
    SplitAppend(a + "|" + b, '|', c);
    SplitAppend(a + "|" + b + "|" + c, '|', d);
    SplitAppend(a + "|" + b + "|" + c + "|" + d, '|', e);
    SplitAppend(a + "|" + b + "|" + c + "|" + d + "|" + e, '|', f);
  }

  lemma KeySplits(l: P.Link)
    requires forall p :: p in KeyParts(l) ==> NoBar(p)
    ensures SplitOn(LinkKey(l), '|') == KeyParts(l)
  {
    var ps := KeyParts(l);
    assert forall i :: 0 <= i < |ps| ==> ps[i] in ps;
    assert NoBar(ps[0]) && NoBar(ps[1]) && NoBar(ps[2]) && NoBar(ps[3]) && NoBar(ps[4]) && NoBar(ps[5]);
    SplitSix(ps[0], ps[1], ps[2], ps[3], ps[4], ps[5]);
  }

  /** Links without a bar in them are duplicates if and only if they agree on UUID, host, port,
      transport, security and path, host, transport and security up to letter case. */
  lemma DuplicatesAgree(l: P.Link, m: P.Link)
    requires forall p :: p in KeyParts(l) ==> NoBar(p)
    requires forall p :: p in KeyParts(m) ==> NoBar(p)
    ensures LinkKey(l) == LinkKey(m) <==>
            && TrimSpace(l.uuid) == TrimSpace(m.uuid) && EqualFold(TrimSpace(l.host), TrimSpace(m.host)) && l.port == m.port
            && EqualFold(TrimSpace(l.transport), TrimSpace(m.transport))
            && EqualFold(TrimSpace(l.security), TrimSpace(m.security)) && TrimSpace(l.path) == TrimSpace(m.path)
  {
    EqualFoldIsLowerEquality(TrimSpace(l.host), TrimSpace(m.host));
    EqualFoldIsLowerEquality(TrimSpace(l.transport), TrimSpace(m.transport));
    EqualFoldIsLowerEquality(TrimSpace(l.security), TrimSpace(m.security));
    if LinkKey(l) == LinkKey(m) {
      KeySplits(l);
      KeySplits(m);
      var a, b := KeyParts(l), KeyParts(m);
      assert a[0] == b[0] && a[1] == b[1] && a[2] == b[2] && a[3] == b[3] && a[4] == b[4] && a[5] == b[5];
      IntTextInjective(l.port, m.port);
    }
  }

  function LinkEntry(nodes: seq<S.Node>, prefix: string, link: P.Link): Entry {
    var l := TrimLink(link);
    var node := NodeMatch.ChoiceUpTo(nodes, l, |nodes|).node;
    Entry(l.uuid, TagOr(l.emailTag, prefix, l.uuid), l.flow, LinkKey(link), if node.Some? then Some(node.value.id) else None)
  }

  datatype AccountInput = AccountInput(uuid: string, emailTag: string, flow: string)

  function AccountEntry(node: Id, a: AccountInput): Entry {
    var uuid := TrimSpace(a.uuid);
    Entry(uuid, TagOr(TrimSpace(a.emailTag), DEFAULT_PREFIX, uuid), TrimSpace(a.flow), uuid, Some(node))
  }

  // How the statements for one entry end.
  datatype Plan = Plan(newId: Id, lookupFails: bool, insertFails: bool, bindFails: bool)

  function ItemFor(e: Entry, p: Plan): Item { Item(e, p.newId, p.lookupFails, p.insertFails, p.bindFails) }

  function LinkItems(nodes: seq<S.Node>, prefix: string, links: seq<P.Link>, plans: seq<Plan>): seq<Item>
    requires |plans| == |links|
  {
    seq(|links|, i requires 0 <= i < |links| => ItemFor(LinkEntry(nodes, prefix, links[i]), plans[i]))
  }

  function AccountItems(node: Id, accounts: seq<AccountInput>, plans: seq<Plan>): seq<Item>
    requires |plans| == |accounts|
  {
    seq(|accounts|, i requires 0 <= i < |accounts| => ItemFor(AccountEntry(node, accounts[i]), plans[i]))
  }

  predicate Did(before: Db, after: Db, o: Owner, items: seq<Item>, counts: Counts, error: Option<Error>) {
    var end := Import(before, o, items);
    counts == end.counts && error == end.error && after == if error.Some? then before else end.db
  }

  method PrepareLink(nodes: seq<S.Node>, prefix: string, raw: P.Link) returns (entry: Entry)
    ensures entry == LinkEntry(nodes, prefix, raw)
  {
    var link := TrimLink(raw);
    var node := NodeMatch.MatchLegacySubscriptionNode(nodes, link);
    entry := Entry(link.uuid, TagOr(link.emailTag, prefix, link.uuid), link.flow, LinkKey(link),
                   if node.Some? then Some(node.value.id) else None);
    TrimmedTwice(raw);
  }

  // The key of a link that has been trimmed already.
  lemma TrimmedTwice(l: P.Link)
    ensures LinkKey(TrimLink(l)) == LinkKey(l)
  {
    TrimmedIsFixed(l.uuid);
    TrimmedIsFixed(TrimSpace(l.uuid));
    TrimmedIsFixed(l.host);
    TrimmedIsFixed(TrimSpace(l.host));
    TrimmedIsFixed(l.transport);
    TrimmedIsFixed(TrimSpace(l.transport));
    TrimmedIsFixed(l.security);
    TrimmedIsFixed(TrimSpace(l.security));
    TrimmedIsFixed(l.path);
    TrimmedIsFixed(TrimSpace(l.path));
  }

  lemma TakeMore<T>(s: seq<T>, i: nat)
    requires i < |s|
    ensures s[..i] + [s[i]] == s[..i + 1]
  {
  }

  method PrepareLinks(nodes: seq<S.Node>, prefix: string, links: seq<P.Link>, plans: seq<Plan>) returns (items: seq<Item>)
    requires |plans| == |links|
    ensures items == LinkItems(nodes, prefix, links, plans)
  {
    items := [];
    ghost var all := LinkItems(nodes, prefix, links, plans);
    for i := 0 to |links|
      invariant items == all[..i]
    {
      var entry := PrepareLink(nodes, prefix, links[i]);
      items := items + [ItemFor(entry, plans[i])];
      TakeMore(all, i);
    }
  }

  method PrepareAccounts(node: Id, accounts: seq<AccountInput>, plans: seq<Plan>) returns (items: seq<Item>)
    requires |plans| == |accounts|
    ensures items == AccountItems(node, accounts, plans)
  {
    items := [];
    ghost var all := AccountItems(node, accounts, plans);
    for i := 0 to |accounts|
      invariant items == all[..i]
    {
      items := items + [ItemFor(AccountEntry(node, accounts[i]), plans[i])];
      TakeMore(all, i);
    }
  }

  method ImportLegacySubscriptionFile(store: Store, nodes: seq<S.Node>, o: Owner, prefix: string, links: seq<P.Link>,
                                      plans: seq<Plan>)
    returns (counts: Counts, error: Option<Error>)
    requires |plans| == |links|
    modifies store
    ensures TrimSpace(o.email) == "" ==> counts == NOTHING && error == Some(Invalid) && store.db == old(store.db)
    ensures TrimSpace(o.email) != "" ==>
      var tag := if TrimSpace(prefix) == "" then DEFAULT_PREFIX else TrimSpace(prefix);
      Did(old(store.db), store.db, o.(email := TrimSpace(o.email)), LinkItems(nodes, tag, links, plans), counts, error)
  {
    var owner, tag := o.(email := TrimSpace(o.email)), TrimSpace(prefix);
    if owner.email == "" {
      return NOTHING, Some(Invalid);
    }
    if tag == "" {
      tag := DEFAULT_PREFIX;
    }
    var items := PrepareLinks(nodes, tag, links, plans);
    counts, error := store.ImportEntries(owner, items);
  }

  // `nodes` maps node names to ids; a name that is not there ends the import, and so does a look-up
  // that fails.  This import makes no subscription token.
  method ImportLegacyProxyAccounts(store: Store, nodes: map<string, Id>, o: Owner, nodeName: string,
                                   accounts: seq<AccountInput>, plans: seq<Plan>)
    returns (counts: Counts, error: Option<Error>)
    requires |plans| == |accounts|
    modifies store
    ensures TrimSpace(o.email) == "" || TrimSpace(nodeName) == "" ==>
      counts == NOTHING && error == Some(Invalid) && store.db == old(store.db)
    ensures TrimSpace(o.email) != "" && TrimSpace(nodeName) != "" ==>
      var name, owner := TrimSpace(nodeName), o.(email := TrimSpace(o.email), wantToken := false);
      if o.nodes.Some? then Did(old(store.db), store.db, owner, [], counts, error)
      else if name in nodes
      then Did(old(store.db), store.db, owner, AccountItems(nodes[name], accounts, plans), counts, error)
      else Did(old(store.db), store.db, owner.(nodes := Some(NotFound)), [], counts, error)
  {
    var owner, name := o.(email := TrimSpace(o.email), wantToken := false), TrimSpace(nodeName);
    if owner.email == "" || name == "" {
      return NOTHING, Some(Invalid);
    }
    if owner.nodes.Some? {
      counts, error := store.ImportEntries(owner, []);
      return;
    }
    if name !in nodes {
      counts, error := store.ImportEntries(owner.(nodes := Some(NotFound)), []);
      return;
    }
    var items := PrepareAccounts(nodes[name], accounts, plans);
    counts, error := store.ImportEntries(owner, items);
  }
}
