/** internal/store/legacy_import.go: what a successful import has done, told from its input and from
    the tables before and after, and when an entry makes it fail. */
module LegacyOutcome {
  import opened LegacyImport
  import NodeMatch
  import opened Results
  import opened Runs
  import S = Subscription
  import P = SubscriptionParse
  import opened Text

  // ---- One entry ----

  // An entry that is gone over: it has no UUID, or one with its key came before.
  predicate Skipped(items: seq<Item>, i: nat)
    requires i < |items|
  {
    items[i].entry.uuid == "" ||
    exists j :: 0 <= j < i && items[j].entry.uuid != "" && items[j].entry.key == items[i].entry.key
  }

  // The account an entry makes.
  function MadeFor(item: Item, customer: Id): Account {
    Account(item.newId, customer, item.entry.uuid, item.entry.emailTag, item.entry.flow)
  }

  /** When an entry ends the import: its look-up fails; or its account is another customer's or has
      another flow; or the account or the binding it needs cannot be inserted. */
  lemma FailsExactly(customer: Id, p: Progress, item: Item)
    requires p.error.None? && item.entry.uuid != "" && item.entry.key !in p.seen
    ensures var e, q := item.entry, Advance(customer, p, item);
            q.error.Some? <==>
            || item.lookupFails
            || (e.uuid in p.db.accounts && (p.db.accounts[e.uuid].customer != customer ||
                                            TrimSpace(p.db.accounts[e.uuid].flow) != TrimSpace(e.flow)))
            || (e.uuid !in p.db.accounts && item.insertFails)
            || (e.node.Some? && item.bindFails)
  {
  }

  // What one entry that is not gone over adds, and how it is counted.
  lemma EntryAdds(customer: Id, p: Progress, item: Item)
    requires p.error.None? && item.entry.uuid != "" && item.entry.key !in p.seen
    requires Advance(customer, p, item).error.None?
    ensures var q, e := Advance(customer, p, item), item.entry;
            && q.seen == p.seen + {e.key}
            && q.db.accounts == (if e.uuid in p.db.accounts then p.db.accounts else p.db.accounts[e.uuid := MadeFor(item, customer)])
            && q.db.bindings == (if e.node.Some? then p.db.bindings + {(q.db.accounts[e.uuid].id, e.node.value)} else p.db.bindings)
            && q.counts.created == p.counts.created + (if e.uuid in p.db.accounts then 0 else 1)
            && q.counts.bindings == p.counts.bindings + |q.db.bindings| - |p.db.bindings|
            && q.counts.unmatched == p.counts.unmatched + (if e.node.None? then 1 else 0)
            && q.counts.skipped == p.counts.skipped
            && q.counts.customers == p.counts.customers && q.counts.tokens == p.counts.tokens
  {
  }

  lemma EntryGoneOver(customer: Id, p: Progress, item: Item)
    requires p.error.None? && (item.entry.uuid == "" || item.entry.key in p.seen)
    ensures Advance(customer, p, item) == p.(counts := p.counts.(skipped := p.counts.skipped + 1))
  {
  }

  // ---- Over the whole input ----

  // How many of the first `n` indices there are with `p`.
  ghost function CountUpTo(n: nat, p: int -> bool): nat { |set i | 0 <= i < n && p(i)| }

  lemma CountMore(n: nat, p: int -> bool)
    ensures CountUpTo(n + 1, p) == CountUpTo(n, p) + (if p(n) then 1 else 0)
  {
    var before, after := set i | 0 <= i < n && p(i), set i | 0 <= i < n + 1 && p(i);
    if p(n) {
      assert after == before + {n};
    } else {
      assert after == before;
    }
  }

  ghost function Skips(items: seq<Item>): int -> bool { (i: int) => 0 <= i < |items| && Skipped(items, i) }

  ghost function Misses(items: seq<Item>): int -> bool {
    (i: int) => 0 <= i < |items| && !Skipped(items, i) && items[i].entry.node.None?
  }

  // The keys seen are those of the entries with a UUID so far.
  ghost predicate SeenSoFar(seen: set<string>, items: seq<Item>, n: nat)
    requires n <= |items|
  {
    forall k :: k in seen <==> exists j :: 0 <= j < n && items[j].entry.uuid != "" && items[j].entry.key == k
  }

  // Every account and binding that is new comes from an entry that was not gone over.
  ghost predicate AccountsCome(before: Db, now: Db, customer: Id, items: seq<Item>, n: nat)
    requires n <= |items|
  {
    forall u :: u in now.accounts && u !in before.accounts ==>
      exists i :: 0 <= i < n && !Skipped(items, i) && items[i].entry.uuid == u && now.accounts[u] == MadeFor(items[i], customer)
  }

  ghost predicate BindingsCome(before: Db, now: Db, items: seq<Item>, n: nat)
    requires n <= |items|
  {
    forall b :: b in now.bindings && b !in before.bindings ==>
      exists i :: 0 <= i < n && !Skipped(items, i) && items[i].entry.node == Some(b.1) &&
                  items[i].entry.uuid in now.accounts && now.accounts[items[i].entry.uuid].id == b.0
  }

  // The tables only ever grow, and by what the counters say.
  ghost predicate Grown(p: Progress, q: Progress) {
    && p.db.accounts.Keys <= q.db.accounts.Keys && p.db.bindings <= q.db.bindings
    && (forall u :: u in p.db.accounts ==> q.db.accounts[u] == p.db.accounts[u])
    && q.counts.created == p.counts.created + |q.db.accounts.Keys| - |p.db.accounts.Keys|
    && q.counts.bindings == p.counts.bindings + |q.db.bindings| - |p.db.bindings|
    && q.counts.customers == p.counts.customers && q.counts.tokens == p.counts.tokens
  }

  ghost predicate Accounts(p: Progress, q: Progress, customer: Id, items: seq<Item>, n: nat)
    requires n <= |items|
  {
    && Grown(p, q) && SeenSoFar(q.seen, items, n)
    && AccountsCome(p.db, q.db, customer, items, n) && BindingsCome(p.db, q.db, items, n)
    && q.counts.skipped == p.counts.skipped + CountUpTo(n, Skips(items))
    && q.counts.unmatched == p.counts.unmatched + CountUpTo(n, Misses(items))
  }

  lemma SkippedIsSeen(seen: set<string>, items: seq<Item>, n: nat)
    requires n < |items| && SeenSoFar(seen, items, n)
    ensures Skipped(items, n) <==> items[n].entry.uuid == "" || items[n].entry.key in seen
  {
  }

  lemma SeenMore(seen: set<string>, items: seq<Item>, n: nat)
    requires n < |items| && SeenSoFar(seen, items, n)
    ensures Skipped(items, n) ==> SeenSoFar(seen, items, n + 1)
    ensures !Skipped(items, n) ==> SeenSoFar(seen + {items[n].entry.key}, items, n + 1)
  {
    SkippedIsSeen(seen, items, n);
  }

  lemma AccountAdded(before: Db, q: Db, r: Db, customer: Id, items: seq<Item>, n: nat)
    requires n < |items| && AccountsCome(before, q, customer, items, n) && !Skipped(items, n)
    requires var u := items[n].entry.uuid;
             r.accounts == if u in q.accounts then q.accounts else q.accounts[u := MadeFor(items[n], customer)]
    ensures AccountsCome(before, r, customer, items, n + 1)
  {
    forall u | u in r.accounts && u !in before.accounts
      ensures exists i :: 0 <= i < n + 1 && !Skipped(items, i) && items[i].entry.uuid == u && r.accounts[u] == MadeFor(items[i], customer)
    {
      if u in q.accounts {
        var i :| 0 <= i < n && !Skipped(items, i) && items[i].entry.uuid == u && q.accounts[u] == MadeFor(items[i], customer);
      } else {
        assert r.accounts[u] == MadeFor(items[n], customer);
      }
    }
  }

  lemma BindingAdded(before: Db, q: Db, r: Db, items: seq<Item>, n: nat)
    requires n < |items| && BindingsCome(before, q, items, n) && !Skipped(items, n)
    requires forall u :: u in q.accounts ==> u in r.accounts && r.accounts[u] == q.accounts[u]
    requires var e := items[n].entry;
             e.uuid in r.accounts &&
             r.bindings == if e.node.Some? then q.bindings + {(r.accounts[e.uuid].id, e.node.value)} else q.bindings
    ensures BindingsCome(before, r, items, n + 1)
  {
    forall b | b in r.bindings && b !in before.bindings
      ensures exists i :: 0 <= i < n + 1 && !Skipped(items, i) && items[i].entry.node == Some(b.1) &&
                          items[i].entry.uuid in r.accounts && r.accounts[items[i].entry.uuid].id == b.0
    {
      if b in q.bindings {
        var i :| 0 <= i < n && !Skipped(items, i) && items[i].entry.node == Some(b.1) &&
                 items[i].entry.uuid in q.accounts && q.accounts[items[i].entry.uuid].id == b.0;
        assert r.accounts[items[i].entry.uuid].id == b.0;
      } else {
        assert items[n].entry.node == Some(b.1);
      }
    }
  }

  lemma AddedIsGrown(p: Progress, q: Progress, r: Progress, customer: Id, item: Item)
    requires Grown(p, q) && q.error.None? && item.entry.uuid != "" && item.entry.key !in q.seen
    requires r == Advance(customer, q, item) && r.error.None?
    ensures Grown(p, r)
  {
    EntryAdds(customer, q, item);
    if item.entry.uuid !in q.db.accounts {
      assert r.db.accounts.Keys == q.db.accounts.Keys + {item.entry.uuid};
    }
  }

  lemma EntryAccounted(p: Progress, q: Progress, customer: Id, items: seq<Item>, n: nat)
    requires n < |items| && Accounts(p, q, customer, items, n) && q.error.None?
    requires Advance(customer, q, items[n]).error.None?
    ensures Accounts(p, Advance(customer, q, items[n]), customer, items, n + 1)
  {
    var r := Advance(customer, q, items[n]);
    CountMore(n, Skips(items));
    CountMore(n, Misses(items));
    SkippedIsSeen(q.seen, items, n);
    SeenMore(q.seen, items, n);
    if Skipped(items, n) {
      EntryGoneOver(customer, q, items[n]);
      StillCome(p.db, q.db, customer, items, n);
    } else {
      EntryAdds(customer, q, items[n]);
      AddedIsGrown(p, q, r, customer, items[n]);
      AccountAdded(p.db, q.db, r.db, customer, items, n);
      BindingAdded(p.db, q.db, r.db, items, n);
    }
  }

  lemma StillCome(before: Db, now: Db, customer: Id, items: seq<Item>, n: nat)
    requires n < |items| && AccountsCome(before, now, customer, items, n) && BindingsCome(before, now, items, n)
    ensures AccountsCome(before, now, customer, items, n + 1) && BindingsCome(before, now, items, n + 1)
  {
    forall u | u in now.accounts && u !in before.accounts
      ensures exists i :: 0 <= i < n + 1 && !Skipped(items, i) && items[i].entry.uuid == u && now.accounts[u] == MadeFor(items[i], customer)
    {
      var i :| 0 <= i < n && !Skipped(items, i) && items[i].entry.uuid == u && now.accounts[u] == MadeFor(items[i], customer);
    }
    forall b | b in now.bindings && b !in before.bindings
      ensures exists i :: 0 <= i < n + 1 && !Skipped(items, i) && items[i].entry.node == Some(b.1) &&
                          items[i].entry.uuid in now.accounts && now.accounts[items[i].entry.uuid].id == b.0
    {
      var i :| 0 <= i < n && !Skipped(items, i) && items[i].entry.node == Some(b.1) &&
               items[i].entry.uuid in now.accounts && now.accounts[items[i].entry.uuid].id == b.0;
    }
  }

  lemma StartAccounted(p: Progress, customer: Id, items: seq<Item>)
    requires p.seen == {}
    ensures Accounts(p, p, customer, items, 0)
  {
    assert (set i | 0 <= i < 0 && Skips(items)(i)) == {} && (set i | 0 <= i < 0 && Misses(items)(i)) == {};
  }

  ghost function AccountsSince(p: Progress, customer: Id, items: seq<Item>): (nat, Progress) -> bool {
    (n: nat, q: Progress) => n <= |items| && q.error.None? ==> Accounts(p, q, customer, items, n)
  }

  lemma StepAccounted(p: Progress, q: Progress, customer: Id, items: seq<Item>, n: nat)
    requires n < |items| && AccountsSince(p, customer, items)(n, q)
    ensures AccountsSince(p, customer, items)(n + 1, Step(customer)(q, items[n]))
  {
    if Advance(customer, q, items[n]).error.None? {
      EntryAccounted(p, q, customer, items, n);
    }
  }

  lemma RunAccounted(p: Progress, customer: Id, items: seq<Item>, n: nat)
    requires n <= |items| && p.error.None? && p.seen == {}
    requires Run(Step(customer), p, items, n).error.None?
    ensures Accounts(p, Run(Step(customer), p, items, n), customer, items, n)
  {
    StartAccounted(p, customer, items);
    var inv := AccountsSince(p, customer, items);
    forall i | 0 <= i < n && inv(i, Run(Step(customer), p, items, i))
      ensures inv(i + 1, Step(customer)(Run(Step(customer), p, items, i), items[i]))
    {
      StepAccounted(p, Run(Step(customer), p, items, i), customer, items, i);
    }
    CountedInvariant(Step(customer), p, items, n, inv);
    assert inv(n, Run(Step(customer), p, items, n));
  }

  lemma KeysMore<K, V>(m: map<K, V>, k: K, v: V)
    ensures |m[k := v].Keys| == |m.Keys| + (if k in m then 0 else 1)
  {
    assert m[k := v].Keys == m.Keys + {k};
  }

  lemma CustomerEnsured(db: Db, o: Owner)
    requires EnsureCustomer(db, o).error.None?
    ensures var p := EnsureCustomer(db, o);
            && p.seen == {} && p.db == db.(customers := db.customers[o.email := OwnerId(db, o)])
            && p.counts == NOTHING.(customers := p.counts.customers)
            && p.counts.customers == |p.db.customers.Keys| - |db.customers.Keys|
  {
    KeysMore(db.customers, o.email, OwnerId(db, o));
    if o.email in db.customers {
      assert db.customers == db.customers[o.email := OwnerId(db, o)];
    }
  }

  lemma TokenEnsured(p: Progress, customer: Id, o: Owner)
    requires p.error.None? && EnsureToken(p, customer, o).error.None? && p.counts.tokens == 0
    ensures var q := EnsureToken(p, customer, o);
            && q.seen == p.seen && q.counts == p.counts.(tokens := q.counts.tokens)
            && q.db == p.db.(tokens := if o.wantToken then p.db.tokens + {customer} else p.db.tokens)
            && q.counts.tokens == |q.db.tokens| - |p.db.tokens|
  {
    if o.wantToken && customer in p.db.tokens {
      assert p.db.tokens + {customer} == p.db.tokens;
    }
  }

  // What comes before the loop makes a customer and a token if there are none, and counts them.
  lemma OpenedExactly(db: Db, o: Owner)
    requires Opened(db, o).error.None?
    ensures var p := Opened(db, o);
            && p.seen == {} && p.db.accounts == db.accounts && p.db.bindings == db.bindings
            && p.db.customers == db.customers[o.email := OwnerId(db, o)]
            && p.db.tokens == (if o.wantToken then db.tokens + {OwnerId(db, o)} else db.tokens)
            && p.counts == NOTHING.(customers := p.counts.customers, tokens := p.counts.tokens)
            && p.counts.customers == |p.db.customers.Keys| - |db.customers.Keys|
            && p.counts.tokens == |p.db.tokens| - |db.tokens|
  {
    CustomerEnsured(db, o);
    TokenEnsured(EnsureCustomer(db, o), OwnerId(db, o), o);
  }

  /** The counters of a successful import are what it did to the tables, and what of its input it
      went over or could not match. */
  lemma CountsExactly(db: Db, o: Owner, items: seq<Item>)
    requires Import(db, o, items).error.None?
    ensures var end, n := Import(db, o, items), |items|;
            && end.counts.created == |end.db.accounts.Keys| - |db.accounts.Keys|
            && end.counts.bindings == |end.db.bindings| - |db.bindings|
            && end.counts.customers == |end.db.customers.Keys| - |db.customers.Keys|
            && end.counts.tokens == |end.db.tokens| - |db.tokens|
            && end.counts.skipped == CountUpTo(n, (i: int) => 0 <= i < |items| && Skipped(items, i))
            && end.counts.unmatched ==
               CountUpTo(n, (i: int) => 0 <= i < |items| && !Skipped(items, i) && items[i].entry.node.None?)
            && end.counts.created + end.counts.existing + end.counts.skipped == n
  {
    OpenedExactly(db, o);
    CountsAddUp(db, o, items);
    RunAccounted(Opened(db, o), OwnerId(db, o), items, |items|);
    RunGrows(OwnerId(db, o), Opened(db, o), items, 0, |items|);
  }

  /** And the tables hold what they held, the customer, and what the entries that were not gone over
      make: accounts with their UUID, tag and flow, and bindings of their accounts to their nodes. */
  lemma TablesExactly(db: Db, o: Owner, items: seq<Item>)
    requires Import(db, o, items).error.None?
    ensures var end, customer := Import(db, o, items).db, OwnerId(db, o);
            && (forall u :: u in db.accounts ==> u in end.accounts && end.accounts[u] == db.accounts[u])
            && db.bindings <= end.bindings
            && end.customers == db.customers[o.email := customer]
            && end.tokens == (if o.wantToken then db.tokens + {customer} else db.tokens)
            && AccountsCome(db, end, customer, items, |items|) && BindingsCome(db, end, items, |items|)
            && forall i :: 0 <= i < |items| && !Skipped(items, i) ==> Settled(end, customer, items[i].entry)
  {
    var customer, p := OwnerId(db, o), Opened(db, o);
    OpenedExactly(db, o);
    RunAccounted(p, customer, items, |items|);
    RunGrows(customer, p, items, 0, |items|);
    forall i | 0 <= i < |items| && !Skipped(items, i) ensures Settled(Import(db, o, items).db, customer, items[i].entry) {
      EntrySettled(p, customer, items, i);
    }
  }

  lemma EntrySettled(p: Progress, customer: Id, items: seq<Item>, i: nat)
    requires i < |items| && !Skipped(items, i) && p.error.None? && p.seen == {}
    requires After(Step(customer), p, items).error.None?
    ensures Settled(After(Step(customer), p, items).db, customer, items[i].entry)
  {
    RunGrows(customer, p, items, i, |items|);
    RunGrows(customer, p, items, i + 1, |items|);
    var q := Run(Step(customer), p, items, i);
    RunAccounted(p, customer, items, i);
    SkippedIsSeen(q.seen, items, i);
    AdvanceSettles(customer, q, items[i]);
    SettledStays(Run(Step(customer), p, items, i + 1).db, After(Step(customer), p, items).db, customer, items[i].entry);
  }

  // ---- The two kinds of input ----

  // The tag of an account whose input carries none: a prefix and the end of its UUID.
  function TagFor(tag: string, prefix: string, uuid: string): string {
    if tag != "" then tag else prefix + "-" + (if |uuid| <= 8 then uuid else uuid[|uuid| - 8..])
  }

  lemma TagExactly(tag: string, prefix: string, uuid: string)
    requires Trimmed(uuid)
    ensures TagOr(tag, prefix, uuid) == TagFor(tag, prefix, uuid)
  {
    TrimmedIsFixed(uuid);
  }

  /** What an entry takes from a link: its fields without surrounding white space, the default tag if
      it has none, and the node that the trimmed link means. */
  lemma LinkEntryExactly(nodes: seq<S.Node>, prefix: string, link: P.Link)
    ensures var e, l := LinkEntry(nodes, prefix, link),
                        link.(uuid := TrimSpace(link.uuid), emailTag := TrimSpace(link.emailTag), flow := TrimSpace(link.flow),
                              host := TrimSpace(link.host), transport := TrimSpace(link.transport),
                              security := TrimSpace(link.security), path := TrimSpace(link.path),
                              hostHeader := TrimSpace(link.hostHeader), realityPublicKey := TrimSpace(link.realityPublicKey),
                              realityShortId := TrimSpace(link.realityShortId));
            && e.uuid == TrimSpace(link.uuid) && e.flow == TrimSpace(link.flow)
            && e.emailTag == TagFor(TrimSpace(link.emailTag), prefix, e.uuid)
            && var found := NodeMatch.ChoiceUpTo(nodes, l, |nodes|).node;
               e.node == if found.Some? then Some(found.value.id) else None
  {
    TrimmedIsFixed(link.uuid);
    TagExactly(TrimSpace(link.emailTag), prefix, TrimSpace(link.uuid));
  }

  /** And from an account for a node: the same, with the UUID itself to tell duplicates apart. */
  lemma AccountEntryExactly(node: Id, a: AccountInput)
    ensures var e := AccountEntry(node, a);
            && e.uuid == e.key == TrimSpace(a.uuid) && e.flow == TrimSpace(a.flow) && e.node == Some(node)
            && e.emailTag == TagFor(TrimSpace(a.emailTag), "legacy-public", e.uuid)
  {
    TrimmedIsFixed(a.uuid);
    TagExactly(TrimSpace(a.emailTag), "legacy-public", TrimSpace(a.uuid));
  }
}
