/** internal/subscription/subscription.go: printing a customer's links. */
module Subscription {
  import B = Base64
  import Decimal
  import Domain
  import opened GoURL
  import opened Percent
  import opened QueryParams
  import opened Results
  import opened Text

  type Id = string

  type Time = int

  datatype Node = Node(id: Id, name: string, hostname: string, publicHost: string, runtime: string, protocol: string,
                       port: int, transport: string, security: string, sni: string, fingerprint: string, alpn: string,
                       path: string, hostHeader: string, realityPublicKey: string, realityShortId: string, enabled: bool)

  datatype Account = Account(id: Id, customer: Id, protocol: string, uuid: string, emailTag: string, flow: string,
                             enabled: bool, expiresAt: Option<Time>, nodes: seq<Node>)

  datatype Customer = Customer(id: Id, status: string, expiresAt: Option<Time>)

  const VLESS: string := "vless"

  const ENCRYPTION: string := "encryption"
  const TYPE: string := "type"
  const SECURITY: string := "security"
  const FLOW: string := "flow"
  const SNI: string := "sni"
  const FINGERPRINT: string := "fp"
  const ALPN: string := "alpn"
  const PATH: string := "path"
  const HOST: string := "host"
  const PUBLIC_KEY: string := "pbk"
  const SHORT_ID: string := "sid"

  function ValueOr(value: string, fallback: string): string { if value == "" then fallback else value }

  function HostOf(node: Node): string { if node.publicHost == "" then node.hostname else node.publicHost }

  // The parameters of a link, in the order in which they are set.
  function Fields(account: Account, node: Node): (ps: seq<Param>)
    ensures |ps| == 11
  {
    [Param(ENCRYPTION, "none"), Param(TYPE, ValueOr(node.transport, "tcp")), Param(SECURITY, ValueOr(node.security, "none")),
     Param(FLOW, account.flow), Param(SNI, node.sni), Param(FINGERPRINT, node.fingerprint), Param(ALPN, node.alpn),
     Param(PATH, node.path), Param(HOST, node.hostHeader), Param(PUBLIC_KEY, node.realityPublicKey),
     Param(SHORT_ID, node.realityShortId)]
  }

  function SetIfNotEmpty(params: Params, key: string, value: string): Params {
    if value == "" then params else params[key := value]
  }

  function SetUpTo(ps: seq<Param>, n: nat): Params
    requires n <= |ps|
  {
    if n == 0 then map[] else SetIfNotEmpty(SetUpTo(ps, n - 1), ps[n - 1].key, ps[n - 1].value)
  }

  function ParamsOf(account: Account, node: Node): Params { SetUpTo(Fields(account, node), 11) }

  function LabelOf(account: Account, node: Node): string { node.name + "-" + account.emailTag }

  // Strings are byte strings, and a port is an int.
  predicate AccountBytes(account: Account) { Bytes(account.uuid) && Bytes(account.flow) && Bytes(account.emailTag) }

  predicate NodeBytes(node: Node) {
    && Bytes(HostOf(node)) && node.port <= Decimal.MAX_INT && Bytes(node.name)
    && Bytes(node.transport) && Bytes(node.security) && Bytes(node.sni) && Bytes(node.fingerprint) && Bytes(node.alpn)
    && Bytes(node.path) && Bytes(node.hostHeader) && Bytes(node.realityPublicKey) && Bytes(node.realityShortId)
  }

  predicate AllAccountBytes(account: Account) {
    AccountBytes(account) && forall i :: 0 <= i < |account.nodes| ==> NodeBytes(account.nodes[i])
  }

  // Stored data as links can carry it: UUIDs of letters, digits and dashes, host names of those
  // and dots, and no field with white space around it.
  predicate StoredAccount(account: Account) {
    AccountBytes(account) && IdText(account.uuid) && Trimmed(account.flow) && Trimmed(account.emailTag)
  }

  predicate StoredNode(node: Node) {
    && NodeBytes(node) && HostName(HostOf(node)) && node.port <= 65535 && Trimmed(node.name)
    && Trimmed(node.transport) && Trimmed(node.security) && Trimmed(node.sni) && Trimmed(node.fingerprint) && Trimmed(node.alpn)
    && Trimmed(node.path) && Trimmed(node.hostHeader) && Trimmed(node.realityPublicKey) && Trimmed(node.realityShortId)
  }

  predicate KeysDistinct(ps: seq<Param>) { forall i, j :: 0 <= i < j < |ps| ==> ps[i].key != ps[j].key }

  lemma LinkKeysDistinct(account: Account, node: Node)
    ensures KeysDistinct(Fields(account, node))
  {
    assert ENCRYPTION[0] == 'e' && TYPE[0] == 't' && FLOW[0] == 'f' && ALPN[0] == 'a' && PATH[0] == 'p' && HOST[0] == 'h';
    assert |ENCRYPTION| == 10 && |TYPE| == |FLOW| == |ALPN| == |PATH| == |HOST| == 4 && |SECURITY| == 8;
    assert |SNI| == |PUBLIC_KEY| == |SHORT_ID| == 3 && |FINGERPRINT| == 2;
    assert SNI[1] == 'n' && PUBLIC_KEY[1] == 'b' && SHORT_ID[1] == 'i';
  }

  lemma FieldsBytes(account: Account, node: Node)
    requires AccountBytes(account) && NodeBytes(node)
    ensures ListBytes(Fields(account, node))
  {
    assert Bytes("none") && Bytes("tcp");
    assert Bytes(ENCRYPTION) && Bytes(TYPE) && Bytes(SECURITY) && Bytes(FLOW) && Bytes(SNI) && Bytes(FINGERPRINT);
    assert Bytes(ALPN) && Bytes(PATH) && Bytes(HOST) && Bytes(PUBLIC_KEY) && Bytes(SHORT_ID);
  }

  function Lookup(params: Params, key: string): string { if key in params then params[key] else "" }

  lemma {:induction false} SetBytes(ps: seq<Param>, n: nat)
    requires n <= |ps| && ListBytes(ps)
    ensures AllBytes(SetUpTo(ps, n))
  {
    if n > 0 {
      SetBytes(ps, n - 1);
      assert ParamBytes(ps[n - 1]);
    }
  }

  lemma {:induction false} SetElsewhere(ps: seq<Param>, n: nat, key: string)
    requires n <= |ps| && forall j :: 0 <= j < n ==> ps[j].key != key
    ensures key !in SetUpTo(ps, n)
  {
    if n > 0 {
      SetElsewhere(ps, n - 1, key);
    }
  }

  lemma {:induction false} SetLookup(ps: seq<Param>, n: nat, i: nat)
    requires i < n <= |ps| && KeysDistinct(ps)
    ensures Lookup(SetUpTo(ps, n), ps[i].key) == ps[i].value
  {
    if i == n - 1 {
      SetElsewhere(ps, n - 1, ps[i].key);
    } else {
      SetLookup(ps, n - 1, i);
    }
  }

  lemma ParamsBytes(account: Account, node: Node)
    requires AccountBytes(account) && NodeBytes(node)
    ensures AllBytes(ParamsOf(account, node)) && Bytes(LabelOf(account, node))
  {
    FieldsBytes(account, node);
    SetBytes(Fields(account, node), 11);
  }

  ghost function QueryOf(account: Account, node: Node): string
    requires AccountBytes(account) && NodeBytes(node)
  {
    ParamsBytes(account, node);
    Encoded(ParamsOf(account, node))
  }

  function AuthorityOf(account: Account, node: Node): string {
    account.uuid + "@" + (HostOf(node) + ":" + Decimal.IntString(node.port))
  }

  // vlessURI: scheme, authority, query and label.
  ghost function URI(account: Account, node: Node): string
    requires AccountBytes(account) && NodeBytes(node)
  {
    ParamsBytes(account, node);
    (VLESS + ":" + ("//" + AuthorityOf(account, node) + "?" + QueryOf(account, node))) + "#" + QueryEscape(LabelOf(account, node))
  }

  // ---- The printed link, written out ----

  lemma {:induction false} SetKeys(ps: seq<Param>, n: nat, key: string)
    requires n <= |ps|
    ensures key in SetUpTo(ps, n) ==> exists i :: 0 <= i < n && ps[i].key == key
  {
    if n > 0 {
      SetKeys(ps, n - 1, key);
    }
  }

  lemma {:induction false} SetPresent(ps: seq<Param>, n: nat, i: nat)
    requires i < n <= |ps| && KeysDistinct(ps)
    ensures ps[i].key in SetUpTo(ps, n) <==> ps[i].value != ""
  {
    if i == n - 1 {
      SetElsewhere(ps, n - 1, ps[i].key);
    } else {
      SetPresent(ps, n - 1, i);
    }
  }

  predicate Holds(params: Params, key: string, value: string) {
    if value == "" then key !in params else key in params && params[key] == value
  }

  lemma FieldHeld(account: Account, node: Node, i: nat)
    requires i < 11
    ensures Holds(ParamsOf(account, node), Fields(account, node)[i].key, Fields(account, node)[i].value)
  {
    LinkKeysDistinct(account, node);
    SetPresent(Fields(account, node), 11, i);
    SetLookup(Fields(account, node), 11, i);
  }

  const KEYS: set<string> := {"encryption", "type", "security", "flow", "sni", "fp", "alpn", "path", "host", "pbk", "sid"}

  lemma FieldKeys(account: Account, node: Node)
    ensures forall i :: 0 <= i < 11 ==> Fields(account, node)[i].key in KEYS
  {
  }

  lemma OnlyKeys(account: Account, node: Node)
    ensures ParamsOf(account, node).Keys <= KEYS
  {
    FieldKeys(account, node);
    forall k | k in ParamsOf(account, node) ensures k in KEYS { SetKeys(Fields(account, node), 11, k); }
  }

  /** The parameters of a link under their keys: the first three always, the others if they are
      set, and nothing else. */
  lemma ParamsExactly(account: Account, node: Node)
    ensures var ps := ParamsOf(account, node);
            && ps.Keys <= {"encryption", "type", "security", "flow", "sni", "fp", "alpn", "path", "host", "pbk", "sid"}
            && Holds(ps, "encryption", "none")
            && Holds(ps, "type", if node.transport != "" then node.transport else "tcp")
            && Holds(ps, "security", if node.security != "" then node.security else "none")
            && Holds(ps, "flow", account.flow) && Holds(ps, "sni", node.sni) && Holds(ps, "fp", node.fingerprint)
            && Holds(ps, "alpn", node.alpn) && Holds(ps, "path", node.path) && Holds(ps, "host", node.hostHeader)
            && Holds(ps, "pbk", node.realityPublicKey) && Holds(ps, "sid", node.realityShortId)
  {
    OnlyKeys(account, node);
    forall i | 0 <= i < 11
      ensures Holds(ParamsOf(account, node), Fields(account, node)[i].key, Fields(account, node)[i].value)
    {
      FieldHeld(account, node, i);
    }
    FieldsRead(account, node, ParamsOf(account, node));
  }

  lemma FieldsRead(account: Account, node: Node, ps: Params)
    requires forall i :: 0 <= i < 11 ==> Holds(ps, Fields(account, node)[i].key, Fields(account, node)[i].value)
    ensures Holds(ps, "encryption", "none") && Holds(ps, "type", if node.transport != "" then node.transport else "tcp")
    ensures Holds(ps, "security", if node.security != "" then node.security else "none")
    ensures Holds(ps, "flow", account.flow) && Holds(ps, "sni", node.sni) && Holds(ps, "fp", node.fingerprint)
    ensures Holds(ps, "alpn", node.alpn) && Holds(ps, "path", node.path) && Holds(ps, "host", node.hostHeader)
    ensures Holds(ps, "pbk", node.realityPublicKey) && Holds(ps, "sid", node.realityShortId)
  {
    var fs := Fields(account, node);
    assert fs[0] == Param("encryption", "none") && fs[3] == Param("flow", account.flow) && fs[4] == Param("sni", node.sni);
    assert fs[5] == Param("fp", node.fingerprint) && fs[6] == Param("alpn", node.alpn) && fs[7] == Param("path", node.path);
    assert fs[8] == Param("host", node.hostHeader) && fs[9] == Param("pbk", node.realityPublicKey);
    assert fs[10] == Param("sid", node.realityShortId) && fs[1].key == "type" && fs[2].key == "security";
  }

  /** The whole link: the public host whenever there is one, and name and tag joined by a dash. */
  lemma PrintedExactly(account: Account, node: Node)
    requires AccountBytes(account) && NodeBytes(node)
    ensures AllBytes(ParamsOf(account, node)) && Bytes(node.name + "-" + account.emailTag)
    ensures URI(account, node) ==
            "vless" + "://" + account.uuid + "@" + (if node.publicHost != "" then node.publicHost else node.hostname) + ":" +
            Decimal.IntString(node.port) + "?" + Encoded(ParamsOf(account, node)) + "#" +
            QueryEscape(node.name + "-" + account.emailTag)
  {
    ParamsBytes(account, node);
    LinkAssociates(VLESS, account.uuid, HostOf(node), Decimal.IntString(node.port), QueryOf(account, node),
                   QueryEscape(LabelOf(account, node)));
  }

  // The parameters, set one after the other.
  method LinkParams(account: Account, node: Node) returns (params: Params)
    ensures params == ParamsOf(account, node)
  {
    ghost var fs := Fields(account, node);
    params := map[];
    params := params[ENCRYPTION := "none"];
    params := params[TYPE := ValueOr(node.transport, "tcp")];
    params := params[SECURITY := ValueOr(node.security, "none")];
    assert params == SetUpTo(fs, 3) by {
      assert SetUpTo(fs, 1) == map[ENCRYPTION := "none"];
      assert SetUpTo(fs, 2) == SetUpTo(fs, 1)[TYPE := ValueOr(node.transport, "tcp")];
    }
    params := SetIfNotEmpty(params, FLOW, account.flow);
    params := SetIfNotEmpty(params, SNI, node.sni);
    params := SetIfNotEmpty(params, FINGERPRINT, node.fingerprint);
    assert params == SetUpTo(fs, 6) by {
      assert SetUpTo(fs, 4) == SetIfNotEmpty(SetUpTo(fs, 3), FLOW, account.flow);
      assert SetUpTo(fs, 5) == SetIfNotEmpty(SetUpTo(fs, 4), SNI, node.sni);
    }
    params := SetIfNotEmpty(params, ALPN, node.alpn);
    params := SetIfNotEmpty(params, PATH, node.path);
    params := SetIfNotEmpty(params, HOST, node.hostHeader);
    assert params == SetUpTo(fs, 9) by {
      assert SetUpTo(fs, 7) == SetIfNotEmpty(SetUpTo(fs, 6), ALPN, node.alpn);
      assert SetUpTo(fs, 8) == SetIfNotEmpty(SetUpTo(fs, 7), PATH, node.path);
    }
    params := SetIfNotEmpty(params, PUBLIC_KEY, node.realityPublicKey);
    params := SetIfNotEmpty(params, SHORT_ID, node.realityShortId);
    assert SetUpTo(fs, 10) == SetIfNotEmpty(SetUpTo(fs, 9), PUBLIC_KEY, node.realityPublicKey);
  }

  method VlessURI(account: Account, node: Node) returns (uri: string)
    requires AccountBytes(account) && NodeBytes(node)
    ensures uri == URI(account, node)
  {
    var host := node.publicHost;
    if host == "" {
      host := node.hostname;
    }
    var params := LinkParams(account, node);
    ParamsBytes(account, node);
    var tag := QueryEscape(node.name + "-" + account.emailTag);
    var port := Decimal.FillIntString(node.port);
    var query := Encode(params);
    uri := VLESS + "://" + account.uuid + "@" + host + ":" + port + "?" + query + "#" + tag;
    LinkAssociates(VLESS, account.uuid, host, port, query, tag);
  }

  lemma LinkAssociates(scheme: string, user: string, host: string, port: string, query: string, tag: string)
    ensures scheme + "://" + user + "@" + host + ":" + port + "?" + query + "#" + tag ==
            (scheme + ":" + ("//" + (user + "@" + (host + ":" + port)) + "?" + query)) + "#" + tag
  {
    assert "://" == ":" + "//";
  }

  // ---- Build ----

  function IsActive(expiresAt: Option<Time>, now: Time): bool { expiresAt.None? || !(expiresAt.value < now) }

  predicate Takes(customer: Customer, account: Account, now: Time) {
    account.customer == customer.id && account.protocol == VLESS && account.enabled && IsActive(account.expiresAt, now)
  }

  predicate Offers(node: Node) { node.enabled && node.protocol == VLESS }

  // An account with one of its nodes.
  datatype Pair = Pair(account: Account, node: Node)

  function NodePairs(account: Account, n: nat): seq<Pair>
    requires n <= |account.nodes|
  {
    if n == 0 then []
    else NodePairs(account, n - 1) + (if Offers(account.nodes[n - 1]) then [Pair(account, account.nodes[n - 1])] else [])
  }

  // The pairs of the first `n` accounts that get a link, in Build's order.
  function PairsUpTo(customer: Customer, accounts: seq<Account>, n: nat, now: Time): seq<Pair>
    requires n <= |accounts|
  {
    if n == 0 then []
    else
      PairsUpTo(customer, accounts, n - 1, now) +
      (if Takes(customer, accounts[n - 1], now) then NodePairs(accounts[n - 1], |accounts[n - 1].nodes|) else [])
  }

  function Pairs(customer: Customer, accounts: seq<Account>, now: Time): seq<Pair> {
    if !Domain.CustomerStatusIsActive(customer.status) || !IsActive(customer.expiresAt, now) then []
    else PairsUpTo(customer, accounts, |accounts|, now)
  }

  // ---- The pairs, written out ----

  // Two places are in order if the account, or of one account the node, comes first.
  predicate Before(a: (nat, nat), b: (nat, nat)) { a.0 < b.0 || (a.0 == b.0 && a.1 < b.1) }

  predicate Increasing(at: seq<(nat, nat)>) { forall i, j :: 0 <= i < j < |at| ==> Before(at[i], at[j]) }

  predicate PairAt(accounts: seq<Account>, at: (nat, nat), p: Pair) {
    at.0 < |accounts| && at.1 < |accounts[at.0].nodes| && p == Pair(accounts[at.0], accounts[at.0].nodes[at.1])
  }

  // Each pair has its place ...
  ghost predicate AllAt(ps: seq<Pair>, at: seq<(nat, nat)>, accounts: seq<Account>, n: nat, takes: Account -> bool) {
    |at| == |ps| &&
    forall i :: 0 <= i < |at| ==>
      at[i].0 < n && PairAt(accounts, at[i], ps[i]) && takes(ps[i].account) && ps[i].node.enabled && ps[i].node.protocol == "vless"
  }

  // ... and each place that `takes` allows has its pair.
  ghost predicate Covered(at: seq<(nat, nat)>, accounts: seq<Account>, n: nat, takes: Account -> bool)
    requires n <= |accounts|
  {
    forall a: nat, m: nat | a < n && m < |accounts[a].nodes| && takes(accounts[a]) ::
      accounts[a].nodes[m].enabled && accounts[a].nodes[m].protocol == "vless" ==> (a, m) in at
  }

  ghost predicate Placed(ps: seq<Pair>, at: seq<(nat, nat)>, accounts: seq<Account>, n: nat, takes: Account -> bool)
    requires n <= |accounts|
  {
    Increasing(at) && AllAt(ps, at, accounts, n, takes) && Covered(at, accounts, n, takes)
  }

  // The places of one account's pairs.
  ghost predicate NodesPlaced(ps: seq<Pair>, at: seq<nat>, account: Account, n: nat)
    requires n <= |account.nodes|
  {
    && |at| == |ps| && (forall i, j :: 0 <= i < j < |at| ==> at[i] < at[j])
    && (forall i :: 0 <= i < |at| ==> at[i] < n && ps[i] == Pair(account, account.nodes[at[i]]) && Offers(ps[i].node))
    && (forall m: nat :: m < n && Offers(account.nodes[m]) ==> m in at)
  }

  lemma {:induction false} NodePlaces(account: Account, n: nat) returns (at: seq<nat>)
    requires n <= |account.nodes|
    ensures NodesPlaced(NodePairs(account, n), at, account, n)
  {
    at := [];
    if n > 0 {
      at := NodePlaces(account, n - 1);
      if Offers(account.nodes[n - 1]) {
        at := at + [n - 1];
      }
    }
  }

  function AtAccount(a: nat, at: seq<nat>): seq<(nat, nat)> { seq(|at|, i requires 0 <= i < |at| => (a, at[i])) }

  lemma PlacesIncrease(at: seq<(nat, nat)>, n: nat, nodes: seq<nat>)
    requires Increasing(at) && forall i :: 0 <= i < |at| ==> at[i].0 < n
    requires forall i, j :: 0 <= i < j < |nodes| ==> nodes[i] < nodes[j]
    ensures Increasing(at + AtAccount(n, nodes))
  {
  }

  lemma InEither(at: seq<(nat, nat)>, n: nat, nodes: seq<nat>, place: (nat, nat))
    requires place in at || (place.0 == n && place.1 in nodes)
    ensures place in at + AtAccount(n, nodes)
  {
    if place !in at {
      var i :| 0 <= i < |nodes| && nodes[i] == place.1;
      assert AtAccount(n, nodes)[i] == place;
    }
  }

  lemma MoreAt(ps: seq<Pair>, at: seq<(nat, nat)>, accounts: seq<Account>, n: nat, takes: Account -> bool, more: seq<Pair>,
               nodes: seq<nat>)
    requires n < |accounts| && AllAt(ps, at, accounts, n, takes) && takes(accounts[n])
    requires NodesPlaced(more, nodes, accounts[n], |accounts[n].nodes|)
    ensures AllAt(ps + more, at + AtAccount(n, nodes), accounts, n + 1, takes)
  {
  }

  lemma MoreCovered(at: seq<(nat, nat)>, accounts: seq<Account>, n: nat, takes: Account -> bool, more: seq<Pair>, nodes: seq<nat>)
    requires n < |accounts| && Covered(at, accounts, n, takes)
    requires NodesPlaced(more, nodes, accounts[n], |accounts[n].nodes|)
    ensures Covered(at + AtAccount(n, nodes), accounts, n + 1, takes)
  {
    forall a: nat, m: nat | a < n + 1 && m < |accounts[a].nodes| && takes(accounts[a]) && Offers(accounts[a].nodes[m])
      ensures (a, m) in at + AtAccount(n, nodes)
    {
      InEither(at, n, nodes, (a, m));
    }
  }

  lemma MorePlaces(ps: seq<Pair>, at: seq<(nat, nat)>, accounts: seq<Account>, n: nat, takes: Account -> bool,
                   more: seq<Pair>, nodes: seq<nat>)
    requires n < |accounts| && Placed(ps, at, accounts, n, takes) && takes(accounts[n])
    requires NodesPlaced(more, nodes, accounts[n], |accounts[n].nodes|)
    ensures Placed(ps + more, at + AtAccount(n, nodes), accounts, n + 1, takes)
  {
    PlacesIncrease(at, n, nodes);
    MoreAt(ps, at, accounts, n, takes, more, nodes);
    MoreCovered(at, accounts, n, takes, more, nodes);
  }

  lemma {:induction false} PairPlaces(customer: Customer, accounts: seq<Account>, n: nat, now: Time, takes: Account -> bool)
    returns (at: seq<(nat, nat)>)
    requires n <= |accounts| && forall i :: 0 <= i < n ==> takes(accounts[i]) == Takes(customer, accounts[i], now)
    ensures Placed(PairsUpTo(customer, accounts, n, now), at, accounts, n, takes)
  {
    at := [];
    if n > 0 {
      at := PairPlaces(customer, accounts, n - 1, now, takes);
      if takes(accounts[n - 1]) {
        var nodes := NodePlaces(accounts[n - 1], |accounts[n - 1].nodes|);
        MorePlaces(PairsUpTo(customer, accounts, n - 1, now), at, accounts, n - 1, takes,
                   NodePairs(accounts[n - 1], |accounts[n - 1].nodes|), nodes);
        at := at + AtAccount(n - 1, nodes);
      }
    }
  }

  /** The links of an active customer: one for each enabled vless node of each of the customer's
      enabled, unexpired vless accounts, in the order of the accounts and of their nodes. */
  lemma PairsExactly(customer: Customer, accounts: seq<Account>, now: Time) returns (at: seq<(nat, nat)>)
    requires ToLower(TrimSpace(customer.status)) == "active"
    requires customer.expiresAt.None? || customer.expiresAt.value >= now
    ensures Placed(Pairs(customer, accounts, now), at, accounts, |accounts|, (a: Account) =>
              a.customer == customer.id && a.protocol == "vless" && a.enabled && (a.expiresAt.None? || a.expiresAt.value >= now))
  {
    at := PairPlaces(customer, accounts, |accounts|, now, (a: Account) =>
      a.customer == customer.id && a.protocol == "vless" && a.enabled && (a.expiresAt.None? || a.expiresAt.value >= now));
  }

  predicate PairBytes(p: Pair) { AccountBytes(p.account) && NodeBytes(p.node) }

  predicate AllPairBytes(ps: seq<Pair>) { forall p :: p in ps ==> PairBytes(p) }

  ghost function Line(p: Pair): string { if PairBytes(p) then URI(p.account, p.node) else "" }

  function MapPairs(ps: seq<Pair>, f: Pair -> string): seq<string> {
    seq(|ps|, i requires 0 <= i < |ps| => f(ps[i]))
  }

  ghost function Lines(ps: seq<Pair>): seq<string> { MapPairs(ps, Line) }

  // strings.Join with a newline.
  function JoinLines(lines: seq<string>): string {
    if |lines| == 0 then ""
    else if |lines| == 1 then lines[0]
    else JoinLines(lines[..|lines| - 1]) + "\n" + lines[|lines| - 1]
  }

  lemma {:induction false} NodePairsBytes(account: Account, n: nat)
    requires n <= |account.nodes| && AllAccountBytes(account)
    ensures AllPairBytes(NodePairs(account, n))
  {
    if n > 0 {
      NodePairsBytes(account, n - 1);
    }
  }

  lemma {:induction false} PairsBytes(customer: Customer, accounts: seq<Account>, n: nat, now: Time)
    requires n <= |accounts| && forall i :: 0 <= i < |accounts| ==> AllAccountBytes(accounts[i])
    ensures AllPairBytes(PairsUpTo(customer, accounts, n, now))
  {
    if n > 0 {
      PairsBytes(customer, accounts, n - 1, now);
      NodePairsBytes(accounts[n - 1], |accounts[n - 1].nodes|);
    }
  }

  lemma {:induction false} JoinedBytes(lines: seq<string>)
    requires forall i :: 0 <= i < |lines| ==> Bytes(lines[i])
    ensures Bytes(JoinLines(lines))
    decreases |lines|
  {
    if |lines| > 1 {
      JoinedBytes(lines[..|lines| - 1]);
    }
  }

  lemma RawBytes(ps: seq<Pair>)
    requires AllPairBytes(ps)
    ensures Bytes(JoinLines(Lines(ps)))
  {
    forall i | 0 <= i < |ps| ensures Bytes(Lines(ps)[i]) {
      assert ps[i] in ps && Lines(ps)[i] == Line(ps[i]);
      URIBytes(ps[i].account, ps[i].node);
    }
    JoinedBytes(Lines(ps));
  }

  lemma URIParts(account: Account, node: Node, user: string, host: string, port: string, query: string, tag: string)
    requires AccountBytes(account) && NodeBytes(node) && Bytes(LabelOf(account, node))
    requires user == account.uuid && host == HostOf(node) && port == Decimal.IntString(node.port)
    requires query == QueryOf(account, node) && tag == QueryEscape(LabelOf(account, node))
    ensures URI(account, node) == (VLESS + ":" + ("//" + (user + "@" + (host + ":" + port)) + "?" + query)) + "#" + tag
  {
  }

  lemma QueryChars(account: Account, node: Node)
    requires AccountBytes(account) && NodeBytes(node)
    ensures forall i :: 0 <= i < |QueryOf(account, node)| ==> QueryChar(QueryOf(account, node)[i])
    ensures Bytes(QueryOf(account, node))
  {
    ParamsBytes(account, node);
    EntriesBytes(ParamsOf(account, node));
    PrintedChars(Entries(ParamsOf(account, node)), |Entries(ParamsOf(account, node))|);
  }

  lemma AuthorityBytes(user: string, host: string, port: string)
    requires Bytes(user) && Bytes(host) && forall i :: 0 <= i < |port| ==> IsDigit(port[i])
    ensures Bytes(user + "@" + (host + ":" + port))
  {
  }

  lemma TagBytes(account: Account, node: Node)
    requires Bytes(LabelOf(account, node))
    ensures Bytes(QueryEscape(LabelOf(account, node)))
  {
    EscapedIsPlain(LabelOf(account, node));
    var tag := QueryEscape(LabelOf(account, node));
    assert forall i :: 0 <= i < |tag| ==> Plain(tag[i]);
  }

  lemma LinkAuthorityBytes(account: Account, node: Node)
    requires AccountBytes(account) && NodeBytes(node)
    ensures Bytes(account.uuid + "@" + (HostOf(node) + ":" + Decimal.IntString(node.port)))
  {
    Decimal.IntStringRoundTrip(node.port);
    AuthorityBytes(account.uuid, HostOf(node), Decimal.IntString(node.port));
  }

  lemma URIBytes(account: Account, node: Node)
    requires AccountBytes(account) && NodeBytes(node)
    ensures Bytes(URI(account, node))
  {
    ParamsBytes(account, node);
    QueryChars(account, node);
    TagBytes(account, node);
    LinkAuthorityBytes(account, node);
    var tag, query, port := QueryEscape(LabelOf(account, node)), QueryOf(account, node), Decimal.IntString(node.port);
    URIParts(account, node, account.uuid, HostOf(node), port, query, tag);
    SchemeBytes();
    LinkBytes(VLESS, account.uuid + "@" + (HostOf(node) + ":" + port), query, tag);
  }

  lemma SchemeBytes()
    ensures Bytes(VLESS)
  {
  }

  lemma LinkBytes(scheme: string, authority: string, query: string, tag: string)
    requires Bytes(scheme) && Bytes(authority) && Bytes(query) && Bytes(tag)
    ensures Bytes((scheme + ":" + ("//" + authority + "?" + query)) + "#" + tag)
  {
  }

  // The raw text of a subscription.
  ghost function RawText(customer: Customer, accounts: seq<Account>, now: Time): string {
    JoinLines(Lines(Pairs(customer, accounts, now)))
  }

  lemma OneLine(account: Account, node: Node)
    requires AccountBytes(account) && NodeBytes(node)
    ensures Lines([Pair(account, node)]) == [URI(account, node)]
  {
    assert Lines([Pair(account, node)])[0] == Line(Pair(account, node));
  }

  lemma NodeLineAppends(account: Account, j: nat)
    requires j < |account.nodes| && AllAccountBytes(account)
    ensures Lines(NodePairs(account, j + 1)) == Lines(NodePairs(account, j)) +
            (if Offers(account.nodes[j]) then [URI(account, account.nodes[j])] else [])
  {
    if Offers(account.nodes[j]) {
      OneLine(account, account.nodes[j]);
      LinesAppend(NodePairs(account, j), [Pair(account, account.nodes[j])]);
    } else {
      assert NodePairs(account, j + 1) == NodePairs(account, j);
    }
  }

  // The inner loop of Build.
  method NodeLines(account: Account) returns (lines: seq<string>)
    requires AllAccountBytes(account)
    ensures lines == Lines(NodePairs(account, |account.nodes|))
  {
    lines := [];
    for j := 0 to |account.nodes|
      invariant lines == Lines(NodePairs(account, j))
    {
      var node := account.nodes[j];
      if !node.enabled || node.protocol != VLESS {
        assert NodePairs(account, j + 1) == NodePairs(account, j);
        continue;
      }
      var uri := VlessURI(account, node);
      NodeLineAppends(account, j);
      lines := lines + [uri];
    }
  }

  lemma LinesAppend(a: seq<Pair>, b: seq<Pair>)
    ensures Lines(a + b) == Lines(a) + Lines(b)
  {
  }

  /** Build: one link for each pair, joined; plain, or in base64 unless the format is `raw`. */
  method Build(customer: Customer, accounts: seq<Account>, format: string, now: Time) returns (text: string)
    requires forall i :: 0 <= i < |accounts| ==> AllAccountBytes(accounts[i])
    ensures Bytes(RawText(customer, accounts, now))
    ensures text == if format == "raw" then RawText(customer, accounts, now) else B.Encode(RawText(customer, accounts, now))
  {
    PairsBytes(customer, accounts, |accounts|, now);
    if !Domain.CustomerStatusIsActive(customer.status) || !IsActive(customer.expiresAt, now) {
      return "";
    }
    var lines: seq<string> := [];
    ghost var pairs: seq<Pair> := [];
    for i := 0 to |accounts|
      invariant pairs == PairsUpTo(customer, accounts, i, now) && lines == Lines(pairs)
    {
      var account := accounts[i];
      if account.customer != customer.id || account.protocol != VLESS || !account.enabled || !IsActive(account.expiresAt, now) {
        continue;
      }
      var more := NodeLines(account);
      LinesAppend(pairs, NodePairs(account, |account.nodes|));
      lines := lines + more;
      pairs := pairs + NodePairs(account, |account.nodes|);
    }
    var raw := Joined(lines);
    RawBytes(pairs);
    text := if format == "raw" then raw else B.Encode(raw);
  }

  method Joined(lines: seq<string>) returns (text: string)
    ensures text == JoinLines(lines)
  {
    text := "";
    for i := 0 to |lines|
      invariant text == JoinLines(lines[..i])
    {
      assert lines[..i + 1][..i] == lines[..i];
      text := if i == 0 then lines[0] else text + "\n" + lines[i];
    }
    assert lines[..|lines|] == lines;
  }
}
