/** internal/store/legacy_import.go and internal/store/store.go: which stored node a link means. */
module NodeMatch {
  import Decimal
  import opened Results
  import opened Subscription
  import opened SubscriptionParse
  import opened Text

  // ---- The defaults a stored node has ----

  function NormalizeRuntime(runtime: string): string { ToLower(TrimSpace(runtime)) }

  const XRAY: string := "xray"
  const CUSTOM: string := "custom"
  const WS: string := "ws"
  const TCP: string := "tcp"
  const TLS: string := "tls"
  const REALITY: string := "reality"
  const NONE: string := "none"
  const V2RAY: string := "/v2ray"
  const INBOUND_TAG: string := "proxy-control-plane-vless-in"

  // A row of proxy_nodes while it is being prepared for saving.
  class NodeRecord {
    var runtime: string
    var protocol: string
    var port: int
    var transport: string
    var security: string
    var path: string
    var realityPublicKey: string
    var realityShortId: string
    var runtimeApiEnabled: bool
    var runtimeInboundTag: string

    constructor (node: Node, runtimeApiEnabled: bool, runtimeInboundTag: string)
      ensures runtime == node.runtime && protocol == node.protocol && port == node.port && transport == node.transport
      ensures security == node.security && path == node.path
      ensures realityPublicKey == node.realityPublicKey && realityShortId == node.realityShortId
      ensures this.runtimeApiEnabled == runtimeApiEnabled && this.runtimeInboundTag == runtimeInboundTag
    {
      runtime, protocol, port := node.runtime, node.protocol, node.port;
      transport, security, path := node.transport, node.security, node.path;
      realityPublicKey, realityShortId := node.realityPublicKey, node.realityShortId;
      this.runtimeApiEnabled, this.runtimeInboundTag := runtimeApiEnabled, runtimeInboundTag;
    }

    predicate LooksLikeXray()
      reads this
    {
      EqualFold(transport, WS) || path == V2RAY || EqualFold(security, REALITY) ||
      realityPublicKey != "" || realityShortId != ""
    }

    lemma XraySigns()
      ensures LooksLikeXray() <==> ToLower(transport) == "ws" || path == "/v2ray" || ToLower(security) == "reality" ||
                                   realityPublicKey != "" || realityShortId != ""
      ensures XRAY == "xray" && CUSTOM == "custom" && "xray" != "custom"
    {
      EqualFoldIsLowerEquality(transport, WS);
      EqualFoldIsLowerEquality(security, REALITY);
      assert ToLower(WS) == "ws" && ToLower(REALITY) == "reality";
      assert |"xray"| == 4 && |"custom"| == 6;
    }

    method InferNodeRuntime() returns (inferred: string)
      ensures inferred == if LooksLikeXray() then XRAY else CUSTOM
      ensures inferred == "xray" <==> ToLower(transport) == "ws" || path == "/v2ray" || ToLower(security) == "reality" ||
                                      realityPublicKey != "" || realityShortId != ""
      ensures inferred == "xray" || inferred == "custom"
    {
      XraySigns();
      if EqualFold(transport, WS) || path == V2RAY {
        return XRAY;
      }
      if EqualFold(security, REALITY) || realityPublicKey != "" || realityShortId != "" {
        return XRAY;
      }
      inferred := CUSTOM;
    }

    // The defaults of a node that Xray runs.
    method SetXrayDefaults()
      modifies this`transport, this`security, this`path
      ensures transport == ValueOr(old(transport), if old(path) != "" then WS else TCP)
      ensures security == ValueOr(old(security), if transport == WS || old(path) != "" then TLS else REALITY)
      ensures path == if transport == WS then ValueOr(old(path), V2RAY) else old(path)
    {
      if transport == "" {
        transport := if path != "" then WS else TCP;
      }
      if security == "" {
        security := if transport == WS || path != "" then TLS else REALITY;
      }
      if transport == WS && path == "" {
        path := V2RAY;
      }
    }

    method SetRuntime()
      modifies this`runtime
      ensures runtime == ValueOr(NormalizeRuntime(old(runtime)), if old(LooksLikeXray()) then XRAY else CUSTOM)
    {
      runtime := NormalizeRuntime(runtime);
      if runtime == "" {
        runtime := InferNodeRuntime();
      }
    }

    method SetRemainingDefaults()
      modifies this`port, this`transport, this`security, this`runtimeInboundTag
      ensures port == if old(port) == 0 then 443 else old(port)
      ensures transport == ValueOr(old(transport), TCP) && security == ValueOr(old(security), NONE)
      ensures port != 0 && transport != "" && security != ""
      ensures runtimeInboundTag == if runtimeApiEnabled && old(runtimeInboundTag) == "" then INBOUND_TAG
                                   else old(runtimeInboundTag)
    {
      if port == 0 {
        port := 443;
      }
      if transport == "" {
        transport := TCP;
      }
      if security == "" {
        security := NONE;
      }
      if runtimeApiEnabled && runtimeInboundTag == "" {
        runtimeInboundTag := INBOUND_TAG;
      }
    }

    // What a field that is already set keeps, and what an unset one becomes.
    method SetNodeDefaults()
      modifies this
      ensures runtime == ValueOr(NormalizeRuntime(old(runtime)), if old(LooksLikeXray()) then XRAY else CUSTOM)
      ensures protocol == ValueOr(old(protocol), VLESS) && port == (if old(port) == 0 then 443 else old(port))
      ensures transport == ValueOr(old(transport), if runtime == "xray" && old(path) != "" then "ws" else "tcp")
      ensures security == ValueOr(old(security), if runtime != "xray" then "none"
                                                 else if transport == "ws" || old(path) != "" then "tls" else "reality")
      ensures path == if runtime == "xray" && transport == "ws" then ValueOr(old(path), "/v2ray") else old(path)
      ensures runtimeInboundTag == if runtimeApiEnabled && old(runtimeInboundTag) == "" then "proxy-control-plane-vless-in"
                                   else old(runtimeInboundTag)
      ensures protocol != "" && port != 0 && transport != "" && security != ""
      ensures realityPublicKey == old(realityPublicKey) && realityShortId == old(realityShortId)
      ensures runtimeApiEnabled == old(runtimeApiEnabled)
    {
      SetRuntime();
      if protocol == "" {
        protocol := VLESS;
      }
      if runtime == XRAY {
        SetXrayDefaults();
      }
      SetRemainingDefaults();
    }
  }

  // What the defaults and the port check of the store guarantee of a stored node.
  predicate Defaulted(node: Node) {
    node.protocol != "" && node.transport != "" && node.security != "" && 1 <= node.port <= 65535
  }

  // ---- Matching ----

  predicate MatchesHost(node: Node, host: string) {
    var h := TrimSpace(host);
    h != "" && (EqualFold(node.publicHost, h) || EqualFold(node.hostname, h))
  }

  // Where the link says something, it must agree with the node.
  predicate FoldedOrAbsent(wanted: string, have: string) { wanted == "" || EqualFold(have, wanted) }

  predicate SameOrAbsent(wanted: string, have: string) { wanted == "" || have == wanted }

  // The conditions under which the loop goes on to score a node.
  predicate Candidate(node: Node, link: Link) {
    && EqualFold(node.protocol, VLESS) && MatchesHost(node, link.host)
    && !(link.port > 0 && node.port != link.port)
    && FoldedOrAbsent(link.transport, node.transport) && FoldedOrAbsent(link.security, node.security)
    && SameOrAbsent(link.path, node.path) && SameOrAbsent(link.realityPublicKey, node.realityPublicKey)
  }

  function Points(wanted: string, points: nat): nat { if wanted == "" then 0 else points }

  function Bonus(wanted: string, have: string): nat { if wanted != "" && have == wanted then 1 else 0 }

  function Score(node: Node, link: Link): nat {
    10 + Points(link.transport, 3) + Points(link.security, 3) + Points(link.path, 3) +
    Bonus(link.hostHeader, node.hostHeader) + Points(link.realityPublicKey, 3) + Bonus(link.realityShortId, node.realityShortId)
  }

  // The highest score that any node can reach for a link.
  function MaxScore(link: Link): nat {
    10 + Points(link.transport, 3) + Points(link.security, 3) + Points(link.path, 3) + Points(link.hostHeader, 1) +
    Points(link.realityPublicKey, 3) + Points(link.realityShortId, 1)
  }

  // The node agrees with everything the link carries.
  predicate AgreesWith(node: Node, link: Link) {
    && Candidate(node, link)
    && SameOrAbsent(link.hostHeader, node.hostHeader) && SameOrAbsent(link.realityShortId, node.realityShortId)
  }

  /** A candidate reaches the maximum if and only if it agrees with the link throughout. */
  lemma FullScoreMeansAgreement(node: Node, link: Link)
    ensures Score(node, link) <= MaxScore(link)
    ensures Candidate(node, link) && Score(node, link) == MaxScore(link) <==> AgreesWith(node, link)
  {
  }

  // The choice: the first of the candidates with the highest score.
  predicate IsBest(nodes: seq<Node>, link: Link, i: nat)
    requires i < |nodes|
  {
    && Candidate(nodes[i], link)
    && (forall j :: 0 <= j < |nodes| && Candidate(nodes[j], link) ==> Score(nodes[j], link) <= Score(nodes[i], link))
    && (forall j :: 0 <= j < i && Candidate(nodes[j], link) ==> Score(nodes[j], link) < Score(nodes[i], link))
  }

  // The score of one node, or -1 where the loop skips it.
  function ScoreOf(node: Node, link: Link): int { if Candidate(node, link) then Score(node, link) else -1 }

  method ScoreNode(node: Node, link: Link) returns (score: int)
    ensures score == ScoreOf(node, link)
  {
    score := -1;
    if !EqualFold(node.protocol, VLESS) || !MatchesHost(node, link.host) || (link.port > 0 && node.port != link.port) {
      return;
    }
    var points := 10;
    if link.transport != "" {
      if !EqualFold(node.transport, link.transport) {
        return;
      }
      points := points + 3;
    }
    if link.security != "" {
      if !EqualFold(node.security, link.security) {
        return;
      }
      points := points + 3;
    }
    if link.path != "" {
      if node.path != link.path {
        return;
      }
      points := points + 3;
    }
    if link.hostHeader != "" && node.hostHeader == link.hostHeader {
      points := points + 1;
    }
    if link.realityPublicKey != "" {
      if node.realityPublicKey != link.realityPublicKey {
        return;
      }
      points := points + 3;
    }
    if link.realityShortId != "" && node.realityShortId == link.realityShortId {
      points := points + 1;
    }
    score := points;
  }

  /** The conditions under which a node can be found, written out. */
  lemma CandidateExactly(n: Node, link: Link)
    ensures Candidate(n, link) <==>
            && ToLower(n.protocol) == "vless" && TrimSpace(link.host) != ""
            && (ToLower(n.publicHost) == ToLower(TrimSpace(link.host)) || ToLower(n.hostname) == ToLower(TrimSpace(link.host)))
            && (link.port > 0 ==> n.port == link.port)
            && (link.transport != "" ==> ToLower(n.transport) == ToLower(link.transport))
            && (link.security != "" ==> ToLower(n.security) == ToLower(link.security))
            && (link.path != "" ==> n.path == link.path)
            && (link.realityPublicKey != "" ==> n.realityPublicKey == link.realityPublicKey)
  {
    EqualFoldIsLowerEquality(n.protocol, VLESS);
    EqualFoldIsLowerEquality(n.publicHost, TrimSpace(link.host));
    EqualFoldIsLowerEquality(n.hostname, TrimSpace(link.host));
    EqualFoldIsLowerEquality(n.transport, link.transport);
    EqualFoldIsLowerEquality(n.security, link.security);
    assert ToLower(VLESS) == "vless";
  }

  // How many of host header and short id a node shares with the link.
  function Shared(n: Node, link: Link): nat {
    (if link.hostHeader != "" && n.hostHeader == link.hostHeader then 1 else 0) +
    (if link.realityShortId != "" && n.realityShortId == link.realityShortId then 1 else 0)
  }

  /** Of two candidates the one that shares more of host header and short id with the link is
      preferred; all other points they have in common. */
  lemma ScoresDiffer(a: Node, b: Node, link: Link)
    ensures Score(a, link) - Score(b, link) == Shared(a, link) - Shared(b, link)
  {
  }

  // The loop's two variables after the first `n` nodes.
  datatype Choice = Choice(score: int, node: Option<Node>)

  function ChoiceUpTo(nodes: seq<Node>, link: Link, n: nat): Choice
    requires n <= |nodes|
  {
    if n == 0 then Choice(-1, None)
    else
      var c, score := ChoiceUpTo(nodes, link, n - 1), ScoreOf(nodes[n - 1], link);
      if score > c.score then Choice(score, Some(nodes[n - 1])) else c
  }

  method MatchLegacySubscriptionNode(nodes: seq<Node>, link: Link) returns (best: Option<Node>)
    ensures best == ChoiceUpTo(nodes, link, |nodes|).node
    ensures best.None? <==> forall i :: 0 <= i < |nodes| ==> !Candidate(nodes[i], link)
    ensures best.Some? ==> exists i :: 0 <= i < |nodes| && best.value == nodes[i] && IsBest(nodes, link, i)
    ensures best.Some? ==>
      var n, host := best.value, ToLower(TrimSpace(link.host));
      && n in nodes && ToLower(n.protocol) == "vless" && host != ""
      && (ToLower(n.publicHost) == host || ToLower(n.hostname) == host)
      && (link.port > 0 ==> n.port == link.port)
      && (link.transport != "" ==> ToLower(n.transport) == ToLower(link.transport))
      && (link.security != "" ==> ToLower(n.security) == ToLower(link.security))
      && (link.path != "" ==> n.path == link.path)
      && (link.realityPublicKey != "" ==> n.realityPublicKey == link.realityPublicKey)
  {
    best := None;
    var bestScore := -1;
    ghost var at: nat := 0;
    for i := 0 to |nodes|
      invariant at <= i && ChoiceUpTo(nodes, link, i) == Choice(bestScore, best)
      invariant best.None? ==> bestScore == -1 && forall j :: 0 <= j < i ==> !Candidate(nodes[j], link)
      invariant best.Some? ==> at < i && best.value == nodes[at] && Candidate(nodes[at], link) && bestScore == Score(nodes[at], link)
      invariant forall j :: 0 <= j < i && Candidate(nodes[j], link) ==> Score(nodes[j], link) <= bestScore
      invariant forall j :: 0 <= j < at && Candidate(nodes[j], link) ==> Score(nodes[j], link) < bestScore
    {
      var score := ScoreNode(nodes[i], link);
      if score > bestScore {
        bestScore, best, at := score, Some(nodes[i]), i;
      }
    }
    if best.Some? {
      assert IsBest(nodes, link, at);
      CandidateExactly(best.value, link);
    }
  }

  // The same of the specification, with both directions written out.
  lemma FoundExactly(nodes: seq<Node>, link: Link, n: nat)
    requires n <= |nodes|
    ensures ChoiceUpTo(nodes, link, n).node.Some? ==> ChoiceUpTo(nodes, link, n).node.value in nodes[..n]
    ensures ChoiceUpTo(nodes, link, n).node.Some? ==> Candidate(ChoiceUpTo(nodes, link, n).node.value, link)
    ensures ChoiceUpTo(nodes, link, n).node.None? ==> ChoiceUpTo(nodes, link, n).score == -1
    ensures ChoiceUpTo(nodes, link, n).node.None? <==> forall m :: m in nodes[..n] ==> !Candidate(m, link)
  {
    if n > 0 {
      FoundExactly(nodes, link, n - 1);
      assert nodes[..n] == nodes[..n - 1] + [nodes[n - 1]];
    }
  }

  /** None is found if and only if no node meets the conditions. */
  lemma NoneFoundExactly(nodes: seq<Node>, link: Link)
    ensures ChoiceUpTo(nodes, link, |nodes|).node.None? <==>
            forall n :: n in nodes ==>
              !(&& ToLower(n.protocol) == "vless" && TrimSpace(link.host) != ""
                && (ToLower(n.publicHost) == ToLower(TrimSpace(link.host)) || ToLower(n.hostname) == ToLower(TrimSpace(link.host)))
                && (link.port > 0 ==> n.port == link.port)
                && (link.transport != "" ==> ToLower(n.transport) == ToLower(link.transport))
                && (link.security != "" ==> ToLower(n.security) == ToLower(link.security))
                && (link.path != "" ==> n.path == link.path)
                && (link.realityPublicKey != "" ==> n.realityPublicKey == link.realityPublicKey))
  {
    FoundExactly(nodes, link, |nodes|);
    assert nodes[..|nodes|] == nodes;
    forall n { CandidateExactly(n, link); }
  }

  // ---- Importing one's own links ----

  // Matching never looks at the whole raw text, the UUID, the label or the other fields.
  lemma OwnNodeAgrees(account: Account, node: Node)
    requires StoredAccount(account) && StoredNode(node) && Defaulted(node) && node.protocol == VLESS
    ensures AgreesWith(node, Expected(account, node))
  {
    var link := Expected(account, node);
    HostNameTrimmed(HostOf(node));
    TrimmedIsFixed(HostOf(node));
    EqualFoldIsLowerEquality(VLESS, VLESS);
    EqualFoldIsLowerEquality(HostOf(node), HostOf(node));
    EqualFoldIsLowerEquality(node.transport, node.transport);
    EqualFoldIsLowerEquality(node.security, node.security);
  }

  // What a node must have in common with the printed one to be taken for it.
  predicate LooksLike(n: Node, node: Node) {
    var host := if node.publicHost != "" then node.publicHost else node.hostname;
    && ToLower(n.protocol) == "vless" && n.port == node.port
    && (ToLower(n.publicHost) == ToLower(host) || ToLower(n.hostname) == ToLower(host))
    && ToLower(n.transport) == ToLower(node.transport) && ToLower(n.security) == ToLower(node.security)
    && (node.path != "" ==> n.path == node.path) && (node.hostHeader != "" ==> n.hostHeader == node.hostHeader)
    && (node.realityPublicKey != "" ==> n.realityPublicKey == node.realityPublicKey)
    && (node.realityShortId != "" ==> n.realityShortId == node.realityShortId)
  }

  lemma AgreesIsLooksLike(account: Account, node: Node, n: Node)
    requires StoredAccount(account) && StoredNode(node) && Defaulted(node)
    ensures AgreesWith(n, Expected(account, node)) <==> LooksLike(n, node)
  {
    HostNameTrimmed(HostOf(node));
    TrimmedIsFixed(HostOf(node));
    CandidateExactly(n, Expected(account, node));
  }

  /** Self-import: parsing a link that the system printed and matching it always finds a node;
      the node it was printed for reaches the highest score there is; and the node found is the
      first, in the order of the list, that agrees with the link in everything it carries. */
  lemma SelfImport(nodes: seq<Node>, account: Account, node: Node, i: nat)
    requires StoredAccount(account) && StoredNode(node) && Defaulted(node) && node.protocol == VLESS && node in nodes
    requires i < |nodes| && IsBest(nodes, Expected(account, node), i)
    ensures ParseLink(URI(account, node)) == Some(Expected(account, node))
    ensures var link := Expected(account, node);
            && Candidate(node, link) && Score(node, link) == MaxScore(link)
            && AgreesWith(nodes[i], link)
            && forall j :: 0 <= j < i ==> !AgreesWith(nodes[j], link)
    ensures LooksLike(nodes[i], node) && forall j :: 0 <= j < i ==> !LooksLike(nodes[j], node)
  {
    var link := Expected(account, node);
    LinkRoundTrip(account, node);
    OwnNodeAgrees(account, node);
    FullScoreMeansAgreement(node, link);
    FullScoreMeansAgreement(nodes[i], link);
    var k :| 0 <= k < |nodes| && nodes[k] == node;
    AgreesIsLooksLike(account, node, nodes[i]);
    forall j | 0 <= j < i ensures !AgreesWith(nodes[j], link) && !LooksLike(nodes[j], node) {
      FullScoreMeansAgreement(nodes[j], link);
      AgreesIsLooksLike(account, node, nodes[j]);
    }
  }

  // And there is always such a node.
  lemma SelfImportFinds(nodes: seq<Node>, account: Account, node: Node)
    requires StoredAccount(account) && StoredNode(node) && Defaulted(node) && node.protocol == VLESS && node in nodes
    ensures exists i :: 0 <= i < |nodes| && IsBest(nodes, Expected(account, node), i)
  {
    var link := Expected(account, node);
    OwnNodeAgrees(account, node);
    var k :| 0 <= k < |nodes| && nodes[k] == node;
    var scores := seq(|nodes|, i requires 0 <= i < |nodes| => ScoreOf(nodes[i], link));
    assert scores[k] == ScoreOf(nodes[k], link);
    var i := FirstMaximum(scores, k);
    assert forall j :: 0 <= j < |nodes| ==> scores[j] == ScoreOf(nodes[j], link);
    assert IsBest(nodes, link, i);
  }

  lemma FirstMaximum(scores: seq<int>, k: nat) returns (i: nat)
    requires k < |scores|
    ensures i < |scores| && scores[i] >= scores[k]
    ensures forall j :: 0 <= j < |scores| ==> scores[j] <= scores[i]
    ensures forall j :: 0 <= j < i ==> scores[j] < scores[i]
  {
    i := 0;
    for n := 1 to |scores|
      invariant i < n
      invariant forall j :: 0 <= j < n ==> scores[j] <= scores[i]
      invariant forall j :: 0 <= j < i ==> scores[j] < scores[i]
    {
      if scores[n] > scores[i] {
        i := n;
      }
    }
  }
}
