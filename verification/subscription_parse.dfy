/** internal/subscription/parse.go: reading links back, from plain text or from base64. */
module SubscriptionParse {
  import B = Base64
  import Decimal
  import opened GoURL
  import opened Percent
  import opened QueryParams
  import opened Results
  import opened Subscription
  import opened Text

  datatype Link = Link(raw: string, uuid: string, emailTag: string, flow: string, host: string, port: int,
                       transport: string, security: string, sni: string, fingerprint: string, alpn: string,
                       path: string, hostHeader: string, realityPublicKey: string, realityShortId: string)

  datatype ParseResult = ParseResult(links: seq<Link>, unsupported: nat)

  // ---- One link ----

  // A missing port means 443; any other must be a number from 1 to 65535.
  function ParsePort(text: string): Option<int> {
    if text == "" then Some(443)
    else if !AllDigits(text) || Decimal.Atoi(text).None? then None
    else
      var value := Decimal.Atoi(text).value;
      if value < 1 || value > 65535 then None else Some(value)
  }

  function Field(query: seq<Param>, key: string): string { TrimSpace(Get(query, key)) }

  // The link of a URL that has been taken apart.
  function LinkOf(raw: string, url: URL, host: string, port: int, query: seq<Param>): Link {
    Link(raw, TrimSpace(url.username), TrimSpace(url.fragment), Field(query, FLOW), host, port,
         Field(query, TYPE), Field(query, SECURITY), Field(query, SNI), Field(query, FINGERPRINT), Field(query, ALPN),
         Field(query, PATH), Field(query, HOST), Field(query, PUBLIC_KEY), Field(query, SHORT_ID))
  }

  // parseVLESSLink
  function ParseLink(raw: string): Option<Link> {
    var parsed := Parse(raw);
    if parsed.None? then None
    else
      var url := parsed.value;
      if !EqualFold(url.scheme, VLESS) || TrimSpace(url.username) == "" then None
      else
        var host := TrimSpace(HostPort(url.host).0);
        if host == "" then None
        else
          var port := ParsePort(HostPort(url.host).1);
          if port.None? then None else Some(LinkOf(raw, url, host, port.value, ParseQuery(url.query)))
  }

  // ---- What a printed link reads as ----

  // The label as a fragment brings it back: with every space as a plus sign.
  function LabelRead(account: Account, node: Node): string { SpacesToPlus(LabelOf(account, node)) }

  // The link a reader should get for an account and a node.
  ghost function Expected(account: Account, node: Node): Link
    requires AccountBytes(account) && NodeBytes(node)
  {
    Link(URI(account, node), account.uuid, LabelRead(account, node), account.flow, HostOf(node),
         Decimal.EffectivePort(node.port), ValueOr(node.transport, "tcp"), ValueOr(node.security, "none"), node.sni,
         node.fingerprint, node.alpn, node.path, node.hostHeader, node.realityPublicKey, node.realityShortId)
  }

  lemma TrimmedLabel(account: Account, node: Node)
    requires StoredAccount(account) && StoredNode(node)
    ensures Trimmed(LabelOf(account, node)) && Trimmed(LabelRead(account, node))
  {
    var s := LabelOf(account, node);
    assert s == node.name + ("-" + account.emailTag);
    assert s[0] == if node.name == "" then '-' else node.name[0];
    assert s[|s| - 1] == if account.emailTag == "" then '-' else account.emailTag[|account.emailTag| - 1];
    assert LabelRead(account, node)[0] == s[0] && LabelRead(account, node)[|s| - 1] == s[|s| - 1];
  }

  lemma IdTextTrimmed(s: string)
    requires IdText(s)
    ensures Trimmed(s)
  {
    assert IdChar(s[0]) && IdChar(s[|s| - 1]);
  }

  lemma HostNameTrimmed(s: string)
    requires HostName(s)
    ensures Trimmed(s)
  {
    assert NameChar(s[0]) && NameChar(s[|s| - 1]);
  }

  lemma ParsedPort(value: int)
    requires value <= 65535
    ensures AllDigits(Decimal.IntString(value)) && Decimal.IntString(value) != ""
    ensures ParsePort(Decimal.IntString(value)) == Some(Decimal.EffectivePort(value))
  {
    Decimal.IntStringRoundTrip(value);
  }

  lemma QueryLinkChars(account: Account, node: Node)
    requires AccountBytes(account) && NodeBytes(node)
    ensures forall i :: 0 <= i < |QueryOf(account, node)| ==> LinkChar(QueryOf(account, node)[i])
  {
    QueryChars(account, node);
    QueryCharsAreLinkChars(QueryOf(account, node));
  }

  lemma QueryCharsAreLinkChars(query: string)
    requires forall i :: 0 <= i < |query| ==> QueryChar(query[i])
    ensures forall i :: 0 <= i < |query| ==> LinkChar(query[i])
  {
  }

  // The URL of a printed link.
  lemma ParsedURL(account: Account, node: Node)
    requires StoredAccount(account) && StoredNode(node)
    ensures Parse(URI(account, node)) ==
            Some(URL(VLESS, account.uuid, HostOf(node) + ":" + Decimal.IntString(node.port), QueryOf(account, node),
                     LabelRead(account, node)))
  {
    ParamsBytes(account, node);
    var tag, query, port := QueryEscape(LabelOf(account, node)), QueryOf(account, node), Decimal.IntString(node.port);
    FragmentReads(LabelOf(account, node));
    QueryLinkChars(account, node);
    ParsedPort(node.port);
    URIParts(account, node, account.uuid, HostOf(node), port, query, tag);
    ParsedParts(account.uuid, HostOf(node), port, query, tag);
  }

  lemma ParsedParts(user: string, host: string, port: string, query: string, tag: string)
    requires IdText(user) && HostName(host) && port != "" && AllDigits(port) && FragmentUnescape(tag).Some?
    requires forall i :: 0 <= i < |query| ==> LinkChar(query[i])
    ensures Parse((VLESS + ":" + ("//" + (user + "@" + (host + ":" + port)) + "?" + query)) + "#" + tag) ==
            Some(URL(VLESS, user, host + ":" + port, query, FragmentUnescape(tag).value))
  {
    assert Letters(VLESS);
    GoURL.ParsePrinted(VLESS, user, host, port, query, tag);
  }

  // Each field of the query is as it was set.
  lemma FieldRead(account: Account, node: Node, i: nat)
    requires AccountBytes(account) && NodeBytes(node) && i < 11 && Trimmed(Fields(account, node)[i].value)
    ensures Field(ParseQuery(QueryOf(account, node)), Fields(account, node)[i].key) == Fields(account, node)[i].value
  {
    var ps := Fields(account, node);
    ParamsBytes(account, node);
    LinkKeysDistinct(account, node);
    SetLookup(ps, 11, i);
    ParamsRoundTrip(ParamsOf(account, node), ps[i].key);
    TrimmedIsFixed(ps[i].value);
  }

  lemma FieldsTrimmed(account: Account, node: Node, i: nat)
    requires StoredAccount(account) && StoredNode(node) && i < 11
    ensures Trimmed(Fields(account, node)[i].value)
  {
    assert Trimmed("none") && Trimmed("tcp");
  }

  // A query that holds the whole list reads back field by field.
  lemma TransportRead(query: seq<Param>, account: Account, node: Node)
    requires forall i :: 1 <= i < 6 ==> Field(query, Fields(account, node)[i].key) == Fields(account, node)[i].value
    ensures Field(query, TYPE) == ValueOr(node.transport, "tcp") && Field(query, SECURITY) == ValueOr(node.security, "none")
    ensures Field(query, FLOW) == account.flow && Field(query, SNI) == node.sni && Field(query, FINGERPRINT) == node.fingerprint
  {
    var fs := Fields(account, node);
    assert fs[1].key == TYPE && fs[2].key == SECURITY && fs[3].key == FLOW && fs[4].key == SNI && fs[5].key == FINGERPRINT;
  }

  lemma PathRead(query: seq<Param>, account: Account, node: Node)
    requires forall i :: 6 <= i < 11 ==> Field(query, Fields(account, node)[i].key) == Fields(account, node)[i].value
    ensures Field(query, ALPN) == node.alpn && Field(query, PATH) == node.path && Field(query, HOST) == node.hostHeader
    ensures Field(query, PUBLIC_KEY) == node.realityPublicKey && Field(query, SHORT_ID) == node.realityShortId
  {
    var fs := Fields(account, node);
    assert fs[6].key == ALPN && fs[7].key == PATH && fs[8].key == HOST && fs[9].key == PUBLIC_KEY && fs[10].key == SHORT_ID;
  }

  lemma FieldsRead(account: Account, node: Node, fs: seq<Param>, query: seq<Param>)
    requires StoredAccount(account) && StoredNode(node)
    requires fs == Fields(account, node) && query == ParseQuery(QueryOf(account, node))
    ensures forall i :: 0 <= i < 11 ==> Field(query, fs[i].key) == fs[i].value
  {
    forall i | 0 <= i < 11 ensures Field(query, fs[i].key) == fs[i].value {
      FieldsTrimmed(account, node, i);
      FieldRead(account, node, i);
    }
  }

  lemma QueryRead(account: Account, node: Node)
    requires StoredAccount(account) && StoredNode(node)
    ensures var query := ParseQuery(QueryOf(account, node));
            && Field(query, TYPE) == ValueOr(node.transport, "tcp") && Field(query, SECURITY) == ValueOr(node.security, "none")
            && Field(query, FLOW) == account.flow && Field(query, SNI) == node.sni
            && Field(query, FINGERPRINT) == node.fingerprint && Field(query, ALPN) == node.alpn
            && Field(query, PATH) == node.path && Field(query, HOST) == node.hostHeader
            && Field(query, PUBLIC_KEY) == node.realityPublicKey && Field(query, SHORT_ID) == node.realityShortId
  {
    var query := ParseQuery(QueryOf(account, node));
    FieldsRead(account, node, Fields(account, node), query);
    TransportRead(query, account, node);
    PathRead(query, account, node);
  }

  /** Print and parse, one link: every field comes back; the label comes back with its spaces
      turned into plus signs. */
  lemma LinkRoundTrip(account: Account, node: Node)
    requires StoredAccount(account) && StoredNode(node)
    ensures ParseLink(URI(account, node)) == Some(Expected(account, node))
  {
    var host, port := HostOf(node), Decimal.IntString(node.port);
    ParsedURL(account, node);
    ParsedPort(node.port);
    ParsePrintedHost(host, port);
    IdTextTrimmed(account.uuid);
    TrimmedIsFixed(account.uuid);
    HostNameTrimmed(host);
    TrimmedIsFixed(host);
    TrimmedLabel(account, node);
    TrimmedIsFixed(LabelRead(account, node));
    QueryRead(account, node);
    EqualFoldIsLowerEquality(VLESS, VLESS);
  }

  /** So the label is recovered if and only if it has no space. */
  lemma LabelRecovered(account: Account, node: Node)
    requires StoredAccount(account) && StoredNode(node)
    ensures Expected(account, node).emailTag == LabelOf(account, node) <==> ' ' !in LabelOf(account, node)
  {
    FragmentReads(LabelOf(account, node));
    FragmentRoundTrip(LabelOf(account, node));
  }

  // ---- A whole subscription ----

  const PREFIX: string := VLESS + "://"

  function NonEmptyUpTo(pieces: seq<string>, n: nat): seq<string>
    requires n <= |pieces|
  {
    if n == 0 then []
    else NonEmptyUpTo(pieces, n - 1) + (if pieces[n - 1] == "" then [] else [pieces[n - 1]])
  }

  function Unified(text: string): string {
    seq(|text|, i requires 0 <= i < |text| => if text[i] == '\r' then '\n' else text[i])
  }

  // strings.FieldsFunc at line breaks.
  function LinesOf(text: string): seq<string> {
    var pieces := SplitOn(Unified(text), '\n');
    NonEmptyUpTo(pieces, |pieces|)
  }

  predicate LooksLikeURI(line: string) {
    var i := Index(line, "://");
    i > 0 && forall j :: 0 <= j < i ==> SchemeChar(line[j])
  }

  // One line, trimmed: a link, another kind of URI, or noise; None is a link that does not parse.
  function AddLine(r: ParseResult, line: string): Option<ParseResult> {
    if line == "" then Some(r)
    else if !HasPrefix(ToLower(line), PREFIX) then Some(if LooksLikeURI(line) then r.(unsupported := r.unsupported + 1) else r)
    else
      var link := ParseLink(line);
      if link.None? then None else Some(r.(links := r.links + [link.value]))
  }

  function AddUpTo(lines: seq<string>, n: nat, add: (ParseResult, string) -> Option<ParseResult>): Option<ParseResult>
    requires n <= |lines|
  {
    if n == 0 then Some(ParseResult([], 0))
    else
      var before := AddUpTo(lines, n - 1, add);
      if before.None? then None else add(before.value, lines[n - 1])
  }

  function AddTrimmed(r: ParseResult, line: string): Option<ParseResult> { AddLine(r, TrimSpace(line)) }

  function ParseText(text: string): Option<ParseResult> { AddUpTo(LinesOf(text), |LinesOf(text)|, AddTrimmed) }

  predicate Blank(c: char) { c == ' ' || c == '\n' || c == '\r' || c == '\t' }

  // strings.Map that drops blanks.
  function Compact(text: string): string {
    if text == "" then "" else (if Blank(text[0]) then "" else [text[0]]) + Compact(text[1..])
  }

  predicate MentionsVLESS(text: string) { Contains(ToLower(text), PREFIX) }

  function TryDecode(compact: string, e: B.Encoding): Option<string> {
    var decoded := B.Decode(compact, e);
    if decoded.None? || !MentionsVLESS(TrimSpace(decoded.value)) then None else Some(TrimSpace(decoded.value))
  }

  const ENCODINGS: seq<B.Encoding> := [B.STD, B.RAW_STD, B.URL, B.RAW_URL]

  function FirstFrom(es: seq<B.Encoding>, i: nat, attempt: B.Encoding -> Option<string>): Option<string>
    requires i <= |es|
    decreases |es| - i
  {
    if i == |es| then None else if attempt(es[i]).Some? then attempt(es[i]) else FirstFrom(es, i + 1, attempt)
  }

  // The first of the four encodings that reads a text with a link in it.
  function DecodeSubscription(text: string): Option<string> {
    var compact := Compact(text);
    if compact == "" then None else FirstFrom(ENCODINGS, 0, (e: B.Encoding) => TryDecode(compact, e))
  }

  function ParseData(data: string): Option<ParseResult> {
    var text := TrimSpace(data);
    if text == "" then Some(ParseResult([], 0))
    else if MentionsVLESS(text) then ParseText(text)
    else
      var decoded := DecodeSubscription(text);
      ParseText(if decoded.Some? then decoded.value else text)
  }

  method DecodeSubscriptionBase64(text: string) returns (decoded: Option<string>)
    ensures decoded == DecodeSubscription(text)
  {
    var compact := Compact(text);
    if compact == "" {
      return None;
    }
    ghost var attempt := (e: B.Encoding) => TryDecode(compact, e);
    for i := 0 to |ENCODINGS|
      invariant FirstFrom(ENCODINGS, 0, attempt) == FirstFrom(ENCODINGS, i, attempt)
    {
      var text := TryDecode(compact, ENCODINGS[i]);
      if text.Some? {
        return text;
      }
    }
    decoded := None;
  }

  // ParseLinks; None is its error.
  method ParseLinks(data: string) returns (r: Option<ParseResult>)
    ensures r == ParseData(data)
  {
    var text := TrimSpace(data);
    if text == "" {
      return Some(ParseResult([], 0));
    }
    if !MentionsVLESS(text) {
      var decoded := DecodeSubscriptionBase64(text);
      if decoded.Some? {
        text := decoded.value;
      }
    }
    r := ParseAll(LinesOf(text));
  }

  lemma {:induction false} AddStops(lines: seq<string>, n: nat, m: nat, add: (ParseResult, string) -> Option<ParseResult>)
    requires n <= m <= |lines| && AddUpTo(lines, n, add).None?
    ensures AddUpTo(lines, m, add).None?
  {
    if n < m {
      AddStops(lines, n, m - 1, add);
    }
  }

  // One iteration of the loop of ParseLinks; `failed` leaves it with an error.
  method AddOne(r: ParseResult, raw: string) returns (next: ParseResult, failed: bool)
    ensures AddTrimmed(r, raw) == if failed then None else Some(next)
  {
    next, failed := r, false;
    var line := TrimSpace(raw);
    if line == "" {
      return;
    }
    if !HasPrefix(ToLower(line), PREFIX) {
      if LooksLikeURI(line) {
        next := next.(unsupported := next.unsupported + 1);
      }
      return;
    }
    var link := ParseLink(line);
    if link.None? {
      failed := true;
      return;
    }
    next := next.(links := next.links + [link.value]);
  }

  method ParseAll(lines: seq<string>) returns (r: Option<ParseResult>)
    ensures r == AddUpTo(lines, |lines|, AddTrimmed)
  {
    var found, failed := ParseResult([], 0), false;
    ghost var add := AddTrimmed;
    for i := 0 to |lines|
      invariant AddUpTo(lines, i, add) == Some(found)
    {
      found, failed := AddOne(found, lines[i]);
      if failed {
        AddStops(lines, i + 1, |lines|, add);
        return None;
      }
    }
    r := Some(found);
  }

  // ---- Round trip of a whole subscription ----

  predicate Visible(c: char) { 32 < c as int < 127 }

  // A line with no blank in it that starts like a link.
  predicate LinkLine(line: string) { PREFIX <= line && forall i :: 0 <= i < |line| ==> Visible(line[i]) }

  lemma {:induction false} SplitJoined(lines: seq<string>)
    requires lines != [] && forall i :: 0 <= i < |lines| ==> '\n' !in lines[i]
    ensures SplitOn(JoinLines(lines), '\n') == lines
    decreases |lines|
  {
    var init, last := lines[..|lines| - 1], lines[|lines| - 1];
    SplitNothing(last, '\n');
    if |lines| > 1 {
      SplitJoined(init);
      SplitAppend(JoinLines(init), '\n', last);
      assert JoinLines(lines) == JoinLines(init) + ['\n'] + last;
    }
    assert lines == init + [last];
  }

  lemma {:induction false} NonEmptyAll(pieces: seq<string>, n: nat)
    requires n <= |pieces| && forall i :: 0 <= i < n ==> pieces[i] != ""
    ensures NonEmptyUpTo(pieces, n) == pieces[..n]
  {
    if n > 0 {
      NonEmptyAll(pieces, n - 1);
      assert pieces[..n] == pieces[..n - 1] + [pieces[n - 1]];
    }
  }

  // The characters of joined lines.
  lemma {:induction false} JoinedChars(lines: seq<string>)
    requires forall i :: 0 <= i < |lines| ==> LinkLine(lines[i])
    ensures forall i :: 0 <= i < |JoinLines(lines)| ==> Visible(JoinLines(lines)[i]) || JoinLines(lines)[i] == '\n'
    ensures lines != [] ==> PREFIX <= JoinLines(lines) && Visible(JoinLines(lines)[|JoinLines(lines)| - 1])
    decreases |lines|
  {
    if |lines| > 1 {
      var init := lines[..|lines| - 1];
      assert forall i :: 0 <= i < |init| ==> init[i] == lines[i];
      JoinedChars(init);
    }
  }

  lemma LinkLineFacts(line: string)
    requires LinkLine(line)
    ensures '\n' !in line && line != ""
  {
  }

  lemma UnifiedUnchanged(text: string)
    requires '\r' !in text
    ensures Unified(text) == text
  {
  }

  lemma SplitLinesOf(raw: string, lines: seq<string>)
    requires Unified(raw) == raw && SplitOn(raw, '\n') == lines
    requires forall i :: 0 <= i < |lines| ==> lines[i] != ""
    ensures LinesOf(raw) == lines
  {
    NonEmptyAll(lines, |lines|);
    assert lines[..|lines|] == lines;
  }

  lemma JoinedHasNoReturn(lines: seq<string>)
    requires forall i :: 0 <= i < |lines| ==> LinkLine(lines[i])
    ensures '\r' !in JoinLines(lines)
  {
    JoinedChars(lines);
  }

  lemma JoinedLinesOf(lines: seq<string>)
    requires lines != [] && forall i :: 0 <= i < |lines| ==> LinkLine(lines[i])
    ensures LinesOf(JoinLines(lines)) == lines
  {
    JoinedHasNoReturn(lines);
    UnifiedUnchanged(JoinLines(lines));
    forall i | 0 <= i < |lines| ensures '\n' !in lines[i] && lines[i] != "" { LinkLineFacts(lines[i]); }
    SplitJoined(lines);
    SplitLinesOf(JoinLines(lines), lines);
  }

  lemma PrefixMentions(text: string)
    requires PREFIX <= text
    ensures HasPrefix(ToLower(text), PREFIX) && MentionsVLESS(text)
  {
    assert forall i :: 0 <= i < |PREFIX| ==> Lower(PREFIX[i]) == PREFIX[i];
    assert ToLower(text)[..|PREFIX|] == PREFIX;
    ContainsPrefix(ToLower(text), PREFIX);
  }

  lemma VisibleTrimmed(text: string)
    requires text != "" && Visible(text[0]) && Visible(text[|text| - 1])
    ensures TrimSpace(text) == text
  {
    TrimmedIsFixed(text);
  }

  predicate Appends(add: (ParseResult, string) -> Option<ParseResult>, line: string, link: Link, links: seq<Link>) {
    add(ParseResult(links, 0), line) == Some(ParseResult(links + [link], 0))
  }

  lemma {:induction false} AddLinks(lines: seq<string>, links: seq<Link>, n: nat, add: (ParseResult, string) -> Option<ParseResult>)
    requires n <= |lines| == |links|
    requires forall i :: 0 <= i < n ==> Appends(add, lines[i], links[i], links[..i])
    ensures AddUpTo(lines, n, add) == Some(ParseResult(links[..n], 0))
  {
    if n > 0 {
      AddLinks(lines, links, n - 1, add);
      assert Appends(add, lines[n - 1], links[n - 1], links[..n - 1]);
      assert links[..n] == links[..n - 1] + [links[n - 1]];
    }
  }

  lemma LinkLineAppends(line: string, link: Link, links: seq<Link>)
    requires LinkLine(line) && ParseLink(line) == Some(link)
    ensures Appends(AddTrimmed, line, link, links)
  {
    PrefixMentions(line);
    assert line[0] == PREFIX[0];
    VisibleTrimmed(line);
  }

  // Lines that parse give their links, in order.
  lemma ParseJoined(lines: seq<string>, links: seq<Link>)
    requires lines != [] && |lines| == |links| && forall i :: 0 <= i < |lines| ==> LinkLine(lines[i])
    requires forall i :: 0 <= i < |lines| ==> ParseLink(lines[i]) == Some(links[i])
    ensures ParseText(JoinLines(lines)) == Some(ParseResult(links, 0))
  {
    JoinedLinesOf(lines);
    AllLinksAdded(lines, links);
  }

  lemma AllLinksAdded(lines: seq<string>, links: seq<Link>)
    requires |lines| == |links| && forall i :: 0 <= i < |lines| ==> LinkLine(lines[i])
    requires forall i :: 0 <= i < |lines| ==> ParseLink(lines[i]) == Some(links[i])
    ensures AddUpTo(lines, |lines|, AddTrimmed) == Some(ParseResult(links, 0))
  {
    forall i | 0 <= i < |lines| ensures Appends(AddTrimmed, lines[i], links[i], links[..i]) {
      LinkLineAppends(lines[i], links[i], links[..i]);
    }
    AddLinks(lines, links, |lines|, AddTrimmed);
    assert links[..|links|] == links;
  }

  lemma JoinedLooks(lines: seq<string>)
    requires lines != [] && forall i :: 0 <= i < |lines| ==> LinkLine(lines[i])
    ensures var raw := JoinLines(lines); raw != "" && TrimSpace(raw) == raw && MentionsVLESS(raw)
  {
    JoinedChars(lines);
    var raw := JoinLines(lines);
    PrefixMentions(raw);
    assert raw[0] == PREFIX[0];
    VisibleTrimmed(raw);
  }

  // Plain text goes straight to the lines ...
  lemma PlainIsParsed(raw: string)
    requires raw != "" && TrimSpace(raw) == raw && MentionsVLESS(raw)
    ensures ParseData(raw) == ParseText(raw)
  {
  }

  lemma {:induction false} CompactNothing(text: string)
    requires forall i :: 0 <= i < |text| ==> !Blank(text[i])
    ensures Compact(text) == text
  {
    if text != "" {
      CompactNothing(text[1..]);
      assert text == [text[0]] + text[1..];
    }
  }

  lemma NoColonNoMention(text: string)
    requires ':' !in text
    ensures !MentionsVLESS(text)
  {
    var low := ToLower(text);
    assert forall i :: 0 <= i < |low| ==> low[i] != ':';
    assert PREFIX[5] == ':';
    forall j: nat ensures !OccursAt(low, PREFIX, j) {
      if j + |PREFIX| <= |low| {
        assert low[j..j + |PREFIX|][5] == low[j + 5];
      }
    }
  }

  lemma EncodedTrimmed(enc: string)
    requires enc != "" && forall i :: 0 <= i < |enc| ==> B.Base64Char(enc[i])
    ensures TrimSpace(enc) == enc
  {
    assert B.Base64Char(enc[0]) && B.Base64Char(enc[|enc| - 1]);
    VisibleTrimmed(enc);
  }

  lemma EncodedCompact(enc: string)
    requires forall i :: 0 <= i < |enc| ==> B.Base64Char(enc[i])
    ensures Compact(enc) == enc && ':' !in enc
  {
    CompactNothing(enc);
  }

  lemma FirstDecodes(enc: string, raw: string)
    requires enc != "" && Compact(enc) == enc && B.Decode(enc, B.STD) == Some(raw)
    requires TrimSpace(raw) == raw && MentionsVLESS(raw)
    ensures DecodeSubscription(enc) == Some(raw)
  {
    assert ENCODINGS[0] == B.STD && TryDecode(enc, B.STD) == Some(raw);
  }

  lemma DecodedIsParsed(enc: string, raw: string)
    requires enc != "" && TrimSpace(enc) == enc && !MentionsVLESS(enc) && DecodeSubscription(enc) == Some(raw)
    ensures ParseData(enc) == ParseText(raw)
  {
  }

  // ... and base64 text, which never looks like plain text, is always decoded first.
  lemma EncodedIsDecoded(raw: string, enc: string)
    requires enc != "" && (forall i :: 0 <= i < |enc| ==> B.Base64Char(enc[i])) && B.Decode(enc, B.STD) == Some(raw)
    requires TrimSpace(raw) == raw && MentionsVLESS(raw)
    ensures !MentionsVLESS(enc) && ParseData(enc) == ParseText(raw)
  {
    EncodedTrimmed(enc);
    EncodedCompact(enc);
    NoColonNoMention(enc);
    FirstDecodes(enc, raw);
    DecodedIsParsed(enc, raw);
  }

  lemma ParseEncoded(lines: seq<string>)
    requires lines != [] && (forall i :: 0 <= i < |lines| ==> LinkLine(lines[i])) && Bytes(JoinLines(lines))
    ensures !MentionsVLESS(B.Encode(JoinLines(lines)))
    ensures ParseData(B.Encode(JoinLines(lines))) == ParseText(JoinLines(lines))
  {
    var raw := JoinLines(lines);
    JoinedLooks(lines);
    B.EncodedChars(raw);
    B.EncodeRoundTrip(raw, B.STD);
    EncodedIsDecoded(raw, B.Encode(raw));
  }

  lemma URIIsLinkLine(account: Account, node: Node)
    requires StoredAccount(account) && StoredNode(node)
    ensures LinkLine(URI(account, node))
  {
    ParamsBytes(account, node);
    QueryLinkChars(account, node);
    ParsedPort(node.port);
    EscapedIsPlain(LabelOf(account, node));
    var tag, query, port := QueryEscape(LabelOf(account, node)), QueryOf(account, node), Decimal.IntString(node.port);
    URIParts(account, node, account.uuid, HostOf(node), port, query, tag);
    PartsAreVisible(account.uuid, HostOf(node), port, query, tag);
  }

  lemma PartsAreVisible(user: string, host: string, port: string, query: string, tag: string)
    requires IdText(user) && HostName(host) && AllDigits(port)
    requires forall i :: 0 <= i < |query| ==> LinkChar(query[i])
    requires forall i :: 0 <= i < |tag| ==> Plain(tag[i])
    ensures LinkLine((VLESS + ":" + ("//" + (user + "@" + (host + ":" + port)) + "?" + query)) + "#" + tag)
  {
    var authority := user + "@" + (host + ":" + port);
    assert forall i :: 0 <= i < |authority| ==>
      IdChar(authority[i]) || NameChar(authority[i]) || authority[i] == '@' || authority[i] == ':';
    assert Letters(VLESS);
    MainChars(VLESS, authority, query);
    var main := VLESS + ":" + ("//" + authority + "?" + query);
    assert forall i :: 0 <= i < |main| ==> LinkChar(main[i]);
    assert PREFIX == VLESS + ":" + "//";
    assert main == PREFIX + (authority + "?" + query);
  }

  predicate StoredPairs(ps: seq<Pair>) { forall p :: p in ps ==> StoredAccount(p.account) && StoredNode(p.node) }

  ghost function ExpectedLink(p: Pair): Link
    requires StoredAccount(p.account) && StoredNode(p.node)
  {
    Expected(p.account, p.node)
  }

  lemma LinesParse(ps: seq<Pair>, links: seq<Link>)
    requires ps != [] && StoredPairs(ps) && |links| == |ps|
    requires forall i :: 0 <= i < |ps| ==> links[i] == ExpectedLink(ps[i])
    ensures AllPairBytes(ps)
    ensures ParseData(JoinLines(Lines(ps))) == Some(ParseResult(links, 0))
    ensures Bytes(JoinLines(Lines(ps)))
    ensures ParseData(B.Encode(JoinLines(Lines(ps)))) == Some(ParseResult(links, 0))
    ensures !MentionsVLESS(B.Encode(JoinLines(Lines(ps))))
  {
    var lines := Lines(ps);
    forall i | 0 <= i < |lines| ensures LinkLine(lines[i]) && ParseLink(lines[i]) == Some(links[i]) {
      assert ps[i] in ps && lines[i] == Line(ps[i]);
      URIIsLinkLine(ps[i].account, ps[i].node);
      LinkRoundTrip(ps[i].account, ps[i].node);
    }
    RawBytes(ps);
    ParseJoined(lines, links);
    JoinedLooks(lines);
    PlainIsParsed(JoinLines(lines));
    ParseEncoded(lines);
  }

  lemma NothingParses()
    ensures ParseData("") == Some(ParseResult([], 0)) && B.Encode("") == ""
  {
  }

  /** Print and parse, a whole subscription: its plain text and its base64 text read as the same
      list, one link for each pair of account and node in the order of printing, and nothing
      unsupported; a base64 text with links in it never passes for plain text. */
  lemma SubscriptionRoundTrip(customer: Customer, accounts: seq<Account>, now: Time, links: seq<Link>)
    requires StoredPairs(Pairs(customer, accounts, now))
    requires |links| == |Pairs(customer, accounts, now)|
    requires forall i :: 0 <= i < |links| ==> links[i] == ExpectedLink(Pairs(customer, accounts, now)[i])
    ensures var raw := RawText(customer, accounts, now);
            && Bytes(raw)
            && ParseData(raw) == Some(ParseResult(links, 0))
            && ParseData(B.Encode(raw)) == Some(ParseResult(links, 0))
            && !MentionsVLESS(B.Encode(raw))
  {
    var ps := Pairs(customer, accounts, now);
    if ps == [] {
      NothingParses();
      NoColonNoMention("");
    } else {
      LinesParse(ps, links);
    }
  }

  // ---- What is read, written out ----

  /** A text is a link if and only if it is a URL with the scheme `vless`, a user, a host, and no
      port or one from 1 to 65535. */
  lemma ParseLinkExactly(raw: string)
    ensures ParseLink(raw).Some? <==>
      && Parse(raw).Some? && ToLower(Parse(raw).value.scheme) == "vless" && TrimSpace(Parse(raw).value.username) != ""
      && var (host, port) := HostPort(Parse(raw).value.host);
         TrimSpace(host) != "" && (port == "" || (AllDigits(port) && 1 <= Decimal.Value(port) <= 65535))
    ensures ParseLink(raw).Some? ==>
      var url, link := Parse(raw).value, ParseLink(raw).value;
      var (host, port) := HostPort(url.host);
      && link.raw == raw && link.uuid == TrimSpace(url.username) && link.emailTag == TrimSpace(url.fragment)
      && link.host == TrimSpace(host) && link.port == if port == "" then 443 else Decimal.Value(port)
  {
    EqualFoldIsLowerEquality(if Parse(raw).Some? then Parse(raw).value.scheme else "", VLESS);
    assert ToLower(VLESS) == "vless";
  }

  // Every other field is the parameter under its key.
  lemma ParseLinkFields(raw: string)
    requires ParseLink(raw).Some?
    ensures var query, link := ParseQuery(Parse(raw).value.query), ParseLink(raw).value;
            && link.flow == TrimSpace(Get(query, "flow")) && link.transport == TrimSpace(Get(query, "type"))
            && link.security == TrimSpace(Get(query, "security")) && link.sni == TrimSpace(Get(query, "sni"))
            && link.fingerprint == TrimSpace(Get(query, "fp")) && link.alpn == TrimSpace(Get(query, "alpn"))
            && link.path == TrimSpace(Get(query, "path")) && link.hostHeader == TrimSpace(Get(query, "host"))
            && link.realityPublicKey == TrimSpace(Get(query, "pbk")) && link.realityShortId == TrimSpace(Get(query, "sid"))
  {
  }

  // The fields of an expected link.
  lemma ExpectedExactly(account: Account, node: Node)
    requires StoredAccount(account) && StoredNode(node)
    ensures var link := Expected(account, node);
            && link.uuid == account.uuid && link.flow == account.flow
            && link.host == (if node.publicHost != "" then node.publicHost else node.hostname)
            && link.port == (if node.port <= 0 then 443 else node.port)
            && link.transport == (if node.transport != "" then node.transport else "tcp")
            && link.security == (if node.security != "" then node.security else "none")
            && link.sni == node.sni && link.fingerprint == node.fingerprint && link.alpn == node.alpn
            && link.path == node.path && link.hostHeader == node.hostHeader
            && link.realityPublicKey == node.realityPublicKey && link.realityShortId == node.realityShortId
  {
  }

  // Line breaks of either kind separate lines, empty ones are dropped, and all else is kept.
  lemma LinesExactly(a: string, b: string)
    ensures LinesOf("") == []
    ensures a != "" && '\n' !in a && '\r' !in a ==> LinesOf(a) == [a]
    ensures LinesOf(a + "\n" + b) == LinesOf(a) + LinesOf(b) == LinesOf(a + "\r" + b)
  {
    SplitNothing("", '\n');
    assert Unified("") == "" && NonEmptyUpTo([""], 1) == NonEmptyUpTo([""], 0);
    if a != "" && '\n' !in a && '\r' !in a {
      UnifiedUnchanged(a);
      SplitNothing(a, '\n');
      assert NonEmptyUpTo([a], 1) == NonEmptyUpTo([a], 0) + [a];
    }
    BreakSplits(a, '\n', b);
    BreakSplits(a, '\r', b);
  }

  lemma {:induction false} NonEmptyAppend(p: seq<string>, q: seq<string>, n: nat)
    requires n <= |q|
    ensures NonEmptyUpTo(p + q, |p| + n) == NonEmptyUpTo(p, |p|) + NonEmptyUpTo(q, n)
  {
    if n > 0 {
      NonEmptyAppend(p, q, n - 1);
    } else {
      NonEmptyPrefix(p, q, |p|);
    }
  }

  lemma {:induction false} NonEmptyPrefix(p: seq<string>, q: seq<string>, n: nat)
    requires n <= |p|
    ensures NonEmptyUpTo(p + q, n) == NonEmptyUpTo(p, n)
  {
    if n > 0 {
      NonEmptyPrefix(p, q, n - 1);
    }
  }

  lemma BreakSplits(a: string, c: char, b: string)
    requires c == '\n' || c == '\r'
    ensures LinesOf(a + [c] + b) == LinesOf(a) + LinesOf(b)
  {
    var p, q := SplitOn(Unified(a), '\n'), SplitOn(Unified(b), '\n');
    assert Unified(a + [c] + b) == Unified(a) + ['\n'] + Unified(b);
    SplitAppend(Unified(a), '\n', Unified(b));
    NonEmptyAppend(p, q, |q|);
  }

  // A line with a link, and one with another URI.
  ghost predicate IsLink(line: string) { HasPrefix(ToLower(TrimSpace(line)), "vless://") }

  ghost predicate IsURI(t: string) {
    exists i :: i > 0 && OccursAt(t, "://", i) &&
                forall j :: 0 <= j < i ==> 'a' <= t[j] <= 'z' || 'A' <= t[j] <= 'Z' || '0' <= t[j] <= '9' || t[j] == '+' ||
                                           t[j] == '-' || t[j] == '.'
  }

  ghost predicate IsOther(line: string) { !IsLink(line) && IsURI(TrimSpace(line)) }

  lemma LooksExactly(t: string)
    ensures LooksLikeURI(t) <==> IsURI(t)
  {
    var n := Index(t, "://");
    if LooksLikeURI(t) {
      assert OccursAt(t, "://", n);
    }
    if IsURI(t) {
      var i :| i > 0 && OccursAt(t, "://", i) && forall j :: 0 <= j < i ==> SchemeChar(t[j]);
      if n < i {
        assert t[n] == t[n..n + 3][0] == ':';
      }
    }
  }

  // What a line does to the result.
  ghost predicate Adds(add: (ParseResult, string) -> Option<ParseResult>, r: ParseResult, line: string, link: bool, other: bool,
                       parsed: Option<Link>)
  {
    add(r, line) == if link then (if parsed.None? then None else Some(r.(links := r.links + [parsed.value])))
                    else Some(r.(unsupported := r.unsupported + if other then 1 else 0))
  }

  lemma LineAdds(r: ParseResult, line: string)
    ensures Adds(AddLine, r, line, HasPrefix(ToLower(line), PREFIX), LooksLikeURI(line), ParseLink(line))
  {
    if line == "" {
      assert ToLower(line) == "" && |PREFIX| == 8;
      assert !HasPrefix(ToLower(line), PREFIX);
    }
  }

  lemma TrimmedLineAdds(r: ParseResult, line: string)
    ensures Adds(AddTrimmed, r, line, IsLink(line), IsOther(line), ParseLink(TrimSpace(line)))
  {
    LineAdds(r, TrimSpace(line));
    LooksExactly(TrimSpace(line));
    assert PREFIX == "vless://";
  }

  // The lines at `at`, in order, are those among the first `n` that hold a link, and parse to `links`.
  ghost predicate ReadFrom(lines: seq<string>, n: nat, at: seq<nat>, links: seq<Link>, link: string -> bool,
                           parse: string -> Option<Link>)
    requires n <= |lines|
  {
    && |at| == |links|
    && (forall k :: 0 <= k < |at| ==> at[k] < n && link(lines[at[k]]) && parse(lines[at[k]]) == Some(links[k]))
    && (forall j, k :: 0 <= j < k < |at| ==> at[j] < at[k])
    && (forall i: nat :: i < n && link(lines[i]) ==> i in at)
  }

  lemma OneMoreRead(lines: seq<string>, n: nat, at: seq<nat>, links: seq<Link>, found: Link, link: string -> bool,
                    parse: string -> Option<Link>)
    requires n < |lines| && ReadFrom(lines, n, at, links, link, parse) && link(lines[n]) && parse(lines[n]) == Some(found)
    ensures ReadFrom(lines, n + 1, at + [n], links + [found], link, parse)
  {
    forall i: nat | i < n + 1 && link(lines[i]) ensures i in at + [n] {
      assert (at + [n])[|at|] == n;
    }
  }

  ghost function CountUpTo(lines: seq<string>, n: nat, p: string -> bool): nat
    requires n <= |lines|
  {
    |set i | 0 <= i < n && p(lines[i])|
  }

  lemma CountNext(lines: seq<string>, n: nat, p: string -> bool)
    requires 0 < n <= |lines|
    ensures CountUpTo(lines, n, p) == CountUpTo(lines, n - 1, p) + if p(lines[n - 1]) then 1 else 0
  {
    var before, all := set i | 0 <= i < n - 1 && p(lines[i]), set i | 0 <= i < n && p(lines[i]);
    assert all == if p(lines[n - 1]) then before + {n - 1} else before;
  }

  // A text is refused if and only if some line starts like a link and does not parse.  Otherwise the
  // links are those of all such lines, in order, and all lines with other URIs are counted.
  ghost predicate ReadAs(r: Option<ParseResult>, lines: seq<string>, n: nat, at: seq<nat>, link: string -> bool,
                         other: string -> bool, parse: string -> Option<Link>)
    requires n <= |lines|
  {
    && (r.None? <==> exists i :: 0 <= i < n && link(lines[i]) && parse(lines[i]).None?)
    && (r.Some? ==> ReadFrom(lines, n, at, r.value.links, link, parse))
    && (r.Some? ==> r.value.unsupported == CountUpTo(lines, n, other))
  }

  lemma {:induction false} ReadUpTo(lines: seq<string>, n: nat, add: (ParseResult, string) -> Option<ParseResult>,
                                    link: string -> bool, other: string -> bool, parse: string -> Option<Link>)
    returns (at: seq<nat>)
    requires n <= |lines|
    requires forall r, i :: 0 <= i < n ==> Adds(add, r, lines[i], link(lines[i]), other(lines[i]), parse(lines[i]))
    requires forall i :: 0 <= i < n ==> !(link(lines[i]) && other(lines[i]))
    ensures ReadAs(AddUpTo(lines, n, add), lines, n, at, link, other, parse)
  {
    at := [];
    if n > 0 {
      at := ReadUpTo(lines, n - 1, add, link, other, parse);
      var before := AddUpTo(lines, n - 1, add);
      if before.Some? {
        assert Adds(add, before.value, lines[n - 1], link(lines[n - 1]), other(lines[n - 1]), parse(lines[n - 1]));
        CountNext(lines, n, other);
        if link(lines[n - 1]) && parse(lines[n - 1]).Some? {
          OneMoreRead(lines, n - 1, at, before.value.links, parse(lines[n - 1]).value, link, parse);
          at := at + [n - 1];
        }
      }
    }
  }

  function ParseTrimmed(line: string): Option<Link> { ParseLink(TrimSpace(line)) }

  /** What ParseText reads, line by line. */
  lemma ReadExactly(text: string, lines: seq<string>) returns (at: seq<nat>)
    requires lines == LinesOf(text)
    ensures ReadAs(ParseText(text), lines, |lines|, at, IsLink, IsOther, ParseTrimmed)
  {
    forall r, i | 0 <= i < |lines|
      ensures Adds(AddTrimmed, r, lines[i], IsLink(lines[i]), IsOther(lines[i]), ParseTrimmed(lines[i]))
    {
      TrimmedLineAdds(r, lines[i]);
    }
    at := ReadUpTo(lines, |lines|, AddTrimmed, IsLink, IsOther, ParseTrimmed);
  }

  // ---- The four encodings ----

  lemma {:induction false} CompactKeeps(text: string, c: char)
    requires c in text && !Blank(c)
    ensures c in Compact(text)
  {
    if text[0] != c {
      CompactKeeps(text[1..], c);
    }
  }

  lemma {:induction false} FirstOf(es: seq<B.Encoding>, i: nat, k: nat, attempt: B.Encoding -> Option<string>, found: string)
    requires i <= k < |es| && attempt(es[k]) == Some(found)
    requires forall j :: i <= j < |es| && attempt(es[j]).Some? ==> attempt(es[j]) == Some(found)
    ensures FirstFrom(es, i, attempt) == Some(found)
    decreases |es| - i
  {
    if attempt(es[i]).None? {
      FirstOf(es, i + 1, k, attempt, found);
    }
  }

  lemma {:induction false} NoneOf(es: seq<B.Encoding>, i: nat, attempt: B.Encoding -> Option<string>)
    requires i <= |es| && forall j :: i <= j < |es| ==> attempt(es[j]).None?
    ensures FirstFrom(es, i, attempt).None?
    decreases |es| - i
  {
    if i < |es| {
      NoneOf(es, i + 1, attempt);
    }
  }

  lemma AllFour(e: B.Encoding) returns (k: nat)
    ensures k < |ENCODINGS| && ENCODINGS[k] == e
  {
    k := (if e.url then 2 else 0) + if e.padded then 0 else 1;
    assert ENCODINGS[0] == B.STD && ENCODINGS[1] == B.RAW_STD && ENCODINGS[2] == B.URL && ENCODINGS[3] == B.RAW_URL;
  }

  lemma AnyDecodes(text: string, raw: string, e: B.Encoding)
    requires Compact(text) != "" && B.Decode(Compact(text), e) == Some(raw) && TrimSpace(raw) == raw && MentionsVLESS(raw)
    ensures DecodeSubscription(text) == Some(raw)
  {
    var compact := Compact(text);
    ghost var attempt := (f: B.Encoding) => TryDecode(compact, f);
    var k := AllFour(e);
    forall j | 0 <= j < |ENCODINGS| && attempt(ENCODINGS[j]).Some? ensures attempt(ENCODINGS[j]) == Some(raw) {
      B.DecodersAgree(compact, ENCODINGS[j], e);
    }
    FirstOf(ENCODINGS, 0, k, attempt, raw);
  }

  lemma EncodedHasNoColon(text: string, enc: string)
    requires Compact(text) == enc && B.AllBase64(enc)
    ensures !MentionsVLESS(text)
  {
    if ':' in text {
      CompactKeeps(text, ':');
    }
    NoColonNoMention(text);
  }

  /** Text in any of the four encodings, broken into lines or spaced in whatever way, reads as the
      text it encodes, whichever of the decoders comes first to accept it. */
  lemma EveryEncodingReads(data: string, raw: string, e: B.Encoding)
    requires Bytes(raw) && TrimSpace(raw) == raw && MentionsVLESS(raw) && Compact(TrimSpace(data)) == B.EncodeAs(raw, e)
    ensures ParseData(data) == ParseText(raw)
  {
    var text := TrimSpace(data);
    NoColonNoMention("");
    B.EncodedAsChars(raw, e);
    B.EncodeRoundTrip(raw, e);
    EncodedHasNoColon(text, B.EncodeAs(raw, e));
    AnyDecodes(text, raw, e);
  }

  // Text that no encoding turns into links is read as it is.
  lemma UndecodedIsRead(data: string)
    requires forall e: B.Encoding :: TryDecode(Compact(TrimSpace(data)), e).None?
    ensures TrimSpace(data) != "" ==> ParseData(data) == ParseText(TrimSpace(data))
    ensures TrimSpace(data) == "" ==> ParseData(data) == Some(ParseResult([], 0))
  {
    var compact := Compact(TrimSpace(data));
    NoneOf(ENCODINGS, 0, (e: B.Encoding) => TryDecode(compact, e));
  }
}
