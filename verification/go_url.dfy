/** net/url.Parse as the subscription parser uses it, for authorities without a bracketed IPv6
    host. */
module GoURL {
  import opened Percent
  import opened Results
  import opened Text

  // `host` still carries the port; `username` is empty when there is no user information.
  datatype URL = URL(scheme: string, username: string, host: string, query: string, fragment: string)

  // ---- Scheme ----

  predicate SchemeChar(c: char) { IsLetter(c) || IsDigit(c) || c == '+' || c == '-' || c == '.' }

  datatype Scheme = NoScheme | BadScheme | SchemeEnd(i: nat)

  // Where the scheme of `s` ends, looking from position `i`.
  function ScanScheme(s: string, i: nat): Scheme
    requires i <= |s|
    decreases |s| - i
  {
    if i == |s| then NoScheme
    else if IsLetter(s[i]) then ScanScheme(s, i + 1)
    else if SchemeChar(s[i]) then (if i == 0 then NoScheme else ScanScheme(s, i + 1))
    else if s[i] == ':' then (if i == 0 then BadScheme else SchemeEnd(i))
    else NoScheme
  }

  lemma ScanSchemeBound(s: string, i: nat)
    requires i <= |s|
    ensures ScanScheme(s, i).SchemeEnd? ==> i <= ScanScheme(s, i).i < |s|
    decreases |s| - i
  {
  }

  // ---- Authority ----

  function LastIndexFrom(s: string, c: char, n: nat): int
    requires n <= |s|
  {
    if n == 0 then -1 else if s[n - 1] == c then n - 1 else LastIndexFrom(s, c, n - 1)
  }

  function LastIndex(s: string, c: char): (i: int)
    ensures -1 <= i < |s|
  {
    LastIndexBound(s, c, |s|);
    LastIndexFrom(s, c, |s|)
  }

  lemma {:induction false} LastIndexBound(s: string, c: char, n: nat)
    requires n <= |s|
    ensures -1 <= LastIndexFrom(s, c, n) < n
  {
    if n > 0 {
      LastIndexBound(s, c, n - 1);
    }
  }

  predicate SubDelim(c: char) {
    c == '!' || c == '$' || c == '&' || c == '\'' || c == '(' || c == ')' || c == '*' || c == '+' || c == ',' || c == ';' || c == '='
  }

  predicate UserChar(c: char) { Unreserved(c) || SubDelim(c) || c == ':' || c == '%' || c == '@' }

  predicate ValidUserinfo(s: string) { forall i :: 0 <= i < |s| ==> UserChar(s[i]) }

  // A byte that may stand unescaped in a host.
  predicate HostChar(c: char) {
    Unreserved(c) || SubDelim(c) || c == ':' || c == '[' || c == ']' || c == '<' || c == '>' || c == '"' || c as int >= 128
  }

  // In a host only bytes above ASCII, and the percent sign, may be escaped.
  predicate ValidHost(s: string)
    decreases |s|
  {
    if s == "" then true
    else if s[0] == '%' then
      |s| >= 3 && IsHex(s[1]) && IsHex(s[2]) && (Unhex(s[1]) >= 8 || (s[1] == '2' && s[2] == '5')) && ValidHost(s[3..])
    else HostChar(s[0]) && ValidHost(s[1..])
  }

  predicate AllDigits(s: string) { forall i :: 0 <= i < |s| ==> IsDigit(s[i]) }

  // Nothing, or a colon and digits.
  predicate ValidOptionalPort(s: string) { s == "" || (s[0] == ':' && AllDigits(s[1..])) }

  function ParseHost(s: string): Option<string> {
    if s != "" && s[0] == '[' then None
    else
      var colon := LastIndex(s, ':');
      if (colon >= 0 && !ValidOptionalPort(s[colon..])) || !ValidHost(s) then None
      else Unescape(s, false)
  }

  function ParseUser(userinfo: string): Option<string> {
    if !ValidUserinfo(userinfo) then None
    else
      var cut := CutAt(userinfo, ":");
      if Unescape(cut.after, false).None? then None else Unescape(cut.before, false)
  }

  // The user name and the host.
  function ParseAuthority(authority: string): Option<(string, string)> {
    var at := LastIndex(authority, '@');
    var host := ParseHost(authority[at + 1..]);
    var user := if at < 0 then Some("") else ParseUser(authority[..at]);
    if host.None? || user.None? then None else Some((user.value, host.value))
  }

  // ---- Parse ----

  predicate Control(c: char) { c as int < 32 || c as int == 127 }

  // What follows the scheme and precedes the query, "//" included.
  function ParseRest(scheme: string, rest: string, query: string): Option<URL> {
    if !HasPrefix(rest, "/") then
      if scheme != "" then Some(URL(scheme, "", "", query, ""))
      else if Contains(CutAt(rest, "/").before, ":") then None
      else if Unescape(rest, false).None? then None
      else Some(URL(scheme, "", "", query, ""))
    else if (scheme != "" || !HasPrefix(rest, "///")) && HasPrefix(rest, "//") then
      var cut := CutAt(rest[2..], "/");
      var authority := ParseAuthority(cut.before);
      if authority.None? || Unescape(cut.after, false).None? then None
      else Some(URL(scheme, authority.value.0, authority.value.1, query, ""))
    else if Unescape(rest, false).None? then None
    else Some(URL(scheme, "", "", query, ""))
  }

  function ParseMain(s: string): Option<URL> {
    if exists i :: 0 <= i < |s| && Control(s[i]) then None
    else if s == "*" then Some(URL("", "", "", "", ""))
    else
      var scan := ScanScheme(s, 0);
      ScanSchemeBound(s, 0);
      if scan.BadScheme? then None
      else
        var scheme := if scan.SchemeEnd? then ToLower(s[..scan.i]) else "";
        var cut := CutAt(if scan.SchemeEnd? then s[scan.i + 1..] else s, "?");
        ParseRest(scheme, cut.before, cut.after)
  }

  function Parse(raw: string): Option<URL> {
    var cut := CutAt(raw, "#");
    var url := ParseMain(cut.before);
    var fragment := FragmentUnescape(cut.after);
    if url.None? || fragment.None? then None else Some(url.value.(fragment := fragment.value))
  }

  // Hostname and Port: the host is cut at its last colon if digits follow.
  function HostPort(host: string): (string, string) {
    var colon := LastIndex(host, ':');
    if colon >= 0 && ValidOptionalPort(host[colon..]) then (host[..colon], host[colon + 1..]) else (host, "")
  }

  // ---- What Parse makes of a printed link ----

  lemma {:induction false} LastIndexSkips(s: string, c: char, n: nat, m: nat)
    requires n <= m <= |s| && forall i :: n <= i < m ==> s[i] != c
    ensures LastIndexFrom(s, c, m) == LastIndexFrom(s, c, n)
  {
    if n < m {
      LastIndexSkips(s, c, n, m - 1);
    }
  }

  lemma LastIndexAppend(a: string, c: char, b: string)
    requires c !in b
    ensures LastIndex(a + [c] + b, c) == |a|
  {
    var s := a + [c] + b;
    assert forall i :: |a| + 1 <= i < |s| ==> s[i] == b[i - |a| - 1];
    LastIndexSkips(s, c, |a| + 1, |s|);
  }

  // A text without percent signs reads as itself.
  lemma {:induction false} UnescapePlain(s: string)
    requires '%' !in s
    ensures Unescape(s, false) == Some(s)
  {
    if s != "" {
      UnescapePlain(s[1..]);
      assert s == [s[0]] + s[1..];
    }
  }

  lemma {:induction false} HostCharsValid(s: string)
    requires forall i :: 0 <= i < |s| ==> HostChar(s[i])
    ensures ValidHost(s)
  {
    if s != "" {
      HostCharsValid(s[1..]);
    }
  }

  // Host names of letters, digits, dots and dashes.
  predicate NameChar(c: char) { IsLetter(c) || IsDigit(c) || c == '.' || c == '-' }

  predicate HostName(s: string) { s != "" && forall i :: 0 <= i < |s| ==> NameChar(s[i]) }

  // User names of letters, digits and dashes.
  predicate IdChar(c: char) { IsLetter(c) || IsDigit(c) || c == '-' }

  predicate IdText(s: string) { s != "" && forall i :: 0 <= i < |s| ==> IdChar(s[i]) }

  lemma ParsePrintedHost(host: string, port: string)
    requires HostName(host) && port != "" && AllDigits(port)
    ensures ParseHost(host + ":" + port) == Some(host + ":" + port)
    ensures HostPort(host + ":" + port) == (host, port)
  {
    var s := host + ":" + port;
    LastIndexAppend(host, ':', port);
    assert s == host + [':'] + port;
    assert s[|host|..] == ":" + port && s[|host|..][1..] == port && s[..|host|] == host && s[|host| + 1..] == port;
    HostCharsValid(s);
    UnescapePlain(s);
  }

  lemma ParsePrintedUser(user: string)
    requires IdText(user)
    ensures ParseUser(user) == Some(user)
  {
    CutAtAbsent(user, ':');
    UnescapePlain(user);
  }

  lemma ParsePrintedAuthority(user: string, host: string, port: string)
    requires IdText(user) && HostName(host) && port != "" && AllDigits(port)
    ensures ParseAuthority(user + "@" + (host + ":" + port)) == Some((user, host + ":" + port))
  {
    var h := host + ":" + port;
    var s := user + "@" + h;
    assert s == user + ['@'] + h;
    LastIndexAppend(user, '@', h);
    assert s[|user| + 1..] == h && s[..|user|] == user;
    ParsePrintedHost(host, port);
    ParsePrintedUser(user);
  }

  predicate Letters(s: string) { s != "" && forall i :: 0 <= i < |s| ==> 'a' <= s[i] <= 'z' }

  lemma {:induction false} ScanLetters(scheme: string, rest: string, i: nat)
    requires Letters(scheme) && i <= |scheme|
    ensures ScanScheme(scheme + ":" + rest, i) == SchemeEnd(|scheme|)
    decreases |scheme| - i
  {
    var s := scheme + ":" + rest;
    if i < |scheme| {
      assert s[i] == scheme[i];
      ScanLetters(scheme, rest, i + 1);
    } else {
      assert s[i] == ':';
    }
  }

  lemma LettersLower(s: string)
    requires Letters(s)
    ensures ToLower(s) == s
  {
  }

  lemma RestWithAuthority(scheme: string, rest: string, query: string, authority: string, user: string, host: string)
    requires scheme != "" && HasPrefix(rest, "/") && HasPrefix(rest, "//") && rest[2..] == authority
    requires CutAt(authority, "/") == Cut(authority, "", false) && ParseAuthority(authority) == Some((user, host))
    ensures ParseRest(scheme, rest, query) == Some(URL(scheme, user, host, query, ""))
  {
  }

  lemma ParsePrintedRest(scheme: string, authority: string, query: string, user: string, host: string)
    requires scheme != "" && '/' !in authority && ParseAuthority(authority) == Some((user, host))
    ensures ParseRest(scheme, "//" + authority, query) == Some(URL(scheme, user, host, query, ""))
  {
    var rest := "//" + authority;
    assert rest[2..] == authority && rest[..1] == "/" && rest[..2] == "//";
    assert HasPrefix(rest, "/") && HasPrefix(rest, "//");
    CutAtAbsent(authority, '/');
    RestWithAuthority(scheme, rest, query, authority, user, host);
  }

  // What may stand in a printed link before the fragment.
  predicate LinkChar(c: char) { c as int > 32 && c as int < 127 && c != '#' }

  lemma MainChars(scheme: string, authority: string, query: string)
    requires Letters(scheme)
    requires forall i :: 0 <= i < |authority| ==> LinkChar(authority[i])
    requires forall i :: 0 <= i < |query| ==> LinkChar(query[i])
    ensures var s := scheme + ":" + ("//" + authority + "?" + query);
            forall i :: 0 <= i < |s| ==> LinkChar(s[i])
  {
    var before := "//" + authority;
    var rest := before + "?" + query;
    assert forall i :: 0 <= i < |before| ==> LinkChar(before[i]);
    assert forall i :: 0 <= i < |rest| ==> LinkChar(rest[i]);
  }

  // What the parser cuts off in front of the authority and the query.
  lemma MainCut(s: string, scheme: string, before: string, query: string)
    requires s != "*" && forall i :: 0 <= i < |s| ==> LinkChar(s[i])
    requires ScanScheme(s, 0) == SchemeEnd(|scheme|) && |scheme| < |s| && ToLower(s[..|scheme|]) == scheme
    requires CutAt(s[|scheme| + 1..], "?") == Cut(before, query, true)
    ensures ParseMain(s) == ParseRest(scheme, before, query)
  {
  }

  lemma PrintedMainCut(s: string, scheme: string, before: string, query: string)
    requires Letters(scheme) && '?' !in before && s == scheme + ":" + (before + "?" + query)
    requires forall i :: 0 <= i < |s| ==> LinkChar(s[i])
    ensures ParseMain(s) == ParseRest(scheme, before, query)
  {
    var rest := before + "?" + query;
    ScanLetters(scheme, rest, 0);
    LettersLower(scheme);
    assert s[..|scheme|] == scheme && s[|scheme| + 1..] == rest;
    CutAtChar(before, '?', query);
    assert rest == before + ['?'] + query;
    assert s[0] == scheme[0] != '*';
    MainCut(s, scheme, before, query);
  }

  lemma ParsePrintedMain(scheme: string, authority: string, query: string, user: string, host: string)
    requires Letters(scheme) && '/' !in authority && '?' !in authority && ParseAuthority(authority) == Some((user, host))
    requires forall i :: 0 <= i < |authority| ==> LinkChar(authority[i])
    requires forall i :: 0 <= i < |query| ==> LinkChar(query[i])
    ensures var s := scheme + ":" + ("//" + authority + "?" + query);
            ParseMain(s) == Some(URL(scheme, user, host, query, "")) && '#' !in s
  {
    var before := "//" + authority;
    MainChars(scheme, authority, query);
    assert '?' !in before;
    PrintedMainCut(scheme + ":" + (before + "?" + query), scheme, before, query);
    ParsePrintedRest(scheme, authority, query, user, host);
  }

  lemma AuthorityChars(user: string, host: string, port: string)
    requires IdText(user) && HostName(host) && AllDigits(port)
    ensures var authority := user + "@" + (host + ":" + port);
            '/' !in authority && '?' !in authority && forall i :: 0 <= i < |authority| ==> LinkChar(authority[i])
  {
    var authority := user + "@" + (host + ":" + port);
    assert forall i :: 0 <= i < |authority| ==>
      IdChar(authority[i]) || NameChar(authority[i]) || authority[i] == '@' || authority[i] == ':';
  }

  lemma ParseTagged(main: string, tag: string, url: URL)
    requires '#' !in main && ParseMain(main) == Some(url) && FragmentUnescape(tag).Some?
    ensures Parse(main + "#" + tag) == Some(url.(fragment := FragmentUnescape(tag).value))
  {
    CutAtChar(main, '#', tag);
    assert main + "#" + tag == main + ['#'] + tag;
  }

  /** A link printed as scheme, authority, query and tag parses into just those. */
  lemma ParsePrinted(scheme: string, user: string, host: string, port: string, query: string, tag: string)
    requires Letters(scheme) && IdText(user) && HostName(host) && port != "" && AllDigits(port)
    requires forall i :: 0 <= i < |query| ==> LinkChar(query[i])
    requires FragmentUnescape(tag).Some?
    ensures var authority := user + "@" + (host + ":" + port);
            var main := scheme + ":" + ("//" + authority + "?" + query);
            Parse(main + "#" + tag) ==
            Some(URL(scheme, user, host + ":" + port, query, FragmentUnescape(tag).value))
  {
    var authority := user + "@" + (host + ":" + port);
    var main := scheme + ":" + ("//" + authority + "?" + query);
    ParsePrintedAuthority(user, host, port);
    AuthorityChars(user, host, port);
    ParsePrintedMain(scheme, authority, query, user, host + ":" + port);
    ParseTagged(main, tag, URL(scheme, user, host + ":" + port, query, ""));
  }
}
