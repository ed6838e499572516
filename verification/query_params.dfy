/** url.Values as the subscription code uses it: printing sorted parameters, parsing a query. */
module QueryParams {
  import opened Ordering
  import opened Percent
  import opened Results
  import opened Text

  datatype Param = Param(key: string, value: string)

  type Params = map<string, string>

  predicate ParamBytes(p: Param) { Bytes(p.key) && Bytes(p.value) }

  predicate AllBytes(params: Params) { forall k :: k in params ==> Bytes(k) && Bytes(params[k]) }

  function Print(p: Param): string
    requires ParamBytes(p)
  {
    QueryEscape(p.key) + "=" + QueryEscape(p.value)
  }

  predicate ListBytes(ps: seq<Param>) { forall i :: 0 <= i < |ps| ==> ParamBytes(ps[i]) }

  // The parameters among the first `n`, joined with '&'.
  function PrintUpTo(ps: seq<Param>, n: nat): string
    requires n <= |ps| && ListBytes(ps)
  {
    if n == 0 then ""
    else if n == 1 then Print(ps[0])
    else PrintUpTo(ps, n - 1) + "&" + Print(ps[n - 1])
  }

  // Keys and values escaped, with '=' in each parameter and '&' between two.
  lemma {:induction false} PrintExactly(ps: seq<Param>, n: nat)
    requires n < |ps| && ListBytes(ps)
    ensures ParamBytes(ps[n])
    ensures PrintUpTo(ps, n + 1) ==
            (if n == 0 then "" else PrintUpTo(ps, n) + "&") + QueryEscape(ps[n].key) + "=" + QueryEscape(ps[n].value)
  {
    assert ParamBytes(ps[n]);
    assert "" + QueryEscape(ps[n].key) == QueryEscape(ps[n].key);
    if n > 0 {
      Regrouped(PrintUpTo(ps, n), QueryEscape(ps[n].key), QueryEscape(ps[n].value));
    }
  }

  lemma Regrouped(before: string, key: string, value: string)
    ensures before + "&" + (key + "=" + value) == before + "&" + key + "=" + value
  {
  }

  ghost function Entries(params: Params): seq<Param> {
    var keys := Sorted(params.Keys);
    seq(|keys|, i requires 0 <= i < |keys| => Param(keys[i], params[keys[i]]))
  }

  lemma EntriesBytes(params: Params)
    requires AllBytes(params)
    ensures ListBytes(Entries(params))
  {
    var keys := Sorted(params.Keys);
    assert forall i :: 0 <= i < |keys| ==> keys[i] in keys;
  }

  ghost function Encoded(params: Params): string
    requires AllBytes(params)
  {
    EntriesBytes(params);
    PrintUpTo(Entries(params), |Entries(params)|)
  }

  lemma PrintNotEmpty(ps: seq<Param>, n: nat)
    requires 0 < n <= |ps| && ListBytes(ps)
    ensures PrintUpTo(ps, n) != ""
  {
    if n == 1 {
      assert '=' in Print(ps[0]);
    }
  }

  // url.Values.Encode
  method Encode(params: Params) returns (text: string)
    requires AllBytes(params)
    ensures text == Encoded(params)
  {
    var keys := SortedMapKeys(params);
    ghost var es := Entries(params);
    EntriesBytes(params);
    text := "";
    for i := 0 to |keys|
      invariant text == PrintUpTo(es, i)
    {
      assert keys[i] in keys && es[i] == Param(keys[i], params[keys[i]]) && ParamBytes(es[i]);
      if i > 0 {
        PrintNotEmpty(es, i);
      }
      var line := QueryEscape(keys[i]) + "=" + QueryEscape(params[keys[i]]);
      assert line == Print(es[i]);
      if text != "" {
        text := text + "&";
      }
      text := text + line;
    }
  }

  // ---- Parsing ----

  // One part between '&'s; parts that are empty, hold a ';' or do not unescape are skipped.
  function ParsePart(part: string): Option<Param> {
    if part == "" || ';' in part then None
    else
      var cut := CutAt(part, "=");
      var key := QueryUnescape(cut.before);
      var value := QueryUnescape(cut.after);
      if key.None? || value.None? then None else Some(Param(key.value, value.value))
  }

  function ParseUpTo(parts: seq<string>, n: nat, parse: string -> Option<Param>): seq<Param>
    requires n <= |parts|
  {
    if n == 0 then []
    else
      var p := parse(parts[n - 1]);
      ParseUpTo(parts, n - 1, parse) + (if p.Some? then [p.value] else [])
  }

  // url.ParseQuery without its error, which Query ignores.
  function ParseQuery(query: string): seq<Param> {
    var parts := SplitOn(query, '&');
    ParseUpTo(parts, |parts|, ParsePart)
  }

  // url.Values.Get: the first value of a key, or the empty string.
  function GetUpTo(ps: seq<Param>, n: nat, key: string): string
    requires n <= |ps|
    decreases |ps| - n
  {
    if n == |ps| then "" else if ps[n].key == key then ps[n].value else GetUpTo(ps, n + 1, key)
  }

  function Get(ps: seq<Param>, key: string): string { GetUpTo(ps, 0, key) }

  // ---- Round trip ----

  lemma CutPrinted(k: string, v: string)
    requires '=' !in k
    ensures CutAt(k + "=" + v, "=") == Cut(k, v, true)
  {
    CutAtChar(k, '=', v);
  }

  lemma PrintedPartChars(k: string, v: string, c: char)
    requires !Plain(c) && c != '='
    requires forall i :: 0 <= i < |k| ==> Plain(k[i])
    requires forall i :: 0 <= i < |v| ==> Plain(v[i])
    ensures c !in k + "=" + v
  {
  }

  lemma PrintedIsOnePart(p: Param)
    requires ParamBytes(p)
    ensures '&' !in Print(p)
    ensures ParsePart(Print(p)) == Some(p)
  {
    var k, v := QueryEscape(p.key), QueryEscape(p.value);
    EscapedIsPlain(p.key);
    EscapedIsPlain(p.value);
    PrintedPartChars(k, v, '&');
    PrintedPartChars(k, v, ';');
    CutPrinted(k, v);
    QueryRoundTrip(p.key);
    QueryRoundTrip(p.value);
  }

  function Printed(ps: seq<Param>, n: nat): seq<string>
    requires n <= |ps| && ListBytes(ps)
  {
    seq(n, i requires 0 <= i < n => Print(ps[i]))
  }

  lemma PrintedMore(ps: seq<Param>, n: nat)
    requires 0 < n <= |ps| && ListBytes(ps)
    ensures Printed(ps, n) == Printed(ps, n - 1) + [Print(ps[n - 1])]
  {
  }

  lemma SplitMore(before: string, part: string, parts: seq<string>)
    requires SplitOn(before, '&') == parts && '&' !in part
    ensures SplitOn(before + "&" + part, '&') == parts + [part]
  {
    SplitNothing(part, '&');
    SplitAppend(before, '&', part);
    assert before + "&" + part == before + ['&'] + part;
  }

  lemma {:induction false} SplitPrinted(ps: seq<Param>, n: nat)
    requires 0 < n <= |ps| && ListBytes(ps)
    ensures SplitOn(PrintUpTo(ps, n), '&') == Printed(ps, n)
  {
    PrintedIsOnePart(ps[n - 1]);
    PrintedMore(ps, n);
    if n == 1 {
      SplitNothing(Print(ps[0]), '&');
    } else {
      SplitPrinted(ps, n - 1);
      SplitMore(PrintUpTo(ps, n - 1), Print(ps[n - 1]), Printed(ps, n - 1));
    }
  }

  lemma {:induction false} ParseEach(parts: seq<string>, ps: seq<Param>, n: nat, parse: string -> Option<Param>)
    requires n <= |parts| == |ps| && forall i :: 0 <= i < n ==> parse(parts[i]) == Some(ps[i])
    ensures ParseUpTo(parts, n, parse) == ps[..n]
  {
    if n > 0 {
      ParseEach(parts, ps, n - 1, parse);
      assert ps[..n] == ps[..n - 1] + [ps[n - 1]];
    }
  }

  lemma ParsePrinted(ps: seq<Param>)
    requires ListBytes(ps)
    ensures ParseQuery(PrintUpTo(ps, |ps|)) == ps
  {
    if ps == [] {
      assert SplitOn("", '&') == [""] && ParsePart("") == None;
      assert ParseUpTo([""], 1, ParsePart) == ParseUpTo([""], 0, ParsePart) == [];
    } else {
      SplitPrinted(ps, |ps|);
      forall i | 0 <= i < |ps| ensures ParsePart(Printed(ps, |ps|)[i]) == Some(ps[i]) { PrintedIsOnePart(ps[i]); }
      ParseEach(Printed(ps, |ps|), ps, |ps|, ParsePart);
      assert ps[..|ps|] == ps;
    }
  }

  lemma {:induction false} GetFinds(ps: seq<Param>, n: nat, i: nat)
    requires n <= i < |ps| && forall j :: n <= j < i ==> ps[j].key != ps[i].key
    ensures GetUpTo(ps, n, ps[i].key) == ps[i].value
    decreases |ps| - n
  {
    if n < i {
      GetFinds(ps, n + 1, i);
    }
  }

  lemma {:induction false} GetMisses(ps: seq<Param>, n: nat, key: string)
    requires n <= |ps| && forall j :: n <= j < |ps| ==> ps[j].key != key
    ensures GetUpTo(ps, n, key) == ""
    decreases |ps| - n
  {
    if n < |ps| {
      GetMisses(ps, n + 1, key);
    }
  }

  /** Printed parameters parse back: every key to its value, every other key to nothing. */
  lemma ParamsRoundTrip(params: Params, key: string)
    requires AllBytes(params)
    ensures Get(ParseQuery(Encoded(params)), key) == if key in params then params[key] else ""
  {
    var es, keys := Entries(params), Sorted(params.Keys);
    EntriesBytes(params);
    ParsePrinted(es);
    if key in params {
      assert key in keys;
      var i :| 0 <= i < |keys| && keys[i] == key;
      forall j | 0 <= j < i ensures es[j].key != key { LessIrreflexive(key); }
      GetFinds(es, 0, i);
    } else {
      forall j | 0 <= j < |es| ensures es[j].key != key { assert keys[j] in keys; }
      GetMisses(es, 0, key);
    }
  }

  // What a printed query is made of.
  predicate QueryChar(c: char) { Plain(c) || c == '=' || c == '&' }

  lemma {:induction false} PrintedChars(ps: seq<Param>, n: nat)
    requires n <= |ps| && ListBytes(ps)
    ensures forall i :: 0 <= i < |PrintUpTo(ps, n)| ==> QueryChar(PrintUpTo(ps, n)[i])
  {
    if n > 0 {
      EscapedIsPlain(ps[n - 1].key);
      EscapedIsPlain(ps[n - 1].value);
      var last := Print(ps[n - 1]);
      assert forall i :: 0 <= i < |last| ==> QueryChar(last[i]);
      PrintedChars(ps, n - 1);
    }
  }
}
