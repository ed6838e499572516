/** Byte-string helpers shared by every component.

    A Go string is a sequence of bytes; here it is a `string` whose characters stand for
    those bytes.  Letter case and white space are the ASCII ones. */
module Text {

  import opened Results

  predicate IsSpace(c: char) {
    c == ' ' || c == '\t' || c == '\n' || c == '\r' || c as int == 11 || c as int == 12
  }

  function TrimLeft(s: string): string {
    if s != "" && IsSpace(s[0]) then TrimLeft(s[1..]) else s
  }

  function TrimRight(s: string): string {
    if s != "" && IsSpace(s[|s| - 1]) then TrimRight(s[..|s| - 1]) else s
  }

  lemma {:induction false} TrimLeftShape(s: string)
    ensures var r := TrimLeft(s); |r| <= |s| && r == s[|s| - |r|..] && (r != "" ==> !IsSpace(r[0]))
    decreases |s|
  {
    if s != "" && IsSpace(s[0]) {
      TrimLeftShape(s[1..]);
    }
  }

  lemma {:induction false} TrimRightShape(s: string)
    ensures var r := TrimRight(s); |r| <= |s| && r == s[..|r|] && (r != "" ==> !IsSpace(r[|r| - 1]))
    decreases |s|
  {
    if s != "" && IsSpace(s[|s| - 1]) {
      TrimRightShape(s[..|s| - 1]);
    }
  }

  function TrimSpace(s: string): string {
    TrimRight(TrimLeft(s))
  }

  // Only blanks are cut off, and all of them at either end.
  lemma {:induction false} TrimLeftExactly(s: string)
    ensures exists n :: 0 <= n <= |s| && TrimLeft(s) == s[n..] && (forall i :: 0 <= i < n ==> IsSpace(s[i]))
    decreases |s|
  {
    if s != "" && IsSpace(s[0]) {
      TrimLeftExactly(s[1..]);
      var n :| 0 <= n <= |s| - 1 && TrimLeft(s[1..]) == s[1..][n..] && forall i :: 0 <= i < n ==> IsSpace(s[1..][i]);
      assert s[1..][n..] == s[n + 1..];
      assert forall i :: 0 < i < n + 1 ==> s[i] == s[1..][i - 1];
    } else {
      assert s[0..] == s;
    }
  }

  lemma {:induction false} TrimRightExactly(s: string)
    ensures exists n :: 0 <= n <= |s| && TrimRight(s) == s[..n] && (forall i :: n <= i < |s| ==> IsSpace(s[i]))
    decreases |s|
  {
    if s != "" && IsSpace(s[|s| - 1]) {
      var init := s[..|s| - 1];
      TrimRightExactly(init);
      var n :| 0 <= n <= |init| && TrimRight(init) == init[..n] && forall i :: n <= i < |init| ==> IsSpace(init[i]);
      assert init[..n] == s[..n];
    } else {
      assert s[..|s|] == s;
    }
  }

  // A string that TrimSpace leaves alone.
  predicate Trimmed(s: string) {
    s == "" || (!IsSpace(s[0]) && !IsSpace(s[|s| - 1]))
  }

  lemma TrimmedIsFixed(s: string)
    ensures Trimmed(TrimSpace(s))
    ensures Trimmed(s) ==> TrimSpace(s) == s
  {
    var l := TrimLeft(s);
    TrimLeftShape(s);
    TrimRightShape(l);
    if l != "" && TrimRight(l) != "" {
      assert TrimRight(l)[0] == l[0];
    }
  }

  predicate IsUpper(c: char) { 'A' <= c <= 'Z' }

  function Lower(c: char): char {
    if IsUpper(c) then (c as int + 32) as char else c
  }

  function ToLower(s: string): (r: string)
    ensures |r| == |s|
    ensures forall i :: 0 <= i < |s| ==> r[i] == Lower(s[i])
  {
    seq(|s|, i requires 0 <= i < |s| => Lower(s[i]))
  }

  // strings.EqualFold: walk both strings, letting an upper-case letter meet its lower-case form.
  predicate EqualFold(a: string, b: string)
    decreases |a|
  {
    if a == "" || b == "" then a == b
    else
      && (a[0] == b[0]
          || (IsUpper(a[0]) && b[0] as int == a[0] as int + 32)
          || (IsUpper(b[0]) && a[0] as int == b[0] as int + 32))
      && EqualFold(a[1..], b[1..])
  }

  lemma {:induction false} EqualFoldIsLowerEquality(a: string, b: string)
    ensures EqualFold(a, b) <==> ToLower(a) == ToLower(b)
  {
    if a == "" || b == "" {
      assert |ToLower(a)| == |a| && |ToLower(b)| == |b|;
    } else {
      EqualFoldIsLowerEquality(a[1..], b[1..]);
      assert ToLower(a) == [Lower(a[0])] + ToLower(a[1..]);
      assert ToLower(b) == [Lower(b[0])] + ToLower(b[1..]);
      if ToLower(a) == ToLower(b) {
        assert ToLower(a)[0] == ToLower(b)[0];
        assert ToLower(a)[1..] == ToLower(b)[1..];
      }
    }
  }

  predicate HasPrefix(s: string, p: string) { p <= s }

  predicate HasSuffix(s: string, p: string) { |p| <= |s| && s[|s| - |p|..] == p }

  predicate OccursAt(s: string, sub: string, j: nat) {
    j <= |s| - |sub| && s[j..j + |sub|] == sub
  }

  // Position of the first occurrence of `sub` at or after `from`, or -1.
  function IndexFrom(s: string, sub: string, from: nat): (r: int)
    requires from <= |s|
    ensures r == -1 || (r >= from && OccursAt(s, sub, r))
    ensures forall j: nat :: from <= j && OccursAt(s, sub, j) ==> 0 <= r <= j
    decreases |s| - from
  {
    if OccursAt(s, sub, from) then from
    else if from == |s| then -1
    else IndexFrom(s, sub, from + 1)
  }

  function Index(s: string, sub: string): (r: int)
    ensures r == -1 || (r >= 0 && OccursAt(s, sub, r))
    ensures forall j: nat :: OccursAt(s, sub, j) ==> 0 <= r <= j
  {
    IndexFrom(s, sub, 0)
  }

  predicate Contains(s: string, sub: string) { Index(s, sub) >= 0 }

  datatype CutResult = Cut(before: string, after: string, found: bool)

  function CutAt(s: string, sep: string): CutResult {
    var i := Index(s, sep);
    if i < 0 then Cut(s, "", false) else Cut(s[..i], s[i + |sep|..], true)
  }

  lemma OccursAtChar(s: string, c: char, j: nat)
    ensures OccursAt(s, [c], j) <==> j < |s| && s[j] == c
  {
    if j < |s| {
      assert s[j..j + 1] == [s[j]];
    }
  }

  lemma IndexAbsent(s: string, c: char)
    requires c !in s
    ensures Index(s, [c]) == -1
  {
    forall j: nat ensures !OccursAt(s, [c], j) { OccursAtChar(s, c, j); }
  }

  // A separator of one character `c` is found at the first `c`.
  lemma CutAtChar(a: string, c: char, b: string)
    requires c !in a
    ensures CutAt(a + [c] + b, [c]) == Cut(a, b, true)
  {
    var s := a + [c] + b;
    forall j: nat ensures OccursAt(s, [c], j) ==> j >= |a| {
      OccursAtChar(s, c, j);
    }
    OccursAtChar(s, c, |a|);
    assert s[..|a|] == a && s[|a| + 1..] == b;
  }

  lemma CutAtAbsent(s: string, c: char)
    requires c !in s
    ensures CutAt(s, [c]) == Cut(s, "", false)
  {
    IndexAbsent(s, c);
  }

  // ---- Splitting at a character ----

  // The pieces of `s` between the occurrences of `c`.
  function SplitOn(s: string, c: char): (r: seq<string>)
    ensures |r| > 0
  {
    if s == "" then [""]
    else
      var rest := SplitOn(s[1..], c);
      if s[0] == c then [""] + rest else [[s[0]] + rest[0]] + rest[1..]
  }

  lemma {:induction false} SplitNothing(s: string, c: char)
    requires c !in s
    ensures SplitOn(s, c) == [s]
  {
    if s != "" {
      SplitNothing(s[1..], c);
      assert s == [s[0]] + s[1..];
    }
  }

  // A character in front of a text that splits into `rest`.
  function PutFirst(a: char, c: char, rest: seq<string>): seq<string>
    requires |rest| > 0
  {
    if a == c then [""] + rest else [[a] + rest[0]] + rest[1..]
  }

  lemma SplitFirst(a: char, s: string, c: char)
    ensures SplitOn([a] + s, c) == PutFirst(a, c, SplitOn(s, c))
  {
    assert ([a] + s)[1..] == s;
  }

  lemma PutFirstAppend(a: char, c: char, p: seq<string>, q: seq<string>)
    requires |p| > 0
    ensures PutFirst(a, c, p + q) == PutFirst(a, c, p) + q
  {
  }

  lemma SplitAfter(a: char, whole: string, x: string, y: string, c: char)
    requires SplitOn(whole, c) == SplitOn(x, c) + SplitOn(y, c)
    ensures SplitOn([a] + whole, c) == SplitOn([a] + x, c) + SplitOn(y, c)
  {
    SplitFirst(a, whole, c);
    SplitFirst(a, x, c);
    PutFirstAppend(a, c, SplitOn(x, c), SplitOn(y, c));
  }

  lemma {:induction false} SplitAppend(x: string, c: char, y: string)
    ensures SplitOn(x + [c] + y, c) == SplitOn(x, c) + SplitOn(y, c)
  {
    if x == "" {
      assert x + [c] + y == [c] + y;
      SplitFirst(c, y, c);
    } else {
      var whole := x[1..] + [c] + y;
      SplitAppend(x[1..], c, y);
      SplitAfter(x[0], whole, x[1..], y, c);
      assert x == [x[0]] + x[1..] && x + [c] + y == [x[0]] + whole;
    }
  }

  lemma ContainsPrefix(s: string, sub: string)
    requires HasPrefix(s, sub)
    ensures Contains(s, sub)
  {
    assert OccursAt(s, sub, 0);
  }
}

/** The optional values and error returns of the store. */
module Results {

  datatype Option<+T> = None | Some(value: T)

  datatype Error = NotFound | Conflict | Invalid | Failed

  datatype Result<+T> = Ok(value: T) | Err(error: Error)
}
