/** The order of Go strings, sorted keys, and NUL-separated serialisation. */
module Ordering {

  // Go compares strings byte by byte; a proper prefix comes first.
  predicate Less(a: string, b: string)
    decreases |a|
  {
    b != "" && (a == "" || a[0] < b[0] || (a[0] == b[0] && Less(a[1..], b[1..])))
  }

  // Up to some place the two agree, and there the first one ends or has the smaller character.
  predicate FirstDifference(a: string, b: string, i: nat) {
    i <= |a| && i < |b| && a[..i] == b[..i] && (i == |a| || a[i] < b[i])
  }

  lemma HeadsDiffer(a: string, b: string, i: nat)
    requires a == "" || b == "" || a[0] != b[0]
    ensures i > 0 ==> !FirstDifference(a, b, i)
  {
    if 0 < i <= |a| && i < |b| {
      assert a[..i][0] == a[0] && b[..i][0] == b[0];
    }
  }

  lemma {:induction false} LessExactly(a: string, b: string)
    ensures Less(a, b) <==> exists i: nat :: FirstDifference(a, b, i)
    decreases |a|
  {
    if a == "" || b == "" || a[0] != b[0] {
      assert Less(a, b) ==> FirstDifference(a, b, 0);
      forall i: nat { HeadsDiffer(a, b, i); }
    } else {
      LessExactly(a[1..], b[1..]);
      if i: nat :| FirstDifference(a[1..], b[1..], i) {
        assert a[..i + 1] == [a[0]] + a[1..][..i] && b[..i + 1] == [b[0]] + b[1..][..i];
        assert FirstDifference(a, b, i + 1);
      }
      if i: nat :| FirstDifference(a, b, i) {
        assert i > 0 && a[1..][..i - 1] == a[..i][1..] && b[1..][..i - 1] == b[..i][1..];
        assert FirstDifference(a[1..], b[1..], i - 1);
      }
    }
  }

  lemma {:induction false} LessIrreflexive(a: string)
    ensures !Less(a, a)
    decreases |a|
  {
    if a != "" {
      LessIrreflexive(a[1..]);
    }
  }

  lemma {:induction false} LessTransitive(a: string, b: string, c: string)
    requires Less(a, b) && Less(b, c)
    ensures Less(a, c)
    decreases |a|
  {
    if a != "" && a[0] == b[0] == c[0] {
      LessTransitive(a[1..], b[1..], c[1..]);
    }
  }

  lemma {:induction false} LessTotal(a: string, b: string)
    ensures a == b || Less(a, b) || Less(b, a)
    decreases |a|
  {
    if a != "" && b != "" && a[0] == b[0] {
      LessTotal(a[1..], b[1..]);
      assert a == [a[0]] + a[1..] && b == [b[0]] + b[1..];
    }
  }

  predicate Increasing(ks: seq<string>) { forall i, j :: 0 <= i < j < |ks| ==> Less(ks[i], ks[j]) }

  // An increasing sequence is determined by its elements.
  lemma {:induction false} IncreasingUnique(a: seq<string>, b: seq<string>)
    requires Increasing(a) && Increasing(b)
    requires forall k :: k in a <==> k in b
    ensures a == b
    decreases |a|
  {
    assert forall i :: 0 <= i < |a| ==> a[i] in b;
    assert forall i :: 0 <= i < |b| ==> b[i] in a;
    if a != [] && b != [] {
      assert a[0] in b && b[0] in a;
      var i :| 0 <= i < |b| && b[i] == a[0];
      var j :| 0 <= j < |a| && a[j] == b[0];
      if i > 0 {
        LessTransitive(b[0], a[0], b[0]);
        LessIrreflexive(b[0]);
      }
      forall k ensures k in a[1..] <==> k in b[1..] {
        RestOf(a, k);
        RestOf(b, k);
      }
      IncreasingUnique(a[1..], b[1..]);
      assert a == [a[0]] + a[1..] && b == [b[0]] + b[1..];
    }
  }

  lemma RestOf(a: seq<string>, k: string)
    requires Increasing(a) && a != []
    ensures k in a[1..] <==> k in a && k != a[0]
  {
    LessIrreflexive(a[0]);
    if k in a && k != a[0] {
      var i :| 0 <= i < |a| && a[i] == k;
      assert a[1..][i - 1] == k;
    }
  }

  function Insert(ks: seq<string>, k: string): seq<string> {
    if ks == [] then [k]
    else if Less(k, ks[0]) then [k] + ks
    else [ks[0]] + Insert(ks[1..], k)
  }

  lemma {:induction false} InsertKeepsOrder(ks: seq<string>, k: string)
    requires Increasing(ks) && k !in ks
    ensures Increasing(Insert(ks, k))
    ensures forall x :: x in Insert(ks, k) <==> x in ks || x == k
  {
    if ks == [] {
    } else if Less(k, ks[0]) {
      forall i | 0 < i < |ks| ensures Less(k, ks[i]) { LessTransitive(k, ks[0], ks[i]); }
    } else {
      InsertKeepsOrder(ks[1..], k);
      LessTotal(k, ks[0]);
      var rest := Insert(ks[1..], k);
      forall i | 0 <= i < |rest| ensures Less(ks[0], rest[i]) { assert rest[i] in rest; }
      assert ks == [ks[0]] + ks[1..];
    }
  }

  // The elements of a set in increasing order.
  ghost function Sorted(s: set<string>): (ks: seq<string>)
    ensures Increasing(ks) && forall k :: k in ks <==> k in s
  {
    if s == {} then []
    else
      var k :| k in s;
      InsertKeepsOrder(Sorted(s - {k}), k);
      Insert(Sorted(s - {k}), k)
  }

  // sortedMapKeys, and the sort inside url.Values.Encode.
  method SortedMapKeys<V>(m: map<string, V>) returns (ks: seq<string>)
    ensures Increasing(ks) && forall k :: k in ks <==> k in m
    ensures ks == Sorted(m.Keys)
  {
    ks := [];
    var rest := m.Keys;
    while rest != {}
      invariant rest <= m.Keys
      invariant Increasing(ks) && forall k :: k in ks <==> k in m.Keys - rest
      decreases rest
    {
      var k :| k in rest;
      InsertKeepsOrder(ks, k);
      ks := Insert(ks, k);
      rest := rest - {k};
    }
    IncreasingUnique(ks, Sorted(m.Keys));
  }

  // ---- NUL-separated fields ----

  const NUL: char := 0 as char

  function JoinUpTo(fields: seq<string>, n: nat): string
    requires n <= |fields|
  {
    if n == 0 then "" else JoinUpTo(fields, n - 1) + fields[n - 1] + [NUL]
  }

  // Every field followed by a NUL.
  function Join(fields: seq<string>): string { JoinUpTo(fields, |fields|) }

  predicate NulFree(s: string) { NUL !in s }

  lemma JoinEnds(fields: seq<string>, n: nat)
    requires n <= |fields|
    ensures n == 0 ==> JoinUpTo(fields, n) == ""
    ensures n > 0 ==> JoinUpTo(fields, n) != "" && JoinUpTo(fields, n)[|JoinUpTo(fields, n)| - 1] == NUL
  {
  }

  lemma TailNotLonger(p: string, x: string, q: string, y: string)
    requires p + x == q + y && NulFree(y)
    requires p == "" || p[|p| - 1] == NUL
    ensures |y| <= |x|
  {
    var t := p + x;
    assert forall i :: |q| <= i < |t| ==> t[i] == y[i - |q|] && t[i] in y;
    assert p != "" ==> t[|p| - 1] == NUL;
  }

  // A NUL-free tail after a text that is empty or ends in NUL can only be split off one way.
  lemma TailUnique(p: string, x: string, q: string, y: string)
    requires p + x == q + y && NulFree(x) && NulFree(y)
    requires p == "" || p[|p| - 1] == NUL
    requires q == "" || q[|q| - 1] == NUL
    ensures p == q && x == y
  {
    TailNotLonger(p, x, q, y);
    TailNotLonger(q, y, p, x);
    var t := p + x;
    assert p == t[..|p|] && q == t[..|q|] && x == t[|p|..] && y == t[|q|..];
  }

  lemma LastFieldUnique(p: string, x: string, q: string, y: string)
    requires p + x + [NUL] == q + y + [NUL] && NulFree(x) && NulFree(y)
    requires p == "" || p[|p| - 1] == NUL
    requires q == "" || q[|q| - 1] == NUL
    ensures p == q && x == y
  {
    var s, t := p + x + [NUL], q + y + [NUL];
    assert p + x == s[..|s| - 1] && q + y == t[..|t| - 1];
    TailUnique(p, x, q, y);
  }

  lemma LastFieldsEqual(a: seq<string>, b: seq<string>, m: nat, n: nat)
    requires 0 < m <= |a| && 0 < n <= |b| && NulFree(a[m - 1]) && NulFree(b[n - 1])
    requires JoinUpTo(a, m) == JoinUpTo(b, n)
    ensures JoinUpTo(a, m - 1) == JoinUpTo(b, n - 1) && a[m - 1] == b[n - 1]
  {
    JoinEnds(a, m - 1);
    JoinEnds(b, n - 1);
    LastFieldUnique(JoinUpTo(a, m - 1), a[m - 1], JoinUpTo(b, n - 1), b[n - 1]);
  }

  /** Fields without NUL can be read back from their serialisation. */
  lemma {:induction false} JoinInjective(a: seq<string>, b: seq<string>, m: nat, n: nat)
    requires m <= |a| && n <= |b|
    requires forall i :: 0 <= i < m ==> NulFree(a[i])
    requires forall i :: 0 <= i < n ==> NulFree(b[i])
    requires JoinUpTo(a, m) == JoinUpTo(b, n)
    ensures m == n && a[..m] == b[..n]
  {
    if m > 0 && n > 0 {
      LastFieldsEqual(a, b, m, n);
      JoinInjective(a, b, m - 1, n - 1);
      assert a[..m] == a[..m - 1] + [a[m - 1]] && b[..n] == b[..n - 1] + [b[n - 1]];
    }
  }
}
