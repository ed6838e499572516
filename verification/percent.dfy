/** net/url escaping as the subscription code uses it (section 2.1 of RFC 3986), on byte strings. */
module Percent {
  import opened Results

  predicate IsByte(c: char) { c as int < 256 }

  predicate Bytes(s: string) { forall i :: 0 <= i < |s| ==> IsByte(s[i]) }

  predicate IsLetter(c: char) { 'a' <= c <= 'z' || 'A' <= c <= 'Z' }

  predicate IsDigit(c: char) { '0' <= c <= '9' }

  predicate Unreserved(c: char) { IsLetter(c) || IsDigit(c) || c == '-' || c == '_' || c == '.' || c == '~' }

  function HexDigit(n: nat): char
    requires n < 16
  {
    if n < 10 then ('0' as int + n) as char else ('A' as int + n - 10) as char
  }

  predicate IsHex(c: char) { IsDigit(c) || 'a' <= c <= 'f' || 'A' <= c <= 'F' }

  function Unhex(c: char): (n: nat)
    requires IsHex(c)
    ensures n < 16
  {
    if IsDigit(c) then c as int - '0' as int
    else if 'a' <= c <= 'f' then c as int - 'a' as int + 10
    else c as int - 'A' as int + 10
  }

  function EscapeByte(c: char): string
    requires IsByte(c)
  {
    if Unreserved(c) then [c]
    else if c == ' ' then "+"
    else ['%', HexDigit(c as int / 16), HexDigit(c as int % 16)]
  }

  // Letters, digits and four more signs stand for themselves, a space is a plus sign, and any other
  // byte is a percent sign with two upper-case digits.
  lemma EscapeByteExactly(c: char)
    requires IsByte(c)
    ensures 'a' <= c <= 'z' || 'A' <= c <= 'Z' || '0' <= c <= '9' || c in "-_.~" ==> EscapeByte(c) == [c]
    ensures EscapeByte(' ') == "+"
    ensures !('a' <= c <= 'z' || 'A' <= c <= 'Z' || '0' <= c <= '9' || c in "-_.~ ") ==>
      EscapeByte(c) == ['%', "0123456789ABCDEF"[c as int / 16], "0123456789ABCDEF"[c as int % 16]]
  {
    HexDigitExactly(c as int / 16);
    HexDigitExactly(c as int % 16);
    SignsAre(c);
  }

  lemma HexDigitExactly(n: nat)
    requires n < 16
    ensures HexDigit(n) == "0123456789ABCDEF"[n]
  {
    var digits := "0123456789ABCDEF";
    assert digits[0] == '0' && digits[1] == '1' && digits[2] == '2' && digits[3] == '3' && digits[4] == '4';
    assert digits[5] == '5' && digits[6] == '6' && digits[7] == '7' && digits[8] == '8' && digits[9] == '9';
    assert digits[10] == 'A' && digits[11] == 'B' && digits[12] == 'C' && digits[13] == 'D' && digits[14] == 'E';
    assert digits[15] == 'F';
  }

  lemma SignsAre(c: char)
    ensures c in "-_.~" <==> c == '-' || c == '_' || c == '.' || c == '~'
    ensures c in "-_.~ " <==> c in "-_.~" || c == ' '
  {
    var four, five := "-_.~", "-_.~ ";
    assert four[0] == '-' && four[1] == '_' && four[2] == '.' && four[3] == '~';
    assert five == four + [' '];
  }

  // url.QueryEscape
  function QueryEscape(s: string): string
    requires Bytes(s)
  {
    if s == "" then "" else EscapeByte(s[0]) + QueryEscape(s[1..])
  }

  function Prepend(s: string, rest: Option<string>): Option<string> {
    if rest.None? then None else Some(s + rest.value)
  }

  // url.unescape; `plus` tells the query component, where '+' stands for a space.
  function Unescape(t: string, plus: bool): Option<string> {
    if t == "" then Some("")
    else if t[0] == '%' then
      if |t| < 3 || !IsHex(t[1]) || !IsHex(t[2]) then None
      else Prepend([(16 * Unhex(t[1]) + Unhex(t[2])) as char], Unescape(t[3..], plus))
    else Prepend([if plus && t[0] == '+' then ' ' else t[0]], Unescape(t[1..], plus))
  }

  function QueryUnescape(t: string): Option<string> { Unescape(t, true) }

  function FragmentUnescape(t: string): Option<string> { Unescape(t, false) }

  lemma HexRoundTrip(n: nat)
    requires n < 16
    ensures IsHex(HexDigit(n)) && Unhex(HexDigit(n)) == n
  {
  }

  lemma UnescapeByte(c: char, t: string, plus: bool)
    requires IsByte(c) && (plus || c != ' ')
    ensures Unescape(EscapeByte(c) + t, plus) == Prepend([c], Unescape(t, plus))
  {
    var e := EscapeByte(c);
    if Unreserved(c) || c == ' ' {
      assert (e + t)[1..] == t && (e + t)[0] == e[0];
    } else {
      HexRoundTrip(c as int / 16);
      HexRoundTrip(c as int % 16);
      assert (e + t)[3..] == t && (e + t)[0] == '%' && (e + t)[1] == e[1] && (e + t)[2] == e[2];
    }
  }

  // One more byte in front of `e`, the escaped form of `s`.
  lemma UnescapeMore(c: char, s: string, e: string, t: string, plus: bool)
    requires IsByte(c) && (plus || c != ' ') && Unescape(e + t, plus) == Prepend(s, Unescape(t, plus))
    ensures Unescape(EscapeByte(c) + e + t, plus) == Prepend([c] + s, Unescape(t, plus))
  {
    UnescapeByte(c, e + t, plus);
    assert EscapeByte(c) + e + t == EscapeByte(c) + (e + t);
    PrependTwice(c, s, Unescape(t, plus));
  }

  lemma {:induction false} UnescapeAppend(s: string, t: string, plus: bool)
    requires Bytes(s) && (plus || ' ' !in s)
    ensures Unescape(QueryEscape(s) + t, plus) == Prepend(s, Unescape(t, plus))
  {
    if s == "" {
      assert QueryEscape(s) + t == t;
      PrependNothing(Unescape(t, plus));
    } else {
      UnescapeAppend(s[1..], t, plus);
      UnescapeMore(s[0], s[1..], QueryEscape(s[1..]), t, plus);
      assert s == [s[0]] + s[1..];
    }
  }

  lemma PrependNothing(rest: Option<string>)
    ensures Prepend("", rest) == rest
  {
    if rest.Some? {
      assert "" + rest.value == rest.value;
    }
  }

  lemma PrependTwice(c: char, s: string, rest: Option<string>)
    ensures Prepend([c], Prepend(s, rest)) == Prepend([c] + s, rest)
  {
    if rest.Some? {
      assert [c] + (s + rest.value) == ([c] + s) + rest.value;
    }
  }

  /** What QueryEscape prints, QueryUnescape reads back. */
  lemma QueryRoundTrip(s: string)
    requires Bytes(s)
    ensures QueryUnescape(QueryEscape(s)) == Some(s)
  {
    UnescapeAppend(s, "", true);
    var e := QueryEscape(s);
    assert e + "" == e && s + "" == s;
  }

  // A fragment reads '+' as itself, so it brings back every space as a '+'.
  function SpacesToPlus(s: string): string { seq(|s|, i requires 0 <= i < |s| => if s[i] == ' ' then '+' else s[i]) }

  lemma {:induction false} FragmentReads(s: string)
    requires Bytes(s)
    ensures FragmentUnescape(QueryEscape(s)) == Some(SpacesToPlus(s))
  {
    if s == "" {
      assert SpacesToPlus(s) == "";
    } else {
      FragmentReads(s[1..]);
      var e, t := EscapeByte(s[0]), QueryEscape(s[1..]);
      assert SpacesToPlus(s) == [if s[0] == ' ' then '+' else s[0]] + SpacesToPlus(s[1..]);
      if s[0] == ' ' {
        assert (e + t)[1..] == t && (e + t)[0] == '+';
      } else {
        UnescapeByte(s[0], t, false);
      }
    }
  }

  /** Read as a fragment, an escaped text comes back if and only if it has no space. */
  lemma FragmentRoundTrip(s: string)
    requires Bytes(s)
    ensures FragmentUnescape(QueryEscape(s)) == Some(s) <==> ' ' !in s
  {
    FragmentReads(s);
    if SpacesToPlus(s) == s {
      assert forall i :: 0 <= i < |s| ==> SpacesToPlus(s)[i] == s[i];
    }
    if ' ' !in s {
      assert SpacesToPlus(s) == s;
    }
  }

  // The characters an escaped text is made of.
  predicate Plain(c: char) { Unreserved(c) || c == '+' || c == '%' }

  lemma {:induction false} EscapedIsPlain(s: string)
    requires Bytes(s)
    ensures forall i :: 0 <= i < |QueryEscape(s)| ==> Plain(QueryEscape(s)[i])
  {
    if s != "" {
      EscapedIsPlain(s[1..]);
    }
  }
}
