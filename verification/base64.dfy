/** encoding/base64 as the subscription code uses it (section 4 of RFC 4648): printing with the
    standard alphabet and padding, reading with either alphabet, padded or not.  The reader,
    like Go's, does not look at the bits that the last digit has to spare. */
module Base64 {
  import opened Percent
  import opened Results

  // The alphabet: the last two digits differ between the standard and the URL one.
  function Digit(n: nat, url: bool): char
    requires n < 64
  {
    if n < 26 then ('A' as int + n) as char
    else if n < 52 then ('a' as int + n - 26) as char
    else if n < 62 then ('0' as int + n - 52) as char
    else if n == 62 then (if url then '-' else '+')
    else if url then '_' else '/'
  }

  // The value of a digit, or 64 for a character outside the alphabet.
  function Value(c: char, url: bool): (n: nat)
    ensures n <= 64
  {
    if 'A' <= c <= 'Z' then c as int - 'A' as int
    else if 'a' <= c <= 'z' then c as int - 'a' as int + 26
    else if '0' <= c <= '9' then c as int - '0' as int + 52
    else if c == (if url then '-' else '+') then 62
    else if c == (if url then '_' else '/') then 63
    else 64
  }

  lemma DigitRoundTrip(n: nat, url: bool)
    requires n < 64
    ensures Value(Digit(n, url), url) == n && Digit(n, url) != '='
  {
  }

  // The two alphabets, written out.
  lemma AlphabetExactly(n: nat, url: bool)
    requires n < 64
    ensures n < 26 ==> Digit(n, url) == "ABCDEFGHIJKLMNOPQRSTUVWXYZ"[n]
    ensures 26 <= n < 52 ==> Digit(n, url) == "abcdefghijklmnopqrstuvwxyz"[n - 26]
    ensures 52 <= n < 62 ==> Digit(n, url) == "0123456789"[n - 52]
    ensures n >= 62 ==> Digit(n, false) == "+/"[n - 62] && Digit(n, true) == "-_"[n - 62]
  {
    var upper, lower, digits := "ABCDEFGHIJKLMNOPQRSTUVWXYZ", "abcdefghijklmnopqrstuvwxyz", "0123456789";
    assert forall i :: 0 <= i < 26 ==> upper[i] == ('A' as int + i) as char;
    assert forall i :: 0 <= i < 26 ==> lower[i] == ('a' as int + i) as char;
    assert forall i :: 0 <= i < 10 ==> digits[i] == ('0' as int + i) as char;
  }

  datatype Encoding = Encoding(url: bool, padded: bool)

  // StdEncoding, RawStdEncoding, URLEncoding, RawURLEncoding
  const STD: Encoding := Encoding(false, true)
  const RAW_STD: Encoding := Encoding(false, false)
  const URL: Encoding := Encoding(true, true)
  const RAW_URL: Encoding := Encoding(true, false)

  // ---- Printing ----

  function Quantum(a: nat, b: nat, c: nat, url: bool): string
    requires a < 256 && b < 256 && c < 256
  {
    [Digit(a / 4, url), Digit(a % 4 * 16 + b / 16, url), Digit(b % 16 * 4 + c / 64, url), Digit(c % 64, url)]
  }

  function Pad(e: Encoding, padding: string): string { if e.padded then padding else "" }

  function EncodeAs(s: string, e: Encoding): string
    requires Bytes(s)
  {
    if |s| == 0 then ""
    else if |s| == 1 then Quantum(s[0] as int, 0, 0, e.url)[..2] + Pad(e, "==")
    else if |s| == 2 then Quantum(s[0] as int, s[1] as int, 0, e.url)[..3] + Pad(e, "=")
    else Quantum(s[0] as int, s[1] as int, s[2] as int, e.url) + EncodeAs(s[3..], e)
  }

  // base64.StdEncoding.EncodeToString
  function Encode(s: string): string
    requires Bytes(s)
  {
    EncodeAs(s, STD)
  }

  // ---- Reading ----

  // The three bytes of four digits.
  function Byte0(v0: nat, v1: nat): char
    requires v0 < 64 && v1 < 64
  {
    (v0 * 4 + v1 / 16) as char
  }

  function Byte1(v1: nat, v2: nat): char
    requires v1 < 64 && v2 < 64
  {
    (v1 % 16 * 16 + v2 / 4) as char
  }

  function Byte2(v2: nat, v3: nat): char
    requires v2 < 64 && v3 < 64
  {
    (v2 % 4 * 64 + v3) as char
  }

  predicate Digits(s: string, n: nat, url: bool) { n <= |s| && forall i :: 0 <= i < n ==> Value(s[i], url) < 64 }

  // The last quantum, of two or three digits, padded where the encoding demands it.
  function DecodeTail(s: string, e: Encoding): Option<string> {
    var n := if e.padded then (if |s| != 4 then 0 else if s[3] != '=' then 0 else if s[2] == '=' then 2 else 3) else |s|;
    if (n != 2 && n != 3) || !Digits(s, n, e.url) then None
    else
      var v0, v1 := Value(s[0], e.url), Value(s[1], e.url);
      if n == 2 then Some([Byte0(v0, v1)])
      else Some([Byte0(v0, v1), Byte1(v1, Value(s[2], e.url))])
  }

  // Encoding.DecodeString on a text without line breaks.
  function Decode(s: string, e: Encoding): Option<string> {
    if s == "" then Some("")
    else if !Digits(s, 4, e.url) then DecodeTail(s, e)
    else
      var v0, v1, v2, v3 := Value(s[0], e.url), Value(s[1], e.url), Value(s[2], e.url), Value(s[3], e.url);
      Prepend([Byte0(v0, v1), Byte1(v1, v2), Byte2(v2, v3)], Decode(s[4..], e))
  }

  // ---- Round trip ----

  lemma QuantumDigits(a: nat, b: nat, c: nat, url: bool)
    requires a < 256 && b < 256 && c < 256
    ensures var q := Quantum(a, b, c, url);
            && Value(q[0], url) == a / 4
            && Value(q[1], url) == a % 4 * 16 + b / 16
            && Value(q[2], url) == b % 16 * 4 + c / 64
            && Value(q[3], url) == c % 64
  {
    DigitRoundTrip(a / 4, url);
    DigitRoundTrip(a % 4 * 16 + b / 16, url);
    DigitRoundTrip(b % 16 * 4 + c / 64, url);
    DigitRoundTrip(c % 64, url);
  }

  lemma BytesFromDigits(a: nat, b: nat, c: nat)
    requires a < 256 && b < 256 && c < 256
    ensures Byte0(a / 4, a % 4 * 16 + b / 16) as int == a
    ensures Byte1(a % 4 * 16 + b / 16, b % 16 * 4 + c / 64) as int == b
    ensures Byte2(b % 16 * 4 + c / 64, c % 64) as int == c
  {
  }

  lemma DecodeFour(q: string, t: string, e: Encoding)
    requires |q| == 4 && Digits(q, 4, e.url)
    ensures Decode(q + t, e) ==
            Prepend([Byte0(Value(q[0], e.url), Value(q[1], e.url)), Byte1(Value(q[1], e.url), Value(q[2], e.url)),
                     Byte2(Value(q[2], e.url), Value(q[3], e.url))], Decode(t, e))
  {
    var s := q + t;
    assert s[4..] == t && s[0] == q[0] && s[1] == q[1] && s[2] == q[2] && s[3] == q[3];
  }

  lemma DecodeQuantum(a: char, b: char, c: char, t: string, e: Encoding)
    requires IsByte(a) && IsByte(b) && IsByte(c)
    ensures Decode(Quantum(a as int, b as int, c as int, e.url) + t, e) == Prepend([a, b, c], Decode(t, e))
  {
    QuantumDigits(a as int, b as int, c as int, e.url);
    BytesFromDigits(a as int, b as int, c as int);
    DecodeFour(Quantum(a as int, b as int, c as int, e.url), t, e);
  }

  lemma TailOfTwo(d: string, e: Encoding)
    requires |d| == 2 && Digits(d, 2, e.url)
    ensures Decode(d + Pad(e, "=="), e) == Some([Byte0(Value(d[0], e.url), Value(d[1], e.url))])
  {
    var t := d + Pad(e, "==");
    assert t[0] == d[0] && t[1] == d[1];
    assert !Digits(t, 4, e.url) by { assert e.padded ==> t[2] == '=' && Value('=', e.url) == 64; }
  }

  lemma TailOfThree(d: string, e: Encoding)
    requires |d| == 3 && Digits(d, 3, e.url) && d[2] != '='
    ensures Decode(d + Pad(e, "="), e) ==
            Some([Byte0(Value(d[0], e.url), Value(d[1], e.url)), Byte1(Value(d[1], e.url), Value(d[2], e.url))])
  {
    var t := d + Pad(e, "=");
    assert t[0] == d[0] && t[1] == d[1] && t[2] == d[2];
    assert !Digits(t, 4, e.url) by { assert e.padded ==> t[3] == '=' && Value('=', e.url) == 64; }
  }

  lemma DecodeLast1(a: char, e: Encoding)
    requires IsByte(a)
    ensures Decode(EncodeAs([a], e), e) == Some([a])
  {
    QuantumDigits(a as int, 0, 0, e.url);
    BytesFromDigits(a as int, 0, 0);
    TailOfTwo(Quantum(a as int, 0, 0, e.url)[..2], e);
  }

  lemma DecodeLast2(a: char, b: char, e: Encoding)
    requires IsByte(a) && IsByte(b)
    ensures Decode(EncodeAs([a, b], e), e) == Some([a, b])
  {
    var d := Quantum(a as int, b as int, 0, e.url)[..3];
    ThreeDigits(a, b, d, e.url);
    TailOfThree(d, e);
    assert EncodeAs([a, b], e) == d + Pad(e, "=");
  }

  lemma ThreeDigits(a: char, b: char, d: string, url: bool)
    requires IsByte(a) && IsByte(b) && d == Quantum(a as int, b as int, 0, url)[..3]
    ensures Digits(d, 3, url) && d[2] != '='
    ensures Byte0(Value(d[0], url), Value(d[1], url)) == a && Byte1(Value(d[1], url), Value(d[2], url)) == b
  {
    var q := Quantum(a as int, b as int, 0, url);
    assert d[0] == q[0] && d[1] == q[1] && d[2] == q[2];
    QuantumDigits(a as int, b as int, 0, url);
    BytesFromDigits(a as int, b as int, 0);
    DigitRoundTrip(b as int % 16 * 4, url);
  }

  lemma EncodeMore(s: string, rest: string, e: Encoding)
    requires Bytes(s) && |s| > 2 && rest == EncodeAs(s[3..], e) && Decode(rest, e) == Some(s[3..])
    ensures Decode(EncodeAs(s, e), e) == Some(s)
  {
    DecodeQuantum(s[0], s[1], s[2], rest, e);
    assert s == [s[0], s[1], s[2]] + s[3..];
  }

  /** What each of the four encodings prints, it reads back. */
  lemma {:induction false} EncodeRoundTrip(s: string, e: Encoding)
    requires Bytes(s)
    ensures Decode(EncodeAs(s, e), e) == Some(s)
    decreases |s|
  {
    if |s| == 1 {
      assert s == [s[0]];
      DecodeLast1(s[0], e);
    } else if |s| == 2 {
      assert s == [s[0], s[1]];
      DecodeLast2(s[0], s[1], e);
    } else if |s| > 2 {
      EncodeRoundTrip(s[3..], e);
      EncodeMore(s, EncodeAs(s[3..], e), e);
    }
  }

  // A character that is a digit of both alphabets has one value.
  lemma SameValue(c: char, u: bool, v: bool)
    requires Value(c, u) < 64 && Value(c, v) < 64
    ensures Value(c, u) == Value(c, v)
  {
  }

  lemma SameValues(s: string, n: nat, u: bool, v: bool)
    requires Digits(s, n, u) && Digits(s, n, v)
    ensures forall i :: 0 <= i < n ==> Value(s[i], u) == Value(s[i], v)
  {
    forall i | 0 <= i < n ensures Value(s[i], u) == Value(s[i], v) { SameValue(s[i], u, v); }
  }

  lemma TailsAgree(s: string, e: Encoding, f: Encoding)
    requires DecodeTail(s, e).Some? && DecodeTail(s, f).Some?
    ensures DecodeTail(s, e) == DecodeTail(s, f)
  {
    SameValues(s, 2, e.url, f.url);
    if Digits(s, 3, e.url) && Digits(s, 3, f.url) {
      SameValues(s, 3, e.url, f.url);
    }
  }

  // Four digits are no tail.
  lemma DigitsAreNoTail(s: string, e: Encoding, f: Encoding)
    requires Digits(s, 4, e.url)
    ensures DecodeTail(s, f).None?
  {
    assert Value('=', e.url) == 64;
  }

  /** Whatever two of the encodings both accept, they read as the same text. */
  lemma {:induction false} DecodersAgree(s: string, e: Encoding, f: Encoding)
    requires Decode(s, e).Some? && Decode(s, f).Some?
    ensures Decode(s, e) == Decode(s, f)
  {
    if s != "" {
      if Digits(s, 4, e.url) && Digits(s, 4, f.url) {
        SameValues(s, 4, e.url, f.url);
        DecodersAgree(s[4..], e, f);
      } else if Digits(s, 4, e.url) {
        DigitsAreNoTail(s, e, f);
      } else if Digits(s, 4, f.url) {
        DigitsAreNoTail(s, f, e);
      } else {
        TailsAgree(s, e, f);
      }
    }
  }

  // The characters of the four encodings.
  predicate AnyBase64Char(c: char) { Base64Char(c) || c == '-' || c == '_' }

  predicate AllBase64(s: string) { forall i :: 0 <= i < |s| ==> AnyBase64Char(s[i]) }

  lemma QuantumChars(a: nat, b: nat, c: nat, url: bool)
    requires a < 256 && b < 256 && c < 256
    ensures AllBase64(Quantum(a, b, c, url))
  {
  }

  lemma JoinedChars(x: string, y: string)
    requires AllBase64(x) && AllBase64(y)
    ensures AllBase64(x + y)
  {
  }

  lemma LastChars(s: string, e: Encoding)
    requires Bytes(s) && 1 <= |s| <= 2
    ensures AllBase64(EncodeAs(s, e)) && EncodeAs(s, e) != ""
  {
    var q := Quantum(s[0] as int, if |s| == 2 then s[1] as int else 0, 0, e.url);
    QuantumChars(s[0] as int, if |s| == 2 then s[1] as int else 0, 0, e.url);
    JoinedChars(q[..|s| + 1], Pad(e, if |s| == 1 then "==" else "="));
  }

  lemma {:induction false} EncodedAsChars(s: string, e: Encoding)
    requires Bytes(s)
    ensures AllBase64(EncodeAs(s, e))
    ensures s != "" ==> EncodeAs(s, e) != ""
  {
    if |s| > 2 {
      EncodedAsChars(s[3..], e);
      QuantumChars(s[0] as int, s[1] as int, s[2] as int, e.url);
      JoinedChars(Quantum(s[0] as int, s[1] as int, s[2] as int, e.url), EncodeAs(s[3..], e));
    } else if s != "" {
      LastChars(s, e);
    }
  }

  predicate Base64Char(c: char) { IsLetter(c) || IsDigit(c) || c == '+' || c == '/' || c == '=' }

  lemma {:induction false} EncodedChars(s: string)
    requires Bytes(s)
    ensures forall i :: 0 <= i < |Encode(s)| ==> Base64Char(Encode(s)[i])
    ensures s != "" ==> Encode(s) != ""
  {
    if |s| > 2 {
      EncodedChars(s[3..]);
      assert Encode(s) == Quantum(s[0] as int, s[1] as int, s[2] as int, false) + Encode(s[3..]);
    }
  }
}
