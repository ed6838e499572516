/** internal/security/security.go: printing and checking password hashes. */
module Passwords {
  import Decimal
  import opened PBKDF2
  import opened Percent
  import opened Results
  import opened Text

  const SCHEME: string := "pbkdf2_sha256"

  const DEFAULT_ITERATIONS: nat := 260_000

  const DIGEST_LENGTH: nat := 32

  // []byte(s)
  function Raw(s: string): Octets
    requires Bytes(s)
  {
    seq(|s|, i requires 0 <= i < |s| => s[i] as int)
  }

  // ---- encoding/hex ----

  function LowerHex(n: nat): char
    requires n < 16
  {
    if n < 10 then ('0' as int + n) as char else ('a' as int + n - 10) as char
  }

  lemma LowerHexExactly(n: nat)
    requires n < 16
    ensures LowerHex(n) == "0123456789abcdef"[n]
  {
  }

  function HexEncode(b: Octets): string {
    if b == [] then "" else [LowerHex(b[0] / 16), LowerHex(b[0] % 16)] + HexEncode(b[1..])
  }

  function HexDecode(s: string): Option<Octets> {
    if s == "" then Some([])
    else if |s| == 1 || !IsHex(s[0]) || !IsHex(s[1]) then None
    else
      var rest := HexDecode(s[2..]);
      if rest.None? then None else Some([16 * Unhex(s[0]) + Unhex(s[1])] + rest.value)
  }

  lemma {:induction false} HexRoundTrip(b: Octets)
    ensures HexDecode(HexEncode(b)) == Some(b)
    ensures forall i :: 0 <= i < |HexEncode(b)| ==> IsHex(HexEncode(b)[i])
  {
    if b != [] {
      HexRoundTrip(b[1..]);
      var s := HexEncode(b);
      assert s[2..] == HexEncode(b[1..]);
      assert Unhex(LowerHex(b[0] / 16)) == b[0] / 16 && Unhex(LowerHex(b[0] % 16)) == b[0] % 16;
      assert b == [b[0]] + b[1..];
    }
  }

  // Two digits for each octet, the high one first.
  lemma {:induction false} HexExactly(b: Octets)
    ensures |HexEncode(b)| == 2 * |b|
    ensures forall i :: 0 <= i < |b| ==> HexEncode(b)[2 * i] == LowerHex(b[i] / 16) && HexEncode(b)[2 * i + 1] == LowerHex(b[i] % 16)
  {
    if b != [] {
      HexExactly(b[1..]);
      forall i | 0 < i < |b|
        ensures HexEncode(b)[2 * i] == LowerHex(b[i] / 16) && HexEncode(b)[2 * i + 1] == LowerHex(b[i] % 16)
      {
        assert HexEncode(b)[2 * i] == HexEncode(b[1..])[2 * (i - 1)] && b[i] == b[1..][i - 1];
        assert HexEncode(b)[2 * i + 1] == HexEncode(b[1..])[2 * (i - 1) + 1];
      }
    }
  }

  // ---- fmt.Sscanf with %d ----

  function DigitsUpTo(s: string, n: nat): nat
    requires n <= |s|
    decreases |s| - n
  {
    if n < |s| && IsDigit(s[n]) then DigitsUpTo(s, n + 1) else n
  }

  lemma {:induction false} DigitsEnd(s: string, n: nat)
    requires n <= |s|
    ensures n <= DigitsUpTo(s, n) <= |s| && forall i :: n <= i < DigitsUpTo(s, n) ==> IsDigit(s[i])
    decreases |s| - n
  {
    if n < |s| && IsDigit(s[n]) {
      DigitsEnd(s, n + 1);
    }
  }

  function SkipSpaces(s: string): string { if s != "" && (s[0] == ' ' || s[0] == '\t') then SkipSpaces(s[1..]) else s }

  // Optional blanks and sign, then digits; what follows them is not read.
  function ScanInt(s: string): Option<int> {
    var t := SkipSpaces(s);
    var signed := t != "" && (t[0] == '-' || t[0] == '+');
    var body := if signed then t[1..] else t;
    DigitsEnd(body, 0);
    var digits := body[..DigitsUpTo(body, 0)];
    var value := Decimal.Atoi(digits);
    if value.None? then None
    else
      var n: int := value.value;
      Some(if signed && t[0] == '-' then -n else n)
  }

  lemma {:induction false} AllDigitsScanned(s: string, n: nat)
    requires n <= |s| && forall i :: n <= i < |s| ==> IsDigit(s[i])
    ensures DigitsUpTo(s, n) == |s|
    decreases |s| - n
  {
    if n < |s| {
      AllDigitsScanned(s, n + 1);
    }
  }

  lemma ScanPrinted(n: nat)
    requires n <= Decimal.MAX_INT
    ensures ScanInt(Decimal.Print(n)) == Some(n)
  {
    var s := Decimal.Print(n);
    Decimal.PrintRoundTrip(n);
    assert IsDigit(s[0]) && SkipSpaces(s) == s;
    AllDigitsScanned(s, 0);
    assert s[..|s|] == s;
  }

  // ---- Hashes ----

  // What PasswordHash stores for a salt.
  function Stored(scheme: string, iterations: nat, salt: string, digest: Octets): string {
    scheme + "$" + (Decimal.Print(iterations) + "$" + (salt + "$" + HexEncode(digest)))
  }

  // The salt is a random token in the URL alphabet of base64.
  predicate SaltText(salt: string) { Bytes(salt) && '$' !in salt }

  method PasswordHash(prf: PRF, size: nat, password: string, salt: string) returns (stored: string)
    requires HasSize(prf, size) && Bytes(password) && SaltText(salt)
    ensures stored == Stored("pbkdf2_sha256", 260_000, salt, DK(prf, size, Raw(password), Raw(salt), 260_000, 32))
  {
    var digest := Pbkdf2Key(prf, size, Raw(password), Raw(salt), DEFAULT_ITERATIONS, DIGEST_LENGTH);
    stored := Stored(SCHEME, DEFAULT_ITERATIONS, salt, digest.bytes);
  }

  datatype Verdict = Accept | Reject | Panics

  function Judge(equal: bool): Verdict { if equal then Accept else Reject }

  // A stored value that is taken apart: iterations, salt and expected digest.
  datatype Parsed = Plain | Malformed | Hash(iterations: int, salt: string, expected: Octets)

  function ParseStored(scheme: string, stored: string): Parsed {
    if !HasPrefix(stored, scheme + "$") then Plain
    else
      var parts := SplitOn(stored, '$');
      if |parts| != 4 then Malformed
      else
        var iterations, expected := ScanInt(parts[1]), HexDecode(parts[3]);
        if iterations.None? || expected.None? then Malformed else Hash(iterations.value, parts[2], expected.value)
  }

  // What VerifyPassword must answer: a stored value without the scheme's prefix is compared as
  // it is; a malformed one is rejected; otherwise the derived key decides.
  ghost function Check(prf: PRF, size: nat, scheme: string, password: string, stored: string): Verdict
    requires HasSize(prf, size) && Bytes(password) && Bytes(stored)
  {
    match ParseStored(scheme, stored)
    case Plain => Judge(password == stored)
    case Malformed => Reject
    case Hash(iterations, salt, expected) =>
      SplitBytes(stored, '$');
      if iterations <= 0 || expected == [] then Panics
      else Judge(DK(prf, size, Raw(password), Raw(salt), iterations, |expected|) == expected)
  }

  /** What a stored value accepts: without the scheme's prefix, exactly itself; with it, and
      malformed, nothing; and otherwise exactly the passwords with the derived key it holds. */
  lemma CheckExactly(prf: PRF, size: nat, password: string, stored: string)
    requires HasSize(prf, size) && Bytes(password) && Bytes(stored)
    ensures var v := Check(prf, size, SCHEME, password, stored);
            && (!("pbkdf2_sha256$" <= stored) ==> v == if password == stored then Accept else Reject)
            && ("pbkdf2_sha256$" <= stored ==>
                  var parts := SplitOn(stored, '$');
                  if |parts| != 4 || ScanInt(parts[1]).None? || HexDecode(parts[3]).None? then v == Reject
                  else
                    var iterations, expected := ScanInt(parts[1]).value, HexDecode(parts[3]).value;
                    && Bytes(parts[2])
                    && (v == Panics <==> iterations <= 0 || expected == [])
                    && (v == Accept <==> iterations > 0 && expected != [] &&
                                         DK(prf, size, Raw(password), Raw(parts[2]), iterations, |expected|) == expected))
  {
    assert SCHEME + "$" == "pbkdf2_sha256$";
    SplitBytes(stored, '$');
  }

  /** VerifyPassword.  A value that asks for no iterations, or holds no digest, makes the key
      derivation panic; nothing else does. */
  method VerifyPassword(prf: PRF, size: nat, password: string, stored: string) returns (v: Verdict)
    requires HasSize(prf, size) && Bytes(password) && Bytes(stored)
    ensures v == Check(prf, size, SCHEME, password, stored)
    ensures !("pbkdf2_sha256$" <= stored) ==> v == if password == stored then Accept else Reject
    ensures v == Panics <==> var p := ParseStored(SCHEME, stored); p.Hash? && (p.iterations <= 0 || p.expected == [])
  {
    CheckExactly(prf, size, password, stored);
    if !HasPrefix(stored, SCHEME + "$") {
      return Judge(password == stored);
    }
    var parts := SplitOn(stored, '$');
    if |parts| != 4 {
      return Reject;
    }
    var iterations := ScanInt(parts[1]);
    if iterations.None? {
      return Reject;
    }
    var expected := HexDecode(parts[3]);
    if expected.None? {
      return Reject;
    }
    SplitBytes(stored, '$');
    var digest := Pbkdf2Key(prf, size, Raw(password), Raw(parts[2]), iterations.value, |expected.value|);
    v := if digest.Panic? then Panics else Judge(digest.bytes == expected.value);
  }

  lemma {:induction false} SplitBytes(s: string, c: char)
    requires Bytes(s)
    ensures forall i :: 0 <= i < |SplitOn(s, c)| ==> Bytes(SplitOn(s, c)[i])
  {
    if s != "" {
      SplitBytes(s[1..], c);
    }
  }

  lemma StoredParses(scheme: string, iterations: nat, salt: string, digest: Octets)
    requires '$' !in scheme && '$' !in salt && iterations <= Decimal.MAX_INT
    ensures ParseStored(scheme, Stored(scheme, iterations, salt, digest)) == Hash(iterations, salt, digest)
  {
    var count, hex := Decimal.Print(iterations), HexEncode(digest);
    HexRoundTrip(digest);
    Decimal.PrintRoundTrip(iterations);
    ScanPrinted(iterations);
    assert '$' !in count && '$' !in hex;
    SplitNothing(scheme, '$');
    SplitNothing(count, '$');
    SplitNothing(salt, '$');
    SplitNothing(hex, '$');
    SplitAppend(salt, '$', hex);
    SplitAppend(count, '$', salt + "$" + hex);
    SplitAppend(scheme, '$', count + "$" + (salt + "$" + hex));
    assert HasPrefix(Stored(scheme, iterations, salt, digest), scheme + "$");
  }

  lemma StoredBytes(scheme: string, iterations: nat, salt: string, digest: Octets)
    requires Bytes(scheme) && Bytes(salt)
    ensures Bytes(Stored(scheme, iterations, salt, digest))
  {
    HexRoundTrip(digest);
    Decimal.PrintRoundTrip(iterations);
    var count, hex := Decimal.Print(iterations), HexEncode(digest);
    assert Bytes(count) && Bytes(hex);
  }

  /** What PasswordHash stores, VerifyPassword accepts; and it accepts another password exactly
      when that derives the same key. */
  lemma HashVerifies(prf: PRF, size: nat, password: string, salt: string, other: string)
    requires HasSize(prf, size) && Bytes(password) && Bytes(other) && SaltText(salt)
    ensures var digest := DK(prf, size, Raw(password), Raw(salt), DEFAULT_ITERATIONS, DIGEST_LENGTH);
            var stored := Stored(SCHEME, DEFAULT_ITERATIONS, salt, digest);
            && Bytes(stored)
            && Check(prf, size, SCHEME, password, stored) == Accept
            && (Check(prf, size, SCHEME, other, stored) == Accept <==>
                DK(prf, size, Raw(other), Raw(salt), DEFAULT_ITERATIONS, DIGEST_LENGTH) == digest)
  {
    var digest := DK(prf, size, Raw(password), Raw(salt), DEFAULT_ITERATIONS, DIGEST_LENGTH);
    assert '$' !in SCHEME && Bytes(SCHEME);
    StoredBytes(SCHEME, DEFAULT_ITERATIONS, salt, digest);
    StoredParses(SCHEME, DEFAULT_ITERATIONS, salt, digest);
  }
}
