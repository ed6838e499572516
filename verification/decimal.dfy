/** internal/subscription/subscription.go and strconv: decimal numbers out and in. */
module Decimal {
  import opened Percent
  import opened Results

  const MAX_INT: int := 0x7FFF_FFFF_FFFF_FFFF

  function DigitOf(n: nat): char
    requires n < 10
  {
    ('0' as int + n) as char
  }

  function Print(n: nat): string {
    if n < 10 then [DigitOf(n)] else Print(n / 10) + [DigitOf(n % 10)]
  }

  function Value(s: string): nat
    requires forall i :: 0 <= i < |s| ==> IsDigit(s[i])
  {
    if s == "" then 0
    else
      assert IsDigit(s[|s| - 1]);
      10 * Value(s[..|s| - 1]) + (s[|s| - 1] as int - '0' as int)
  }

  // strconv.Atoi on a text of digits: an error on an empty text or on overflow.
  function Atoi(s: string): Option<nat>
    requires forall i :: 0 <= i < |s| ==> IsDigit(s[i])
  {
    if s == "" || Value(s) > MAX_INT then None else Some(Value(s))
  }

  lemma {:induction false} PrintRoundTrip(n: nat)
    ensures Print(n) != "" && (forall i :: 0 <= i < |Print(n)| ==> IsDigit(Print(n)[i])) && Value(Print(n)) == n
  {
    if n < 10 {
      assert Print(n)[..0] == "";
    } else {
      PrintRoundTrip(n / 10);
      var s := Print(n);
      assert s[..|s| - 1] == Print(n / 10) && s[|s| - 1] == DigitOf(n % 10);
    }
  }

  function Power(k: nat): nat { if k == 0 then 1 else 10 * Power(k - 1) }

  // What intString prints: any number that is not positive means the default port.
  function IntString(value: int): string { if value <= 0 then "443" else Print(value) }

  // The port that a reader will take it for.
  function EffectivePort(value: int): int { if value <= 0 then 443 else value }

  lemma IntStringRoundTrip(value: int)
    requires value <= MAX_INT
    ensures var s := IntString(value);
            s != "" && (forall i :: 0 <= i < |s| ==> IsDigit(s[i])) && Atoi(s) == Some(EffectivePort(value))
  {
    if value <= 0 {
      var s := "443";
      assert s[..2] == "44" && s[..2][..1] == "4" && s[..2][..1][..0] == "";
      assert Value("4") == 4 && Value("44") == 44;
    } else {
      PrintRoundTrip(value);
    }
  }

  // intString: the digits fill a fixed buffer from its end; an int has at most 19 of them.
  method FillIntString(value: int) returns (s: string)
    requires value <= MAX_INT
    ensures s == IntString(value)
  {
    if value <= 0 {
      return "443";
    }
    var buf := new char[20];
    var i, n: nat := buf.Length, value;
    assert Power(20) == 100_000_000_000_000_000_000 by {
      assert Power(5) == 100_000;
      assert Power(10) == 10_000_000_000;
      assert Power(15) == 1_000_000_000_000_000;
    }
    while n > 0
      invariant 0 <= i <= 20 && n < Power(i)
      invariant n > 0 ==> Print(value) == Print(n) + buf[i..]
      invariant n == 0 ==> Print(value) == buf[i..]
      decreases n
    {
      i := i - 1;
      buf[i] := DigitOf(n % 10);
      assert buf[i..] == [DigitOf(n % 10)] + buf[i + 1..];
      n := n / 10;
    }
    s := buf[i..];
  }
}
