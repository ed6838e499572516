/** internal/security/security.go: PBKDF2 (section 5.2 of RFC 8018) and the password hashes made
    with it.  The pseudorandom function is abstract: any function of a key and a message whose
    results all have the same length, which is not zero. */
module PBKDF2 {

  type byte = x: int | 0 <= x < 256

  type Octets = seq<byte>

  type PRF = (Octets, Octets) -> Octets

  ghost predicate HasSize(prf: PRF, size: nat) { size > 0 && forall k, m :: |prf(k, m)| == size }

  function XorByte(a: byte, b: byte): byte { ((a as bv8) ^ (b as bv8)) as byte }

  // The bits set in just one of the two.
  lemma XorByteExactly(a: byte, b: byte)
    ensures XorByte(a, b) == (((a as bv8) | (b as bv8)) & !((a as bv8) & (b as bv8))) as byte
  {
    BitsInOne(a as bv8, b as bv8);
  }

  lemma BitsInOne(x: bv8, y: bv8)
    ensures x ^ y == (x | y) & !(x & y)
  {
  }

  function Xor(a: Octets, b: Octets): Octets
    requires |a| == |b|
  {
    seq(|a|, i requires 0 <= i < |a| => XorByte(a[i], b[i]))
  }

  // ---- The definition of RFC 8018 ----

  // INT (i): the low 32 bits of the block index, most significant octet first.
  function INT(i: nat): Octets { [i / 0x1000000 % 256, i / 0x10000 % 256, i / 0x100 % 256, i % 256] }

  // U_c of block `i`.
  function U(prf: PRF, p: Octets, s: Octets, i: nat, c: nat): Octets
    requires c > 0
  {
    if c == 1 then prf(p, s + INT(i)) else prf(p, U(prf, p, s, i, c - 1))
  }

  lemma USize(prf: PRF, size: nat, p: Octets, s: Octets, i: nat, c: nat)
    requires c > 0 && HasSize(prf, size)
    ensures |U(prf, p, s, i, c)| == size
  {
  }

  // F (P, S, c, i) = U_1 \\xor U_2 \\xor ... \\xor U_c
  ghost function F(prf: PRF, size: nat, p: Octets, s: Octets, c: nat, i: nat): (t: Octets)
    requires c > 0 && HasSize(prf, size)
    ensures |t| == size
  {
    USize(prf, size, p, s, i, c);
    if c == 1 then U(prf, p, s, i, 1) else Xor(F(prf, size, p, s, c - 1, i), U(prf, p, s, i, c))
  }

  // T_1 || T_2 || ... || T_n
  ghost function Blocks(prf: PRF, size: nat, p: Octets, s: Octets, c: nat, n: nat): (out: Octets)
    requires c > 0 && HasSize(prf, size)
    ensures |out| == n * size
  {
    if n == 0 then []
    else
      assert (n - 1) * size + size == n * size;
      Blocks(prf, size, p, s, c, n - 1) + F(prf, size, p, s, c, n)
  }

  // l = CEIL (dkLen / hLen)
  function BlockCount(keyLen: nat, size: nat): nat
    requires size > 0
  {
    (keyLen + size - 1) / size
  }

  lemma BlocksSuffice(keyLen: nat, size: nat)
    requires size > 0
    ensures keyLen <= BlockCount(keyLen, size) * size
    ensures keyLen > 0 ==> (BlockCount(keyLen, size) - 1) * size < keyLen
  {
    var q, r := BlockCount(keyLen, size), (keyLen + size - 1) % size;
    assert keyLen + size - 1 == size * q + r && r < size;
    assert (q - 1) * size == q * size - size;
  }

  ghost function DK(prf: PRF, size: nat, p: Octets, s: Octets, c: nat, keyLen: nat): (dk: Octets)
    requires c > 0 && HasSize(prf, size)
    ensures |dk| == keyLen
  {
    BlocksSuffice(keyLen, size);
    Blocks(prf, size, p, s, c, BlockCount(keyLen, size))[..keyLen]
  }

  // ---- pbkdf2Key ----

  datatype Outcome = Key(bytes: Octets) | Panic

  method XorInto(t: array<byte>, u: Octets)
    requires |u| == t.Length
    modifies t
    ensures t[..] == Xor(old(t[..]), u)
  {
    ghost var before := t[..];
    for x := 0 to t.Length
      invariant forall y :: 0 <= y < x ==> t[y] == XorByte(before[y], u[y])
      invariant forall y :: x <= y < t.Length ==> t[y] == before[y]
    {
      t[x] := XorByte(t[x], u[x]);
    }
    assert t[..] == Xor(before, u);
  }

  // One block: the buffer `t` takes in each further U in place.
  method Block(prf: PRF, ghost size: nat, p: Octets, s: Octets, iter: nat, block: nat) returns (t: array<byte>)
    requires iter > 0 && HasSize(prf, size)
    ensures fresh(t) && t[..] == F(prf, size, p, s, iter, block)
  {
    var u := prf(p, s + INT(block));
    t := new byte[|u|](i requires 0 <= i < |u| => u[i]);
    assert t[..] == u;
    for i := 1 to iter
      invariant u == U(prf, p, s, block, i) && t[..] == F(prf, size, p, s, i, block)
    {
      u := prf(p, u);
      assert u == U(prf, p, s, block, i + 1);
      XorInto(t, u);
    }
  }

  /** pbkdf2Key: the derived key of RFC 8018, for every PRF, iteration count and key length; it
      panics exactly when one of the two numbers is not positive. */
  method Pbkdf2Key(prf: PRF, size: nat, p: Octets, s: Octets, iter: int, keyLen: int) returns (r: Outcome)
    requires HasSize(prf, size)
    ensures r.Panic? <==> iter <= 0 || keyLen <= 0
    ensures r.Key? ==> r.bytes == DK(prf, size, p, s, iter, keyLen) && |r.bytes| == keyLen
  {
    if iter <= 0 || keyLen <= 0 {
      return Panic;
    }
    var numBlocks := (keyLen + size - 1) / size;
    var out: Octets := [];
    for block := 1 to numBlocks + 1
      invariant out == Blocks(prf, size, p, s, iter, block - 1)
    {
      var t := Block(prf, size, p, s, iter, block);
      out := out + t[..];
    }
    BlocksSuffice(keyLen, size);
    r := Key(out[..keyLen]);
  }

  lemma {:induction false} BlocksPrefix(prf: PRF, size: nat, p: Octets, s: Octets, c: nat, m: nat, n: nat)
    requires c > 0 && HasSize(prf, size) && m <= n
    ensures Blocks(prf, size, p, s, c, m) <= Blocks(prf, size, p, s, c, n)
  {
    if m < n {
      BlocksPrefix(prf, size, p, s, c, m, n - 1);
    }
  }

  lemma FactorOrder(x: int, y: int, k: nat)
    requires k > 0 && x * k < y * k
    ensures x < y
  {
  }

  lemma BlockCountGrows(a: nat, b: nat, size: nat)
    requires size > 0 && a <= b
    ensures BlockCount(a, size) <= BlockCount(b, size)
  {
    BlocksSuffice(a, size);
    BlocksSuffice(b, size);
    if a > 0 {
      FactorOrder(BlockCount(a, size) - 1, BlockCount(b, size), size);
    }
  }

  /** A shorter key is a prefix of a longer one. */
  lemma ShorterIsPrefix(prf: PRF, size: nat, p: Octets, s: Octets, c: nat, a: nat, b: nat)
    requires c > 0 && HasSize(prf, size) && a <= b
    ensures DK(prf, size, p, s, c, a) <= DK(prf, size, p, s, c, b)
  {
    BlockCountGrows(a, b, size);
    BlocksPrefix(prf, size, p, s, c, BlockCount(a, size), BlockCount(b, size));
    BlocksSuffice(a, size);
    BlocksSuffice(b, size);
  }

  // The first iterations of a block: the PRF of the salt followed by the block index, then that of
  // the result before, and their XOR.
  lemma FirstIterations(prf: PRF, size: nat, p: Octets, s: Octets, i: nat)
    requires HasSize(prf, size)
    ensures var first := prf(p, s + [i / 0x1000000 % 256, i / 0x10000 % 256, i / 0x100 % 256, i % 256]);
            && F(prf, size, p, s, 1, i) == first
            && F(prf, size, p, s, 2, i) == Xor(first, prf(p, first))
  {
    assert U(prf, p, s, i, 2) == prf(p, U(prf, p, s, i, 1));
  }

  // Octet `j` of the block after the first `b`, which begins at `b * size`.
  lemma {:induction false} BlockOctet(prf: PRF, size: nat, p: Octets, s: Octets, c: nat, n: nat, b: nat, j: nat, at: nat)
    requires c > 0 && HasSize(prf, size) && b < n && j < size && at == b * size + j
    ensures at < n * size && Blocks(prf, size, p, s, c, n)[at] == F(prf, size, p, s, c, b + 1)[j]
  {
    var before := (n - 1) * size;
    assert n * size == before + size;
    var init, last := Blocks(prf, size, p, s, c, n - 1), F(prf, size, p, s, c, n);
    if b == n - 1 {
      assert at == |init| + j;
      assert (init + last)[at] == last[j];
    } else {
      BlockOctet(prf, size, p, s, c, n - 1, b, j, at);
      assert (init + last)[at] == init[at];
    }
  }

  /** Every octet of a derived key: octet `k` is octet `k % size` of block `k / size + 1`. */
  lemma KeyOctet(prf: PRF, size: nat, p: Octets, s: Octets, c: nat, keyLen: nat, k: nat)
    requires c > 0 && HasSize(prf, size) && k < keyLen
    ensures k % size < size && DK(prf, size, p, s, c, keyLen)[k] == F(prf, size, p, s, c, k / size + 1)[k % size]
  {
    var n, b, j := BlockCount(keyLen, size), k / size, k % size;
    BlocksSuffice(keyLen, size);
    assert k == b * size + j;
    assert b * size <= k < n * size;
    FactorOrder(b, n, size);
    BlockOctet(prf, size, p, s, c, n, b, j, k);
  }

  // INT names its block as long as the index fits in four octets, as RFC 8018 demands.
  lemma INTNamesBlock(i: nat)
    requires i < 0x1_0000_0000
    ensures i == 0x1000000 * (INT(i)[0] as int) + 0x10000 * (INT(i)[1] as int) + 0x100 * (INT(i)[2] as int) + INT(i)[3] as int
  {
    var a := i / 256;
    var b := a / 256;
    assert i / 0x10000 == b && i / 0x1000000 == b / 256;
    assert i == 256 * a + i % 256 && a == 256 * b + a % 256 && b == 256 * (b / 256) + b % 256;
    assert b / 256 < 256;
  }
}
