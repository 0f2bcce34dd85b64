/**
 * Bytes, fixed-width unsigned integers and the big-endian conversions that
 * the scripts rely on: `ethers.toBeHex` for the authorization fields and the
 * integer form used inside RLP length headers.
 */
module Bytes {

  type Byte = b: int | 0 <= b < 256

  /** A 20-byte account or contract address. */
  type Address = a: seq<Byte> | |a| == 20 witness seq(20, _ => 0)

  const TWO_64: nat := 0x1_0000_0000_0000_0000
  const TWO_256: nat := 0x1_0000_0000_0000_0000_0000_0000_0000_0000_0000_0000_0000_0000_0000_0000_0000_0000

  type Uint64 = n: nat | n < TWO_64
  type Uint256 = n: nat | n < TWO_256

  /** 256 to the power k. */
  function Pow256(k: nat): (r: nat)
    ensures r >= 1
  {
    if k == 0 then 1 else 256 * Pow256(k - 1)
  }

  lemma {:induction false} Pow256Add(a: nat, b: nat)
    ensures Pow256(a + b) == Pow256(a) * Pow256(b)
    decreases a
  {
    if a > 0 { Pow256Add(a - 1, b); }
  }

  /** The value of a big-endian byte string. */
  function FromBigEndian(s: seq<Byte>): nat
  {
    if s == [] then 0 else FromBigEndian(s[..|s| - 1]) * 256 + s[|s| - 1]
  }

  /** No leading zero byte (the empty string is canonical: it stands for zero). */
  predicate Canonical(s: seq<Byte>)
  {
    s == [] || s[0] != 0
  }

  /**
   * The minimal big-endian form of n: the canonical byte string whose value
   * is n. Zero has the empty form.
   */
  function BigEndian(n: nat): (r: seq<Byte>)
    ensures FromBigEndian(r) == n
    ensures Canonical(r)
    ensures |r| == 0 <==> n == 0
    decreases n
  {
    if n == 0 then [] else
      var front := BigEndian(n / 256);
      var r := front + [n % 256];
      assert r[..|r| - 1] == front;
      r
  }

  /** A canonical string is determined by its value: BigEndian is its only form. */
  lemma {:induction false} CanonicalUnique(s: seq<Byte>)
    requires Canonical(s)
    ensures s == BigEndian(FromBigEndian(s))
    decreases |s|
  {
    if s != [] {
      var front, last := s[..|s| - 1], s[|s| - 1];
      assert Canonical(front) by {
        if front != [] { assert front[0] == s[0]; }
      }
      CanonicalUnique(front);
      var n := FromBigEndian(s);
      assert n / 256 == FromBigEndian(front) && n % 256 == last;
      assert s == front + [last];
    }
  }

  /** Two numbers with the same big-endian form are equal, and conversely. */
  lemma BigEndianInjective(m: nat, n: nat)
    ensures BigEndian(m) == BigEndian(n) <==> m == n
  {
  }

  /** The form of n fits in k bytes exactly when n < 256^k. */
  lemma {:induction false} BigEndianFits(n: nat, k: nat)
    ensures |BigEndian(n)| <= k <==> n < Pow256(k)
    decreases k
  {
    if k > 0 && n > 0 {
      BigEndianFits(n / 256, k - 1);
      assert n / 256 < Pow256(k - 1) <==> n < 256 * Pow256(k - 1);
    } else if k == 0 {
      assert |BigEndian(n)| <= 0 <==> n == 0;
    }
  }

  /** Every length below 2^64 has a form of at most eight bytes. */
  lemma LengthOfLength(n: nat)
    requires n < TWO_64
    ensures 1 <= |BigEndian(n)| + 1 <= 9
    ensures n > 0 ==> 1 <= |BigEndian(n)| <= 8
  {
    assert Pow256(8) == TWO_64;
    BigEndianFits(n, 8);
  }

  /** Every 256-bit integer has a form of at most 32 bytes. */
  lemma Uint256Width(n: Uint256)
    ensures |BigEndian(n)| <= 32
  {
    var p8 := Pow256(8);
    assert p8 == TWO_64;
    Pow256Add(8, 8);
    var p16 := Pow256(16);
    assert p16 == TWO_64 * TWO_64;
    Pow256Add(16, 16);
    assert Pow256(32) == p16 * p16;
    BigEndianFits(n, 32);
  }

  /**
   * `ethers.toBeHex(n)` without a width: the hexadecimal digits of n padded
   * to an even count, so zero becomes the single byte 0x00 rather than the
   * empty string.
   */
  function ToBeHex(n: nat): (r: seq<Byte>)
    ensures FromBigEndian(r) == n
    ensures |r| >= 1
    ensures n > 0 ==> Canonical(r)
    ensures n == 0 ==> r == [0]
  {
    if n == 0 then [0] else BigEndian(n)
  }

  /** For every positive number toBeHex is the minimal big-endian form. */
  lemma ToBeHexPositive(n: nat)
    requires n > 0
    ensures ToBeHex(n) == BigEndian(n)
  {
  }
}
