/** Bytes, Rust's u64 and the little-endian layout Borsh uses for it. */
module Bytes {

  type Byte = b: int | 0 <= b < 256

  const U64_LIMIT: nat := 0x1_0000_0000_0000_0000

  /** Rust's u64. */
  type U64 = x: int | 0 <= x < 0x1_0000_0000_0000_0000

  function Pow256(n: nat): (p: nat)
    ensures p > 0
  {
    if n == 0 then 1 else 256 * Pow256(n - 1)
  }

  /** The number a byte string denotes when its first byte is the least significant. */
  function LeValue(s: seq<Byte>): nat {
    if s == [] then 0 else s[0] + 256 * LeValue(s[1..])
  }

  /** The n lowest little-endian bytes of x. */
  function LeBytes(x: nat, n: nat): (s: seq<Byte>)
    ensures |s| == n
  {
    if n == 0 then [] else [x % 256] + LeBytes(x / 256, n - 1)
  }

  lemma {:induction false} LeValueBound(s: seq<Byte>)
    ensures LeValue(s) < Pow256(|s|)
  {
    if s != [] {
      LeValueBound(s[1..]);
      assert LeValue(s) <= 255 + 256 * (Pow256(|s| - 1) - 1);
    }
  }

  lemma Pow256Of8()
    ensures Pow256(8) == U64_LIMIT
  {
    assert Pow256(2) == 0x1_0000;
    assert Pow256(4) == 0x1_0000_0000 by {
      assert Pow256(3) == 0x100_0000;
    }
    assert Pow256(6) == 0x1_0000_0000_0000 by {
      assert Pow256(5) == 0x100_0000_0000;
    }
    assert Pow256(7) == 0x100_0000_0000_0000;
  }

  /** Decoding the encoding of a number that fits gives the number back. */
  lemma {:induction false} LeValueOfLeBytes(x: nat, n: nat)
    requires x < Pow256(n)
    ensures LeValue(LeBytes(x, n)) == x
  {
    if n > 0 {
      var tail := LeBytes(x / 256, n - 1);
      assert LeBytes(x, n)[1..] == tail;
      LeValueOfLeBytes(x / 256, n - 1);
    }
  }

  /** Encoding the value of a byte string gives the byte string back. */
  lemma {:induction false} LeBytesOfLeValue(s: seq<Byte>)
    ensures LeBytes(LeValue(s), |s|) == s
  {
    if s != [] {
      var v := LeValue(s);
      assert v % 256 == s[0] && v / 256 == LeValue(s[1..]);
      LeBytesOfLeValue(s[1..]);
    }
  }

  /** The u64 stored little-endian in an 8-byte string. */
  function U64Of(s: seq<Byte>): (x: U64)
    requires |s| == 8
    ensures LeBytes(x, 8) == s
  {
    LeValueBound(s);
    Pow256Of8();
    LeBytesOfLeValue(s);
    LeValue(s)
  }

  /** Borsh's 8-byte little-endian layout of a u64. */
  function U64Bytes(x: U64): (s: seq<Byte>)
    ensures |s| == 8 && U64Of(s) == x
  {
    Pow256Of8();
    LeValueOfLeBytes(x, 8);
    LeBytes(x, 8)
  }
}
