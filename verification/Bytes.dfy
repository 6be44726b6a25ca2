/** Bytes and little-endian scalars, as base.h reads and writes them. */
module Bytes {
  type byte = x: int | 0 <= x < 256

  /** The number of values that n bytes can hold. */
  function Pow256(n: nat): (p: nat)
    ensures p > 0
  {
    if n == 0 then 1 else 256 * Pow256(n - 1)
  }

  lemma Pow256Values()
    ensures Pow256(1) == 0x100
    ensures Pow256(2) == 0x1_0000
    ensures Pow256(4) == 0x1_0000_0000
    ensures Pow256(8) == 0x1_0000_0000_0000_0000
  {
    assert Pow256(2) == 256 * Pow256(1);
    assert Pow256(3) == 256 * Pow256(2);
    assert Pow256(4) == 256 * Pow256(3);
    assert Pow256(5) == 256 * Pow256(4);
    assert Pow256(6) == 256 * Pow256(5);
    assert Pow256(7) == 256 * Pow256(6);
    assert Pow256(8) == 256 * Pow256(7);
  }

  /** The low n bytes of v, least significant first: WriteScalar of an n-byte scalar. */
  function Le(v: nat, n: nat): (s: seq<byte>)
    ensures |s| == n
  {
    if n == 0 then [] else [v % 256] + Le(v / 256, n - 1)
  }

  /** The unsigned scalar stored in s: ReadScalar of a |s|-byte scalar. */
  function UnLe(s: seq<byte>): nat {
    if s == [] then 0 else s[0] + 256 * UnLe(s[1..])
  }

  lemma {:induction false} UnLeBound(s: seq<byte>)
    ensures UnLe(s) < Pow256(|s|)
  {
    if s == [] {
    } else {
      UnLeBound(s[1..]);
      assert Pow256(|s|) == 256 * Pow256(|s| - 1);
    }
  }

  lemma {:induction false} LeRoundTrip(v: nat, n: nat)
    requires v < Pow256(n)
    ensures UnLe(Le(v, n)) == v
  {
    if n == 0 {
    } else {
      assert v / 256 < Pow256(n - 1);
      LeRoundTrip(v / 256, n - 1);
      assert Le(v, n)[1..] == Le(v / 256, n - 1);
    }
  }

  lemma {:induction false} UnLeRoundTrip(s: seq<byte>)
    ensures Le(UnLe(s), |s|) == s
  {
    if s == [] {
    } else {
      UnLeRoundTrip(s[1..]);
      assert UnLe(s) % 256 == s[0] && UnLe(s) / 256 == UnLe(s[1..]);
    }
  }

  /** The byte at the highest address counts the most. */
  lemma {:induction false} LastByteCountsMost(s: seq<byte>, b: byte)
    ensures UnLe(s + [b]) == UnLe(s) + Pow256(|s|) * b
  {
    if s == [] {
      assert [] + [b] == [b] && UnLe([b]) == b;
    } else {
      assert (s + [b])[1..] == s[1..] + [b];
      LastByteCountsMost(s[1..], b);
      TimesTwice(Pow256(|s| - 1), b);
    }
  }

  lemma TimesTwice(p: nat, b: nat)
    ensures 256 * (p * b) == (256 * p) * b
  {}

  /** Two's complement: the n-byte unsigned image of a signed scalar. */
  function FromSigned(i: int, n: nat): (u: nat)
    requires -(Pow256(n) as int) <= 2 * i < Pow256(n)
    ensures u < Pow256(n)
  {
    if i < 0 then i + Pow256(n) else i
  }

  /** Two's complement: the signed value of an n-byte unsigned image. */
  function ToSigned(u: nat, n: nat): (i: int)
    requires u < Pow256(n)
    ensures -(Pow256(n) as int) <= 2 * i < Pow256(n)
  {
    if 2 * u < Pow256(n) then u else u - Pow256(n)
  }

  lemma SignedRoundTrip(i: int, n: nat)
    requires n > 0 && -(Pow256(n) as int) <= 2 * i < Pow256(n)
    ensures ToSigned(FromSigned(i, n), n) == i
  {
    assert Pow256(n) % 2 == 0;
  }

  function Zeros(n: nat): (s: seq<byte>)
    ensures |s| == n
  {
    seq(n, i => 0)
  }

  /** The alignments in use: the sizes of the scalar types. */
  predicate IsAlignment(n: nat) {
    n == 1 || n == 2 || n == 4 || n == 8
  }

  /** x & (n - 1), for an alignment n: the low bits of x, which are x modulo n. */
  function LowBits(x: int, n: nat): (r: nat)
    requires IsAlignment(n)
    ensures r < n
  {
    if n == 1 then 0
    else if n == 2 then x % 2
    else if n == 4 then x % 4
    else x % 8
  }

  predicate Aligned(x: int, n: nat)
    requires IsAlignment(n)
  {
    LowBits(x, n) == 0
  }

  lemma AlignedIsMultiple(x: nat, n: nat)
    requires IsAlignment(n)
    ensures Aligned(x, n) <==> x % n == 0
  {}

  /**
   * How far a buffer of bufSize bytes must grow before a scalar of scalarSize bytes is aligned.
   * The source computes ((~bufSize) + 1) & (scalarSize - 1), and ~x + 1 is the negation of a size_t.
   */
  function PaddingBytes(bufSize: nat, scalarSize: nat): (p: nat)
    requires IsAlignment(scalarSize)
    ensures p < scalarSize && Aligned(bufSize + p, scalarSize)
  {
    LowBits(0x1_0000_0000_0000_0000 - bufSize, scalarSize)
  }

  /** What is aligned to a larger power of two is aligned to every smaller one. */
  lemma AlignedWeaken(x: int, big: nat, small: nat)
    requires IsAlignment(big) && IsAlignment(small) && small <= big && Aligned(x, big)
    ensures Aligned(x, small)
  {
    if big == 8 {
      MultipleOf8(x);
    } else if big == 4 {
      MultipleOf4(x);
    }
  }

  lemma MultipleOf8(x: int)
    requires x % 8 == 0
    ensures x % 4 == 0 && x % 2 == 0
  {}

  lemma MultipleOf4(x: int)
    requires x % 4 == 0
    ensures x % 2 == 0
  {
    Twice(x, 2 * (x / 4));
  }

  lemma Twice(x: int, half: int)
    requires x == 2 * half
    ensures x % 2 == 0
  {}

  lemma AlignedDifference(x: int, y: int, n: nat)
    requires IsAlignment(n) && Aligned(x, n) && Aligned(y, n)
    ensures Aligned(x - y, n) && Aligned(x + y, n)
  {
    if n == 2 {
      MultiplesOf2(x, y);
    } else if n == 4 {
      MultiplesOf4(x, y);
    } else if n == 8 {
      MultiplesOf8(x, y);
    }
  }

  lemma AlignedNext(x: int, n: nat)
    requires IsAlignment(n) && Aligned(x, n)
    ensures Aligned(x + n, n)
  {
    assert Aligned(n, n);
    AlignedDifference(x, n, n);
  }

  lemma AlreadyAligned(size: nat, n: nat)
    requires IsAlignment(n) && Aligned(size, n)
    ensures PaddingBytes(size, n) == 0
  {
    hide LowBits;
    var p := PaddingBytes(size, n);
    AlignedDifference(size + p, size, n);
    AlignedSmall(p, n);
  }

  lemma AlignedSmall(p: nat, n: nat)
    requires IsAlignment(n) && p < n && Aligned(p, n)
    ensures p == 0
  {}

  lemma MultiplesOf2(x: int, y: int)
    requires x % 2 == 0 && y % 2 == 0
    ensures (x - y) % 2 == 0 && (x + y) % 2 == 0
  {}

  lemma MultiplesOf4(x: int, y: int)
    requires x % 4 == 0 && y % 4 == 0
    ensures (x - y) % 4 == 0 && (x + y) % 4 == 0
  {}

  lemma MultiplesOf8(x: int, y: int)
    requires x % 8 == 0 && y % 8 == 0
    ensures (x - y) % 8 == 0 && (x + y) % 8 == 0
  {}
}
