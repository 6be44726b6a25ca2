/** UTF-8 in util.h: code points to bytes and back. */
module Utf8 {
  import opened Bytes
  import opened Common

  // ----- ToUTF8

  /** How many bytes the loop settles on: the first of the six encodings the code point fits. */
  function EncodedLength(u: nat): (n: nat)
    requires u < 0x8000_0000
    ensures 1 <= n <= 6
  {
    if u < 0x80 then 1
    else if u < 0x800 then 2
    else if u < 0x1_0000 then 3
    else if u < 0x20_0000 then 4
    else if u < 0x400_0000 then 5
    else 6
  }

  /** u >> 6 * k. */
  function Shift(u: nat, k: nat): nat {
    if k == 0 then u else Shift(u, k - 1) / 64
  }

  /** The leading ones of the first byte of an n-byte encoding. */
  function LeadMark(n: nat): byte
    requires 1 <= n <= 6
  {
    if n == 1 then 0 else if n == 2 then 0xC0 else if n == 3 then 0xE0 else if n == 4 then 0xF0 else if n == 5 then 0xF8 else 0xFC
  }

  /** The k bytes that follow the first one, six bits each. */
  function Tails(u: nat, k: nat): (s: seq<byte>)
    ensures |s| == k
  {
    if k == 0 then [] else [0x80 + Shift(u, k - 1) % 64] + Tails(u, k - 1)
  }

  lemma LeadFits(u: nat)
    requires u < 0x8000_0000
    ensures var n := EncodedLength(u); LeadMark(n) + Shift(u, n - 1) < 256
    ensures EncodedLength(u) == 2 ==> 2 <= Shift(u, 1) < 32
    ensures EncodedLength(u) == 3 ==> Shift(u, 2) < 16
    ensures EncodedLength(u) == 4 ==> Shift(u, 3) < 8
  {
    var a, b, c, d := Shift(u, 1), Shift(u, 2), Shift(u, 3), Shift(u, 4);
    assert a == u / 64 && b == a / 64 && c == b / 64 && d == c / 64 && Shift(u, 5) == d / 64;
  }

  function ToUTF8(u: nat): (s: seq<byte>)
    requires u < 0x8000_0000
    ensures |s| == EncodedLength(u)
  {
    LeadFits(u);
    var n := EncodedLength(u);
    [LeadMark(n) + Shift(u, n - 1)] + Tails(u, n - 1)
  }

  /** ToUTF8, with its two loops; returns how many bytes were appended to out. */
  method AppendUTF8(u: nat, out: seq<byte>) returns (r: seq<byte>, n: nat)
    requires u < 0x8000_0000
    ensures r == out + ToUTF8(u) && n == |ToUTF8(u)|
  {
    LeadFits(u);
    var limit, i := 0x80, 0;
    FirstLimit();
    hide EncodedLength, Limit, Shift, LeadMark;
    while u >= limit
      invariant i < 6 && limit == Limit(i) && i < EncodedLength(u)
      decreases 6 - i
    {
      NextLimit(u, i);
      i := i + 1;
      limit := Limit(i);
    }
    NextLimit(u, i);
    r := out + [LeadMark(i + 1) + Shift(u, i)];
    var j := i;
    assert r + Tails(u, j) == out + ToUTF8(u);
    while j > 0
      invariant j <= i
      invariant r + Tails(u, j) == out + ToUTF8(u)
    {
      assert r + ([0x80 + Shift(u, j - 1) % 64] + Tails(u, j - 1)) == (r + [0x80 + Shift(u, j - 1) % 64]) + Tails(u, j - 1);
      r := r + [0x80 + Shift(u, j - 1) % 64];
      j := j - 1;
    }
    assert r + Tails(u, 0) == r;
    n := i + 1;
  }

  /** 1 << max_bits, for the i-th encoding. */
  function Limit(i: nat): nat
    requires i < 6
  {
    if i == 0 then 0x80 else if i == 1 then 0x800 else if i == 2 then 0x1_0000 else if i == 3 then 0x20_0000 else if i == 4 then 0x400_0000 else 0x8000_0000
  }

  lemma FirstLimit()
    ensures Limit(0) == 0x80
  {}

  lemma NextLimit(u: nat, i: nat)
    requires u < 0x8000_0000 && i < 6 && i < EncodedLength(u)
    ensures u >= Limit(i) ==> i + 1 < 6 && i + 1 < EncodedLength(u)
    ensures u < Limit(i) ==> EncodedLength(u) == i + 1
  {}

  // ----- FromUTF8

  /** A C string: its last byte, and no other that is looked at, ends it. */
  predicate Terminated(s: seq<byte>) {
    |s| > 0 && s[|s| - 1] == 0
  }

  /** The leading one bits of a byte, of which the loop counts up to six. */
  function LeadingOnes(b: byte): (n: nat)
    ensures n <= 6
  {
    if b < 0x80 then 0
    else if b < 0xC0 then 1
    else if b < 0xE0 then 2
    else if b < 0xF0 then 3
    else if b < 0xF8 then 4
    else if b < 0xFC then 5
    else 6
  }

  /** k continuation bytes, six bits of each shifted into the code. */
  function ReadTails(s: seq<byte>, p: nat, k: nat, code: nat): Option<nat>
    requires Terminated(s) && p < |s|
    decreases k
  {
    if k == 0 then Some(code)
    else if s[p] / 64 != 2 then None
    else ReadTails(s, p + 1, k - 1, 64 * code + s[p] % 64)
  }

  function LowBitsOf(b: byte, n: nat): nat
    requires 2 <= n <= 4
  {
    if n == 2 then b % 32 else if n == 3 then b % 16 else b % 8
  }

  /** The code point range each length may encode, surrogates excluded. */
  predicate InRange(u: nat, n: nat) {
    && !(0xD800 <= u <= 0xDFFF)
    && (n == 2 ==> 0x80 <= u <= 0x7FF)
    && (n == 3 ==> 0x800 <= u <= 0xFFFF)
    && (n == 4 ==> 0x1_0000 <= u <= 0x10_FFFF)
  }

  /** FromUTF8 at a place in a C string: the code point and how many bytes it takes; None is -1. */
  function FromUTF8(s: seq<byte>, at: nat): (r: Option<(nat, nat)>)
    requires Terminated(s) && at < |s|
  {
    var b := s[at];
    var n := LeadingOnes(b);
    if n == 6 && b >= 0xFE then None
    else if n == 0 then Some((b, 1))
    else if n < 2 || n > 4 then None
    else
      match ReadTails(s, at + 1, n - 1, LowBitsOf(b, n))
      case None => None
      case Some(u) => if InRange(u, n) then Some((u, n)) else None
  }

  /** FromUTF8 with its loops: it never reads behind the end of the string, since no continuation byte is zero. */
  method ReadUTF8(s: seq<byte>, at: nat) returns (r: Option<(nat, nat)>)
    requires Terminated(s) && at < |s|
    ensures r == FromUTF8(s, at)
  {
    var b := s[at];
    var n := CountOnes(b);
    if n == 6 && b >= 0xFE {
      return None;
    }
    if n == 0 {
      return Some((b, 1));
    }
    if n < 2 || n > 4 {
      return None;
    }
    var code: nat := LowBitsOf(b, n);
    var p := at + 1;
    var i := 0;
    ghost var all := ReadTails(s, p, n - 1, code);
    while i < n - 1
      invariant i <= n - 1 && p == at + 1 + i < |s|
      invariant all == ReadTails(s, p, n - 1 - i, code)
    {
      if s[p] / 64 != 2 {
        return None;
      }
      code := 64 * code + s[p] % 64;
      p := p + 1;
      i := i + 1;
    }
    r := if InRange(code, n) then Some((code, n)) else None;
  }

  /** The mask of the n-th bit from the top. */
  function Mask(n: nat): (m: nat)
    requires n <= 6
    ensures m > 0
  {
    if n == 0 then 0x80 else if n == 1 then 0x40 else if n == 2 then 0x20 else if n == 3 then 0x10 else if n == 4 then 8 else if n == 5 then 4 else 2
  }

  lemma NextBit(b: byte, n: nat)
    requires n <= 5 && n <= LeadingOnes(b)
    ensures b / Mask(n) % 2 == 0 <==> LeadingOnes(b) == n
    ensures Mask(n) / 2 == Mask(n + 1) && (Mask(n + 1) >= 4 <==> n < 5)
  {}

  /** The mask loop: bits 7 to 2, from the top, as long as they are set. */
  method CountOnes(b: byte) returns (n: nat)
    ensures n == LeadingOnes(b)
  {
    n := 0;
    var mask := 0x80;
    assert Mask(0) == 0x80;
    hide LeadingOnes, Mask;
    while mask >= 0x04
      invariant n <= 6 && mask == Mask(n) && n <= LeadingOnes(b)
      invariant mask >= 0x04 <==> n < 6
      decreases 6 - n
    {
      NextBit(b, n);
      if b / mask % 2 == 0 {
        break;
      }
      n := n + 1;
      mask := mask / 2;
    }
  }

  // ----- the two are inverse

  predicate IsScalarValue(u: nat) {
    u <= 0x10_FFFF && !(0xD800 <= u <= 0xDFFF)
  }

  lemma {:induction false} TailsAreRead(s: seq<byte>, p: nat, k: nat, u: nat)
    requires Terminated(s) && p + k < |s| && s[p..p + k] == Tails(u, k)
    ensures ReadTails(s, p, k, Shift(u, k)) == Some(u)
    decreases k
  {
    if k > 0 {
      assert s[p] == s[p..p + k][0] == 0x80 + Shift(u, k - 1) % 64;
      assert s[p + 1..p + k] == s[p..p + k][1..] == Tails(u, k - 1);
      TailsAreRead(s, p + 1, k - 1, u);
    }
  }

  lemma LeadIsRead(u: nat)
    requires IsScalarValue(u) && EncodedLength(u) > 1
    ensures var n := EncodedLength(u);
      && n <= 4 && LeadMark(n) + Shift(u, n - 1) < 256 && InRange(u, n)
      && LeadingOnes(LeadMark(n) + Shift(u, n - 1)) == n
      && LowBitsOf(LeadMark(n) + Shift(u, n - 1), n) == Shift(u, n - 1)
  {
    LeadFits(u);
  }

  /** A scalar value, encoded anywhere in a string, is read back, together with its length. */
  lemma FromOfTo(s: seq<byte>, at: nat, u: nat)
    requires Terminated(s) && IsScalarValue(u) && at + |ToUTF8(u)| < |s|
    requires s[at..at + |ToUTF8(u)|] == ToUTF8(u)
    ensures FromUTF8(s, at) == Some((u, |ToUTF8(u)|))
  {
    var n := EncodedLength(u);
    var t := ToUTF8(u);
    assert s[at] == t[0] == LeadMark(n) + Shift(u, n - 1);
    assert s[at + 1..at + n] == t[1..] == Tails(u, n - 1);
    if n > 1 {
      TailsAreRead(s, at + 1, n - 1, u);
      LeadIsRead(u);
    }
    hide ReadTails, Tails, Shift, LowBitsOf, ToUTF8;
  }

  lemma {:induction false} ReadIsTails(s: seq<byte>, p: nat, k: nat, code: nat)
    requires Terminated(s) && p < |s| && ReadTails(s, p, k, code).Some?
    ensures var u := ReadTails(s, p, k, code).value;
      p + k < |s| && Shift(u, k) == code && s[p..p + k] == Tails(u, k)
    decreases k
  {
    if k > 0 {
      ReadIsTails(s, p + 1, k - 1, 64 * code + s[p] % 64);
      var u := ReadTails(s, p, k, code).value;
      assert Shift(u, k - 1) == 64 * code + s[p] % 64;
      assert s[p] == 0x80 + s[p] % 64;
      assert s[p..p + k] == [s[p]] + s[p + 1..p + k];
    }
  }

  /** What is read is a scalar value, and the bytes taken are its encoding: no other encoding is accepted. */
  lemma ToOfFrom(s: seq<byte>, at: nat)
    requires Terminated(s) && at < |s| && FromUTF8(s, at).Some?
    ensures var (u, n) := FromUTF8(s, at).value;
      IsScalarValue(u) && at + n <= |s| && s[at..at + n] == ToUTF8(u) && (u > 0 ==> at + n < |s|)
  {
    var (u, n) := FromUTF8(s, at).value;
    var b := s[at];
    if n > 1 {
      var code := LowBitsOf(b, n);
      ReadIsTails(s, at + 1, n - 1, code);
      LengthIsEncoded(u, n);
      LeadOfByte(b);
      hide ReadTails, Tails, Shift, LeadMark, LowBitsOf, LeadingOnes, InRange;
      assert s[at..at + n] == [b] + s[at + 1..at + n];
    } else {
      hide ReadTails, Tails;
      assert s[at..at + 1] == [b];
      assert [b as byte] + [] == [b];
    }
  }

  lemma LeadOfByte(b: byte)
    requires 2 <= LeadingOnes(b) <= 4
    ensures b == LeadMark(LeadingOnes(b)) + LowBitsOf(b, LeadingOnes(b))
  {}

  lemma LengthIsEncoded(u: nat, n: nat)
    requires InRange(u, n) && 2 <= n <= 4
    ensures IsScalarValue(u) && EncodedLength(u) == n
  {}

  // ----- the syntax of RFC 3629

  predicate IsTail(b: byte) {
    0x80 <= b <= 0xBF
  }

  /** Section 4 of RFC 3629: UTF8-char. */
  predicate IsUTF8Char(t: seq<byte>) {
    match |t|
    case 1 => t[0] <= 0x7F
    case 2 => 0xC2 <= t[0] <= 0xDF && IsTail(t[1])
    case 3 =>
      && IsTail(t[1]) && IsTail(t[2])
      && ((t[0] == 0xE0 && 0xA0 <= t[1]) || 0xE1 <= t[0] <= 0xEC || (t[0] == 0xED && t[1] <= 0x9F) || 0xEE <= t[0] <= 0xEF)
    case 4 =>
      && IsTail(t[1]) && IsTail(t[2]) && IsTail(t[3])
      && ((t[0] == 0xF0 && 0x90 <= t[1]) || 0xF1 <= t[0] <= 0xF3 || (t[0] == 0xF4 && t[1] <= 0x8F))
    case _ => false
  }

  /** FromUTF8 accepts exactly the sequences that RFC 3629 calls characters. */
  lemma AcceptsExactlyCharacters(s: seq<byte>, at: nat, n: nat)
    requires Terminated(s) && at < |s| && at + n <= |s|
    ensures FromUTF8(s, at).Some? && FromUTF8(s, at).value.1 == n <==> IsUTF8Char(s[at..at + n])
  {
    var t := s[at..at + n];
    assert forall i :: 0 <= i < n ==> t[i] == s[at + i];
    if n == 2 && s[at] / 32 == 6 {
      TwoBytes(s, at);
    } else if n == 3 && s[at] / 16 == 14 {
      ThreeBytes(s, at);
    } else if n == 4 && s[at] / 8 == 30 {
      FourBytes(s, at);
    } else if FromUTF8(s, at).Some? && FromUTF8(s, at).value.1 == n {
      assert n == 1;
    }
  }

  lemma TwoBytes(s: seq<byte>, at: nat)
    requires Terminated(s) && at + 2 <= |s| && s[at] / 32 == 6
    ensures FromUTF8(s, at).Some? <==> 0xC2 <= s[at] && IsTail(s[at + 1])
    ensures FromUTF8(s, at).Some? ==> FromUTF8(s, at).value.1 == 2
  {
    if IsTail(s[at + 1]) {
      var code: nat := 64 * (s[at] as nat % 32) + s[at + 1] % 64;
      assert ReadTails(s, at + 2, 0, code) == Some(code);
      assert ReadTails(s, at + 1, 1, s[at] % 32) == Some(code);
    }
  }

  lemma ThreeBytes(s: seq<byte>, at: nat)
    requires Terminated(s) && at + 3 <= |s| && s[at] / 16 == 14
    ensures FromUTF8(s, at).Some? ==> FromUTF8(s, at).value.1 == 3
    ensures FromUTF8(s, at).Some? <==>
      && IsTail(s[at + 1]) && IsTail(s[at + 2])
      && (s[at] == 0xE0 ==> 0xA0 <= s[at + 1]) && (s[at] == 0xED ==> s[at + 1] <= 0x9F)
  {
    if IsTail(s[at + 1]) && IsTail(s[at + 2]) {
      var c1: nat := 64 * (s[at] as nat % 16) + s[at + 1] % 64;
      var c2: nat := 64 * c1 + s[at + 2] % 64;
      assert ReadTails(s, at + 3, 0, c2) == Some(c2);
      assert ReadTails(s, at + 2, 1, c1) == Some(c2);
      assert ReadTails(s, at + 1, 2, s[at] % 16) == Some(c2);
    }
  }

  lemma FourBytes(s: seq<byte>, at: nat)
    requires Terminated(s) && at + 4 <= |s| && s[at] / 8 == 30
    ensures FromUTF8(s, at).Some? ==> FromUTF8(s, at).value.1 == 4
    ensures FromUTF8(s, at).Some? <==>
      && IsTail(s[at + 1]) && IsTail(s[at + 2]) && IsTail(s[at + 3])
      && (s[at] == 0xF0 ==> 0x90 <= s[at + 1]) && s[at] <= 0xF4 && (s[at] == 0xF4 ==> s[at + 1] <= 0x8F)
  {
    if IsTail(s[at + 1]) && IsTail(s[at + 2]) && IsTail(s[at + 3]) {
      var c1: nat := 64 * (s[at] as nat % 8) + s[at + 1] % 64;
      var c2: nat := 64 * c1 + s[at + 2] % 64;
      var c3: nat := 64 * c2 + s[at + 3] % 64;
      assert ReadTails(s, at + 4, 0, c3) == Some(c3);
      assert ReadTails(s, at + 3, 1, c2) == Some(c3);
      assert ReadTails(s, at + 2, 2, c1) == Some(c3);
      assert ReadTails(s, at + 1, 3, s[at] % 8) == Some(c3);
    }
  }
}
