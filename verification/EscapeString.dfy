/** EscapeString: text to a JSON string literal, and the literal read back as RFC 8259 says. */
module EscapeString {
  import opened Bytes
  import opened Common
  import opened Utf8

  // ----- what EscapeString writes

  const QUOTE: byte := 0x22
  const BACKSLASH: byte := 0x5C

  function HexDigit(d: nat): byte
    requires d < 16
  {
    if d < 10 then 0x30 + d else 0x41 + d - 10
  }

  /** IntToStringHex(i, 4) of a number with at most four hexadecimal digits. */
  function Hex4(i: nat): (s: seq<byte>)
    requires i < 0x1_0000
    ensures |s| == 4
  {
    [HexDigit(i / 0x1000), HexDigit(i / 0x100 % 16), HexDigit(i / 16 % 16), HexDigit(i % 16)]
  }

  function Hex2(i: nat): (s: seq<byte>)
    requires i < 0x100
    ensures |s| == 2
  {
    [HexDigit(i / 16), HexDigit(i % 16)]
  }

  /** The letter of a two-character escape. */
  function ShortEscape(c: byte): Option<byte> {
    if c == 0x0A then Some(0x6E)
    else if c == 0x09 then Some(0x74)
    else if c == 0x0D then Some(0x72)
    else if c == 0x08 then Some(0x62)
    else if c == 0x0C then Some(0x66)
    else if c == QUOTE then Some(QUOTE)
    else if c == BACKSLASH then Some(BACKSLASH)
    else None
  }

  function UnicodeEscape(i: nat): seq<byte>
    requires i < 0x1_0000
  {
    [BACKSLASH, 0x75] + Hex4(i)
  }

  /** One code point as \u escapes: a surrogate pair above 0xFFFF. */
  function EscapedCodePoint(u: nat): seq<byte>
    requires u <= 0x10_FFFF
  {
    if u <= 0xFFFF then UnicodeEscape(u)
    else
      var base := u - 0x1_0000;
      UnicodeEscape(base / 0x400 + 0xD800) + UnicodeEscape(base % 0x400 + 0xDC00)
  }

  predicate IsPrintable(c: byte) {
    0x20 <= c <= 0x7E
  }

  /** What the loop appends at a place, and how far it moves; None where the function gives up. */
  function EscapeStep(s: seq<byte>, i: nat, allowNonUtf8: bool, natural: bool): (r: Option<(seq<byte>, nat)>)
    requires Terminated(s) && i < |s|
    ensures r.Some? ==> r.value.1 > 0
  {
    var c := s[i];
    if ShortEscape(c).Some? then Some(([BACKSLASH, ShortEscape(c).value], 1))
    else if IsPrintable(c) then Some(([c], 1))
    else
      match FromUTF8(s, i)
      case None => if allowNonUtf8 then Some(([BACKSLASH, 0x78] + Hex2(c), 1)) else None
      case Some((u, n)) =>
        ToOfFrom(s, i);
        if natural then Some((s[i..i + n], n)) else Some((EscapedCodePoint(u), n))
  }

  /** The text from a place to the closing quote; length is that of the text before its terminator. */
  function EscapeFrom(s: seq<byte>, i: nat, length: nat, allowNonUtf8: bool, natural: bool): Option<seq<byte>>
    requires Terminated(s) && length < |s|
    decreases if i < length then length - i else 0
  {
    if i >= length then Some([QUOTE])
    else
      match EscapeStep(s, i, allowNonUtf8, natural)
      case None => None
      case Some((out, n)) =>
        match EscapeFrom(s, i + n, length, allowNonUtf8, natural)
        case None => None
        case Some(rest) => Some(out + rest)
  }

  /** EscapeString of the C string s: false is None. */
  function Escaped(s: seq<byte>, allowNonUtf8: bool, natural: bool): Option<seq<byte>>
    requires Terminated(s)
  {
    match EscapeFrom(s, 0, |s| - 1, allowNonUtf8, natural)
    case None => None
    case Some(rest) => Some([QUOTE] + rest)
  }

  /** EscapeString, as its loop appends to text. */
  method EscapeText(s: seq<byte>, allowNonUtf8: bool, natural: bool) returns (ok: bool, text: seq<byte>)
    requires Terminated(s) && |s| - 1 < 0x1_0000_0000
    ensures ok <==> Escaped(s, allowNonUtf8, natural).Some?
    ensures ok ==> Escaped(s, allowNonUtf8, natural) == Some(text)
  {
    hide EscapeStep;
    text := [QUOTE];
    var length := |s| - 1;
    var i := 0;
    ghost var all := Escaped(s, allowNonUtf8, natural);
    while i < length
      invariant match EscapeFrom(s, i, length, allowNonUtf8, natural) {
                  case None => all == None
                  case Some(rest) => all == Some(text + rest) }
      decreases length - i
    {
      match EscapeStep(s, i, allowNonUtf8, natural)
      case None =>
        return false, text;
      case Some((out, n)) =>
        ghost var rest := EscapeFrom(s, i + n, length, allowNonUtf8, natural);
        assert rest.Some? ==> text + (out + rest.value) == (text + out) + rest.value;
        text := text + out;
        i := i + n;
    }
    text := text + [QUOTE];
    ok := true;
  }

  // ----- reading a JSON string, section 7 of RFC 8259

  function HexValue(c: byte): Option<nat> {
    if 0x30 <= c <= 0x39 then Some(c - 0x30)
    else if 0x41 <= c <= 0x46 then Some(c - 0x41 + 10)
    else if 0x61 <= c <= 0x66 then Some(c - 0x61 + 10)
    else None
  }

  /** The four hexadecimal digits at a place. */
  function ReadHex4(t: seq<byte>, p: nat): Option<nat> {
    if p + 4 > |t| || HexValue(t[p]).None? || HexValue(t[p + 1]).None? || HexValue(t[p + 2]).None? || HexValue(t[p + 3]).None? then None
    else Some(0x1000 * HexValue(t[p]).value + 0x100 * HexValue(t[p + 1]).value + 16 * HexValue(t[p + 2]).value + HexValue(t[p + 3]).value)
  }

  /** A \u escape: a UTF-16 code unit, and two of them when the first is a high surrogate. */
  function ReadUnicode(t: seq<byte>, p: nat): Option<(nat, nat)> {
    match ReadHex4(t, p)
    case None => None
    case Some(u) =>
      if !(0xD800 <= u <= 0xDFFF) then Some((u, 4))
      else if u <= 0xDBFF && p + 6 <= |t| && t[p + 4] == BACKSLASH && t[p + 5] == 0x75 then
        match ReadHex4(t, p + 6)
        case Some(low) => if 0xDC00 <= low <= 0xDFFF then Some((0x1_0000 + 0x400 * (u - 0xD800) + (low - 0xDC00), 10)) else None
        case None => None
      else None
  }

  /** What the letter after a backslash stands for. */
  function ReadShort(c: byte): Option<nat> {
    if c == QUOTE then Some(0x22)
    else if c == BACKSLASH then Some(0x5C)
    else if c == 0x2F then Some(0x2F)
    else if c == 0x62 then Some(0x08)
    else if c == 0x66 then Some(0x0C)
    else if c == 0x6E then Some(0x0A)
    else if c == 0x72 then Some(0x0D)
    else if c == 0x74 then Some(0x09)
    else None
  }

  /** The code points of a string literal whose opening quote was read; raw bytes above 0x1F are UTF-8. */
  function ReadString(t: seq<byte>, p: nat): Option<seq<nat>>
    decreases if p < |t| then |t| - p else 0
  {
    if p >= |t| then None
    else if t[p] == QUOTE then if p + 1 == |t| then Some([]) else None
    else
      match ReadChar(t, p)
      case None => None
      case Some((u, n)) =>
        match ReadString(t, p + n)
        case None => None
        case Some(rest) => Some([u] + rest)
  }

  /** One character of a string literal, and how many bytes it takes. */
  function ReadChar(t: seq<byte>, p: nat): (r: Option<(nat, nat)>)
    requires p < |t|
    ensures r.Some? ==> r.value.1 > 0
  {
    if t[p] < 0x20 then None
    else if t[p] != BACKSLASH then FromUTF8(t + [0], p)
    else if p + 1 >= |t| then None
    else if t[p + 1] == 0x75 then
      match ReadUnicode(t, p + 2)
      case None => None
      case Some((u, n)) => Some((u, n + 2))
    else
      match ReadShort(t[p + 1])
      case None => None
      case Some(u) => Some((u, 2))
  }

  /** A whole literal. */
  function ReadLiteral(t: seq<byte>): Option<seq<nat>> {
    if t == [] || t[0] != QUOTE then None else ReadString(t, 1)
  }

  // ----- what was escaped is what is read

  /** The code points of the text of a C string, when it is well-formed UTF-8. */
  function CodePoints(s: seq<byte>, i: nat, length: nat): Option<seq<nat>>
    requires Terminated(s) && length < |s|
    decreases if i < length then length - i else 0
  {
    if i >= length then Some([])
    else
      match FromUTF8(s, i)
      case None => None
      case Some((u, n)) =>
        match CodePoints(s, i + n, length)
        case None => None
        case Some(rest) => Some([u] + rest)
  }

  /** The scalar values written one after the other, as section 3 of RFC 3629 says. */
  function Encoding(us: seq<nat>): seq<byte>
    requires forall u :: u in us ==> IsScalarValue(u)
  {
    if us == [] then []
    else
      assert IsScalarValue(us[0]);
      ToUTF8(us[0]) + Encoding(us[1..])
  }

  /** Decoding is the inverse of encoding: a text has code points exactly when it is their encoding. */
  lemma CodePointsAreEncoded(s: seq<byte>, us: seq<nat>)
    requires Terminated(s)
    ensures CodePoints(s, 0, |s| - 1) == Some(us) <==> (forall u :: u in us ==> IsScalarValue(u)) && s[..|s| - 1] == Encoding(us)
  {
    hide CodePoints, Encoding;
    assert s[..|s| - 1] == s[0..|s| - 1];
    if CodePoints(s, 0, |s| - 1) == Some(us) {
      DecodedIsEncoding(s, 0);
    } else if (forall u :: u in us ==> IsScalarValue(u)) && s[..|s| - 1] == Encoding(us) {
      EncodingIsDecoded(s, 0, us);
    }
  }

  lemma {:induction false} DecodedIsEncoding(s: seq<byte>, i: nat)
    requires Terminated(s) && i <= |s| - 1 && CodePoints(s, i, |s| - 1).Some?
    ensures var us := CodePoints(s, i, |s| - 1).value;
      (forall u :: u in us ==> IsScalarValue(u)) && s[i..|s| - 1] == Encoding(us)
    decreases |s| - i
  {
    hide FromUTF8, ToUTF8;
    if i < |s| - 1 {
      var (u, n) := FromUTF8(s, i).value;
      CharacterInside(s, i);
      DecodedIsEncoding(s, i + n);
      var rest := CodePoints(s, i + n, |s| - 1).value;
      assert ([u] + rest)[1..] == rest;
      assert s[i..|s| - 1] == s[i..i + n] + s[i + n..|s| - 1];
    }
  }

  /** No character reaches over the terminator. */
  lemma CharacterInside(s: seq<byte>, i: nat)
    requires Terminated(s) && i < |s| - 1 && FromUTF8(s, i).Some?
    ensures var (u, n) := FromUTF8(s, i).value;
      IsScalarValue(u) && n > 0 && i + n <= |s| - 1 && s[i..i + n] == ToUTF8(u) && n == |ToUTF8(u)|
  {
    ToOfFrom(s, i);
  }

  lemma {:induction false} EncodingIsDecoded(s: seq<byte>, i: nat, us: seq<nat>)
    requires Terminated(s) && i <= |s| - 1
    requires (forall u :: u in us ==> IsScalarValue(u)) && s[i..|s| - 1] == Encoding(us)
    ensures CodePoints(s, i, |s| - 1) == Some(us)
    decreases |us|
  {
    hide FromUTF8, ToUTF8;
    if us != [] {
      assert us[0] in us;
      var n, text := |ToUTF8(us[0])|, s[i..|s| - 1];
      assert text[..n] == ToUTF8(us[0]) && text[n..] == Encoding(us[1..]);
      assert s[i..i + n] == text[..n] && s[i + n..|s| - 1] == text[n..];
      FromOfTo(s, i, us[0]);
      EncodingIsDecoded(s, i + n, us[1..]);
      assert [us[0]] + us[1..] == us;
    }
  }

  lemma HexDigitRead(d: nat)
    requires d < 16
    ensures HexValue(HexDigit(d)) == Some(d)
  {}

  lemma Hex4Digits(u: nat)
    requires u < 0x1_0000
    ensures u / 0x1000 < 16
    ensures 0x1000 * (u / 0x1000) + 0x100 * (u / 0x100 % 16) + 16 * (u / 16 % 16) + u % 16 == u
  {
    var a, b, c := u / 16, u / 0x100, u / 0x1000;
    assert u == 16 * a + u % 16 && a == 16 * b + a % 16 && b == 16 * c + b % 16;
  }

  lemma Hex4Read(t: seq<byte>, p: nat, u: nat)
    requires u < 0x1_0000 && p + 4 <= |t| && t[p..p + 4] == Hex4(u)
    ensures ReadHex4(t, p) == Some(u)
  {
    hide HexDigit, HexValue;
    Hex4Digits(u);
    HexDigitRead(u / 0x1000);
    HexDigitRead(u / 0x100 % 16);
    HexDigitRead(u / 16 % 16);
    HexDigitRead(u % 16);
    assert t[p..p + 4][0] == t[p] && t[p..p + 4][1] == t[p + 1] && t[p..p + 4][2] == t[p + 2] && t[p..p + 4][3] == t[p + 3];
  }

  /** Where the digits of a surrogate pair stand. */
  lemma PairParts(t: seq<byte>, p: nat, high: nat, low: nat)
    requires high < 0x1_0000 && low < 0x1_0000 && p + 12 <= |t| && t[p..p + 12] == UnicodeEscape(high) + UnicodeEscape(low)
    ensures t[p + 2..p + 6] == Hex4(high) && t[p + 8..p + 12] == Hex4(low)
    ensures t[p + 6] == BACKSLASH && t[p + 7] == 0x75
  {
    hide Hex4;
    var e := t[p..p + 12];
    assert e[2..6] == Hex4(high) && e[8..12] == Hex4(low) && e[6] == BACKSLASH && e[7] == 0x75;
    SubSlice(t, p, 12, 2, 6);
    SubSlice(t, p, 12, 8, 12);
    assert e[6] == t[p + 6] && e[7] == t[p + 7];
  }

  lemma SubSlice(t: seq<byte>, p: nat, n: nat, i: nat, k: nat)
    requires i <= k <= n && p + n <= |t|
    ensures t[p..p + n][i..k] == t[p + i..p + k]
  {
    var part := t[p..p + n][i..k];
    assert forall j :: 0 <= j < k - i ==> part[j] == t[p + i + j] == t[p + i..p + k][j];
  }

  /** A scalar value escaped with \u, as a pair where need be, is read back. */
  lemma EscapeRead(t: seq<byte>, p: nat, u: nat)
    requires IsScalarValue(u) && p + |EscapedCodePoint(u)| <= |t| && t[p..p + |EscapedCodePoint(u)|] == EscapedCodePoint(u)
    ensures ReadChar(t, p) == Some((u, |EscapedCodePoint(u)|))
  {
    hide Hex4, ReadHex4, FromUTF8;
    var e := EscapedCodePoint(u);
    assert t[p] == e[0] && t[p + 1] == e[1];
    if u <= 0xFFFF {
      SubSlice(t, p, 6, 2, 6);
      assert e[2..6] == Hex4(u);
      Hex4Read(t, p + 2, u);
    } else {
      var base := u - 0x1_0000;
      var high, low := base / 0x400 + 0xD800, base % 0x400 + 0xDC00;
      PairParts(t, p, high, low);
      Hex4Read(t, p + 2, high);
      Hex4Read(t, p + 8, low);
    }
  }

  /** A character that stands for itself: its UTF-8 bytes, when it is no control character, quote or backslash. */
  lemma RawRead(t: seq<byte>, p: nat, u: nat)
    requires IsScalarValue(u) && u >= 0x20 && u != 0x22 && u != 0x5C
    requires p + |ToUTF8(u)| <= |t| && t[p..p + |ToUTF8(u)|] == ToUTF8(u)
    ensures t[p] != QUOTE && ReadChar(t, p) == Some((u, |ToUTF8(u)|))
  {
    FirstByte(u);
    hide FromUTF8, ToUTF8;
    var n := |ToUTF8(u)|;
    assert t[p] == ToUTF8(u)[0];
    assert (t + [0])[p..p + n] == t[p..p + n];
    FromOfTo(t + [0], p, u);
  }

  lemma FirstByte(u: nat)
    requires IsScalarValue(u)
    ensures u < 0x80 ==> ToUTF8(u) == [u]
    ensures u >= 0x80 ==> ToUTF8(u)[0] >= 0x80
  {
    LeadFits(u);
  }

  /** A control character besides backspace, tab, line feed, form feed and carriage return: natural text leaves it as it is, which JSON does not allow. */
  predicate IsBareControl(c: byte) {
    c < 0x20 && c !in {0x08, 0x09, 0x0A, 0x0C, 0x0D}
  }

  predicate NoBareControl(s: seq<byte>, i: nat, length: nat)
    requires length < |s|
  {
    forall j :: i <= j < length ==> !IsBareControl(s[j])
  }

  /** A byte below 0x80 stands for itself, and every other begins a larger code point. */
  lemma ByteOfCodePoint(s: seq<byte>, i: nat)
    requires Terminated(s) && i < |s| && FromUTF8(s, i).Some?
    ensures var (u, n) := FromUTF8(s, i).value;
      && IsScalarValue(u) && n == |ToUTF8(u)| && i + n <= |s| && s[i..i + n] == ToUTF8(u)
      && (if s[i] < 0x80 then u == s[i] as nat && n == 1 else u >= 0x80)
  {
    var (u, n) := FromUTF8(s, i).value;
    ToOfFrom(s, i);
    FirstByte(u);
    hide FromUTF8, ToUTF8;
    assert s[i..i + n][0] == s[i];
  }

  /** What one step appends is read as the code point that was there, except a bare control character in natural text. */
  lemma StepRead(s: seq<byte>, i: nat, natural: bool, t: seq<byte>, p: nat)
    requires Terminated(s) && i < |s| && FromUTF8(s, i).Some? && EscapeStep(s, i, false, natural).Some?
    requires var (out, n) := EscapeStep(s, i, false, natural).value; p + |out| <= |t| && t[p..p + |out|] == out
    ensures var (u, n) := FromUTF8(s, i).value; var (out, m) := EscapeStep(s, i, false, natural).value;
      && m == n && p < |t| && t[p] != QUOTE
      && ReadChar(t, p) == if natural && IsBareControl(s[i]) then None else Some((u, |out|))
  {
    var (u, n) := FromUTF8(s, i).value;
    var (out, m) := EscapeStep(s, i, false, natural).value;
    ByteOfCodePoint(s, i);
    var c := s[i];
    hide FromUTF8, ToUTF8, EscapedCodePoint, ReadString;
    if ShortEscape(c).Some? {
      assert t[p] == out[0] && t[p + 1] == out[1];
    } else if IsPrintable(c) {
      FirstByte(u);
      RawRead(t, p, u);
    } else if natural {
      if u < 0x20 {
        FirstByte(u);
        assert t[p] == out[0] == s[i..i + n][0] == c;
      } else {
        RawRead(t, p, u);
      }
    } else {
      EscapeFirstByte(u);
      assert t[p] == out[0];
      EscapeRead(t, p, u);
    }
  }

  lemma EscapeFirstByte(u: nat)
    requires u <= 0x10_FFFF
    ensures |EscapedCodePoint(u)| > 0 && EscapedCodePoint(u)[0] == BACKSLASH
  {}

  /** A multi-byte character has no control characters among its bytes. */
  lemma ControlsStepOver(s: seq<byte>, i: nat, length: nat)
    requires Terminated(s) && i < length < |s| && FromUTF8(s, i).Some?
    ensures var n := FromUTF8(s, i).value.1;
      NoBareControl(s, i, length) <==> !IsBareControl(s[i]) && NoBareControl(s, i + n, length)
  {
    var (u, n) := FromUTF8(s, i).value;
    ToOfFrom(s, i);
    AcceptsExactlyCharacters(s, i, n);
    hide FromUTF8, ToUTF8;
    forall j | i < j < i + n
      ensures s[j] >= 0x80
    {
      assert s[j] == s[i..i + n][j - i];
    }
  }

  /** The heart of it: from any place in the text, what is written is read back to the code points from there on. */
  lemma {:induction false} TextRead(s: seq<byte>, i: nat, natural: bool, pre: seq<byte>)
    requires Terminated(s) && CodePoints(s, i, |s| - 1).Some?
    ensures EscapeFrom(s, i, |s| - 1, false, natural).Some?
    ensures var t := pre + EscapeFrom(s, i, |s| - 1, false, natural).value;
      ReadString(t, |pre|) == if natural && !NoBareControl(s, i, |s| - 1) then None else CodePoints(s, i, |s| - 1)
    decreases if i < |s| then |s| - i else 0
  {
    hide EscapeStep, FromUTF8, ReadChar, NoBareControl, ReadString, EscapeFrom, CodePoints;
    var length := |s| - 1;
    if i >= length {
      TextEnds(s, i, natural, pre);
    } else {
      FirstStep(s, i, natural);
      var (out, n) := EscapeStep(s, i, false, natural).value;
      TextRead(s, i + n, natural, pre + out);
      var rest := EscapeFrom(s, i + n, length, false, natural).value;
      var t := pre + (out + rest);
      assert t == (pre + out) + rest;
      assert t[|pre|..|pre| + |out|] == out;
      StepRead(s, i, natural, t, |pre|);
      ControlsStepOver(s, i, length);
      ReadStep(t, |pre|);
    }
  }

  lemma TextEnds(s: seq<byte>, i: nat, natural: bool, pre: seq<byte>)
    requires Terminated(s) && i >= |s| - 1
    ensures EscapeFrom(s, i, |s| - 1, false, natural) == Some([QUOTE]) && CodePoints(s, i, |s| - 1) == Some([])
    ensures ReadString(pre + [QUOTE], |pre|) == Some([]) && NoBareControl(s, i, |s| - 1)
  {
    assert (pre + [QUOTE])[|pre|] == QUOTE;
  }

  /** The first step of the loop and of the decoding. */
  lemma FirstStep(s: seq<byte>, i: nat, natural: bool)
    requires Terminated(s) && i < |s| - 1 && CodePoints(s, i, |s| - 1).Some?
    ensures EscapeStep(s, i, false, natural).Some? && FromUTF8(s, i).Some?
    ensures var (out, n) := EscapeStep(s, i, false, natural).value; var (u, m) := FromUTF8(s, i).value; var length := |s| - 1;
      && n == m && CodePoints(s, i + n, length).Some?
      && CodePoints(s, i, length).value == [u] + CodePoints(s, i + n, length).value
      && (EscapeFrom(s, i + n, length, false, natural).Some? ==>
            EscapeFrom(s, i, length, false, natural) == Some(out + EscapeFrom(s, i + n, length, false, natural).value))
  {
    StepAnswers(s, i, natural);
    hide EscapeStep, FromUTF8;
  }

  lemma ReadStep(t: seq<byte>, p: nat)
    requires p < |t| && t[p] != QUOTE
    ensures ReadChar(t, p).None? ==> ReadString(t, p) == None
    ensures ReadChar(t, p).Some? ==>
      var (u, n) := ReadChar(t, p).value;
      ReadString(t, p) == match ReadString(t, p + n) { case None => None case Some(rest) => Some([u] + rest) }
  {
    hide ReadChar;
  }

  lemma StepAnswers(s: seq<byte>, i: nat, natural: bool)
    requires Terminated(s) && i < |s| && FromUTF8(s, i).Some?
    ensures EscapeStep(s, i, false, natural).Some? && EscapeStep(s, i, false, natural).value.1 == FromUTF8(s, i).value.1
  {}

  lemma {:induction false} IllFormedRefused(s: seq<byte>, i: nat, natural: bool)
    requires Terminated(s) && CodePoints(s, i, |s| - 1).None?
    ensures EscapeFrom(s, i, |s| - 1, false, natural).None?
    decreases if i < |s| then |s| - i else 0
  {
    match FromUTF8(s, i)
    case Some((u, n)) =>
      StepAnswers(s, i, natural);
      IllFormedRefused(s, i + n, natural);
    case None =>
      NoAsciiRefused(s, i);
  }

  lemma NoAsciiRefused(s: seq<byte>, i: nat)
    requires Terminated(s) && i < |s| && FromUTF8(s, i).None?
    ensures s[i] >= 0x80
  {}

  /**
   * EscapeString with allow_non_utf8 off succeeds exactly on well-formed UTF-8. Its text then reads back to
   * the original code points, always with natural_utf8 off, and with it on exactly when the text has no
   * control character besides the five with a short escape.
   */
  lemma EscapedReadsBack(s: seq<byte>, natural: bool)
    requires Terminated(s)
    ensures Escaped(s, false, natural).Some? <==> CodePoints(s, 0, |s| - 1).Some?
    ensures CodePoints(s, 0, |s| - 1).Some? ==>
      ReadLiteral(Escaped(s, false, natural).value) ==
      if natural && !NoBareControl(s, 0, |s| - 1) then None else CodePoints(s, 0, |s| - 1)
  {
    hide ReadString, EscapeFrom, CodePoints, NoBareControl;
    if CodePoints(s, 0, |s| - 1).Some? {
      TextRead(s, 0, natural, [QUOTE]);
    } else {
      IllFormedRefused(s, 0, natural);
    }
  }

  /** A text of the single control character 1 is well-formed, and its natural form is no JSON. */
  lemma NaturalControlIsRefused()
    ensures CodePoints([1, 0], 0, 1) == Some([1])
    ensures Escaped([1, 0], false, true).Some? && ReadLiteral(Escaped([1, 0], false, true).value) == None
  {
    var s: seq<byte> := [1, 0];
    FirstByte(1);
    assert s[..1] == [1] == ToUTF8(1) + [];
    assert [1][1..] == [] && Encoding([1]) == ToUTF8(1) + Encoding([1][1..]);
    CodePointsAreEncoded(s, [1]);
    assert IsBareControl(s[0]);
    EscapedReadsBack(s, true);
    hide CodePoints, Escaped, ReadLiteral;
  }

  // ----- character by character

  /**
   * The seven characters with a two-character escape, with natural_utf8 on or off; every other printable
   * character is written as it is.
   */
  lemma PlainCharacters(s: seq<byte>, i: nat, allowNonUtf8: bool, natural: bool)
    requires Terminated(s) && i < |s|
    ensures var c := s[i]; var step := EscapeStep(s, i, allowNonUtf8, natural);
      && (c == 0x22 ==> step == Some(([0x5C, 0x22], 1)))
      && (c == 0x5C ==> step == Some(([0x5C, 0x5C], 1)))
      && (c == 0x08 ==> step == Some(([0x5C, 0x62], 1)))
      && (c == 0x0C ==> step == Some(([0x5C, 0x66], 1)))
      && (c == 0x0A ==> step == Some(([0x5C, 0x6E], 1)))
      && (c == 0x0D ==> step == Some(([0x5C, 0x72], 1)))
      && (c == 0x09 ==> step == Some(([0x5C, 0x74], 1)))
      && (0x20 <= c <= 0x7E && c != 0x22 && c != 0x5C ==> step == Some(([c], 1)))
  {}

  /** 0 to 9 and A to F. */
  const HEX_DIGITS: seq<byte> := [0x30, 0x31, 0x32, 0x33, 0x34, 0x35, 0x36, 0x37, 0x38, 0x39, 0x41, 0x42, 0x43, 0x44, 0x45, 0x46]

  lemma HexDigitIs(d: nat)
    requires d < 16
    ensures HexDigit(d) == HEX_DIGITS[d]
  {}

  /** \u and four digits for a 16-bit number, \x and two for a byte. */
  lemma NumericEscapes(u: nat, c: byte)
    requires u < 0x1_0000
    ensures u / 0x1000 < 16
    ensures UnicodeEscape(u) == [0x5C, 0x75, HEX_DIGITS[u / 0x1000], HEX_DIGITS[u / 0x100 % 16], HEX_DIGITS[u / 16 % 16], HEX_DIGITS[u % 16]]
    ensures Hex2(c) == [HEX_DIGITS[c / 16], HEX_DIGITS[c % 16]]
  {
    Hex4Digits(u);
    HexDigitIs(u / 0x1000);
    HexDigitIs(u / 0x100 % 16);
    HexDigitIs(u / 16 % 16);
    HexDigitIs(u % 16);
    HexDigitIs(c / 16);
    HexDigitIs(c % 16);
    hide HexDigit;
  }

  /**
   * Every other character: where the bytes are well-formed it is copied as it is, or written as \u escapes
   * of its code point; where they are not, one byte is written as \x and two digits, if that is allowed.
   */
  lemma OtherCharacters(s: seq<byte>, i: nat, allowNonUtf8: bool, natural: bool)
    requires Terminated(s) && i < |s|
    requires s[i] > 0x7E || IsBareControl(s[i])
    ensures var step := EscapeStep(s, i, allowNonUtf8, natural);
      match FromUTF8(s, i) {
        case Some((u, n)) =>
          && IsScalarValue(u) && n == |ToUTF8(u)|
          && step == Some((if natural then ToUTF8(u) else if u <= 0xFFFF then UnicodeEscape(u) else SurrogatePair(u), n))
        case None =>
          step == if allowNonUtf8 then Some(([0x5C, 0x78, HEX_DIGITS[s[i] / 16], HEX_DIGITS[s[i] % 16]], 1)) else None
      }
  {
    assert ShortEscape(s[i]).None? && !IsPrintable(s[i]);
    hide FromUTF8, ToUTF8, ShortEscape, IsPrintable, EscapedCodePoint, SurrogatePair, Hex2;
    match FromUTF8(s, i)
    case Some((u, n)) =>
      ByteOfCodePoint(s, i);
      CodePointEscape(u);
    case None =>
      ByteEscape(s[i]);
  }

  lemma ByteEscape(c: byte)
    ensures [BACKSLASH, 0x78] + Hex2(c) == [0x5C, 0x78, HEX_DIGITS[c / 16], HEX_DIGITS[c % 16]]
  {
    NumericEscapes(0, c);
    hide Hex2;
  }

  lemma CodePointEscape(u: nat)
    requires u <= 0x10_FFFF
    ensures EscapedCodePoint(u) == if u <= 0xFFFF then UnicodeEscape(u) else SurrogatePair(u)
  {
    hide UnicodeEscape;
  }

  /** The high and the low surrogate of a code point above 0xFFFF, section 3 of RFC 2781. */
  function SurrogatePair(u: nat): seq<byte>
    requires 0x1_0000 <= u <= 0x10_FFFF
  {
    UnicodeEscape(0xD800 + (u - 0x1_0000) / 0x400) + UnicodeEscape(0xDC00 + (u - 0x1_0000) % 0x400)
  }

  /** With allow_non_utf8 on no text is refused, and well-formed text is written as with it off. */
  lemma {:induction false} NonUtf8Allowed(s: seq<byte>, i: nat, natural: bool)
    requires Terminated(s)
    ensures EscapeFrom(s, i, |s| - 1, true, natural).Some?
    ensures CodePoints(s, i, |s| - 1).Some? ==> EscapeFrom(s, i, |s| - 1, true, natural) == EscapeFrom(s, i, |s| - 1, false, natural)
    decreases if i < |s| then |s| - i else 0
  {
    hide FromUTF8, EscapeStep;
    if i < |s| - 1 {
      StepAllowed(s, i, natural);
      NonUtf8Allowed(s, i + EscapeStep(s, i, true, natural).value.1, natural);
    }
  }

  lemma StepAllowed(s: seq<byte>, i: nat, natural: bool)
    requires Terminated(s) && i < |s|
    ensures EscapeStep(s, i, true, natural).Some?
    ensures FromUTF8(s, i).Some? ==>
      EscapeStep(s, i, true, natural) == EscapeStep(s, i, false, natural) && EscapeStep(s, i, true, natural).value.1 == FromUTF8(s, i).value.1
  {
    hide FromUTF8;
    if FromUTF8(s, i).Some? {
      StepAnswers(s, i, natural);
    }
  }
}
