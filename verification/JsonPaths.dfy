/** Exactly which texts are JSON Pointers and which tokens are indices, and the exceptions for those that are not. */
module JsonPaths {
  import opened Json
  import opened JsonEscape
  import opened JsonPointer

  // ----- escaping, character by character

  /** A tilde becomes ~0 and a slash ~1; every other character stays. */
  lemma EscapedCharacter(c: char, rest: string)
    ensures Escape("") == ""
    ensures Escape([c] + rest) == (if c == '~' then "~0" else if c == '/' then "~1" else [c]) + Escape(rest)
  {
    EscapeHead(c, rest);
    EmptyReplaced("~", "~0");
    EmptyReplaced("/", "~1");
  }

  // ----- parsing is the inverse of printing

  lemma {:induction false} PointerStringHead(token: string, tokens: seq<string>)
    ensures PointerString([token] + tokens) == "/" + Escape(token) + PointerString(tokens)
    decreases |tokens|
  {
    hide Escape;
    var whole := [token] + tokens;
    if tokens == [] {
      assert whole == [token] && [token][..0] == [];
      assert PointerString([token]) == PointerString([token][..0]) + "/" + Escape(token);
    } else {
      var n := |tokens| - 1;
      assert whole[..n + 1] == [token] + tokens[..n];
      PointerStringHead(token, tokens[..n]);
    }
  }

  /** Where the first slash is. */
  function SlashAt(s: string): (k: nat)
    ensures k <= |s| && (forall i :: 0 <= i < k ==> s[i] != '/') && (k < |s| ==> s[k] == '/')
  {
    if s == "" || s[0] == '/' then 0
    else
      var k := 1 + SlashAt(s[1..]);
      assert forall i :: 1 <= i < k ==> s[i] == s[1..][i - 1];
      k
  }

  lemma {:induction false} WellEscapedIsWellFormed(t: string)
    requires WellEscaped(t) && forall i :: 0 <= i < |t| ==> t[i] != '/'
    ensures WellFormed(t)
    decreases |t|
  {
    if t != "" {
      var r := t[1..];
      forall i | 0 <= i < |r| && r[i] == '~'
        ensures i + 1 < |r| && (r[i + 1] == '0' || r[i + 1] == '1')
      {
        assert t[i + 1] == '~';
      }
      WellEscapedIsWellFormed(r);
    }
  }

  lemma FirstDecoded(raw: seq<string>)
    requires raw != [] && DecodeTokens(raw).Ok?
    ensures WellEscaped(raw[0]) && DecodeTokens(raw[1..]).Ok?
    ensures DecodeTokens(raw).value == [Unescape(raw[0])] + DecodeTokens(raw[1..]).value
  {
    hide WellEscaped, Unescape;
  }

  lemma TextParts(s: string, k: nat)
    requires k <= |s|
    ensures k == |s| ==> "/" + s[..k] + "" == "/" + s
    ensures k < |s| && s[k] == '/' ==> "/" + s[..k] + ("/" + s[k + 1..]) == "/" + s
  {
    if k < |s| && s[k] == '/' {
      assert s == s[..k] + ("/" + s[k + 1..]);
    }
  }

  /** The tokens between the slashes, decoded and printed again. */
  lemma {:induction false} TokensPrinted(s: string)
    requires DecodeTokens(RawTokens(s)).Ok?
    ensures PointerString(DecodeTokens(RawTokens(s)).value) == "/" + s
    decreases |s|
  {
    hide WellEscaped, Escape, Unescape, PointerString, RawTokens, DecodeTokens, WellFormed;
    var k := SlashAt(s);
    var t := s[..k];
    var behind := if k == |s| then [] else RawTokens(s[k + 1..]);
    FirstRawToken(s, k);
    assert ([t] + behind)[1..] == behind;
    FirstDecoded([t] + behind);
    WellEscapedIsWellFormed(t);
    EscapeUnescape(t);
    PointerStringHead(Unescape(t), DecodeTokens(behind).value);
    TextParts(s, k);
    if k < |s| {
      TokensPrinted(s[k + 1..]);
    } else {
      NothingPrinted();
    }
  }

  lemma NothingPrinted()
    ensures PointerString([]) == "" && DecodeTokens([]) == Ok([])
  {}

  /** A text parses to a list of tokens exactly when printing the tokens gives the text. */
  lemma SplitIsInverse(path: string, tokens: seq<string>)
    ensures Split(path) == Ok(tokens) <==> path == PointerString(tokens)
  {
    PointerRoundTrip(tokens);
    if Split(path) == Ok(tokens) {
      if path == "" {
        NothingPrinted();
      } else {
        TokensPrinted(path[1..]);
        assert path == "/" + path[1..];
      }
    }
  }

  lemma EscapedAround(s: string, k: nat)
    requires k < |s| && s[k] == '/'
    ensures WellEscaped(s) <==> WellEscaped(s[..k]) && WellEscaped(s[k + 1..])
  {
    var t, r := s[..k], s[k + 1..];
    if WellEscaped(t) && WellEscaped(r) {
      forall i | 0 <= i < |s| && s[i] == '~'
        ensures i + 1 < |s| && (s[i + 1] == '0' || s[i + 1] == '1')
      {
        if i < k {
          assert t[i] == '~';
        } else {
          assert r[i - k - 1] == '~';
        }
      }
    }
    if WellEscaped(s) {
      EscapedParts(s, k);
    }
  }

  lemma EscapedParts(s: string, k: nat)
    requires k < |s| && s[k] == '/' && WellEscaped(s)
    ensures WellEscaped(s[..k]) && WellEscaped(s[k + 1..])
  {
    var t, r := s[..k], s[k + 1..];
    assert forall i :: 0 <= i < |t| ==> t[i] == s[i];
    assert forall i :: 0 <= i < |r| ==> r[i] == s[i + k + 1];
  }

  lemma {:induction false} TextDecodes(s: string)
    ensures DecodeTokens(RawTokens(s)).Ok? <==> WellEscaped(s)
    ensures DecodeTokens(RawTokens(s)).Throw? ==> DecodeTokens(RawTokens(s)).error == ParseError(108)
    decreases |s|
  {
    hide WellEscaped, Unescape;
    var k := SlashAt(s);
    FirstRawToken(s, k);
    var raw := RawTokens(s);
    hide RawTokens;
    assert raw[0] == s[..k] && (k < |s| ==> raw[1..] == RawTokens(s[k + 1..])) && (k == |s| ==> raw[1..] == []);
    if k < |s| {
      EscapedAround(s, k);
      TextDecodes(s[k + 1..]);
    } else {
      assert s[..k] == s;
    }
  }

  predicate TildesOk(path: string) {
    forall i :: 0 <= i < |path| && path[i] == '~' ==> i + 1 < |path| && (path[i + 1] == '0' || path[i + 1] == '1')
  }

  /**
   * Which texts are pointers, and which exception is thrown for the others: a pointer is empty or starts with
   * a slash, and every tilde in it is followed by 0 or 1.
   */
  lemma SplitErrors(path: string)
    ensures Split(path) == Throw(ParseError(107)) <==> path != "" && path[0] != '/'
    ensures Split(path) == Throw(ParseError(108)) <==> path != "" && path[0] == '/' && !TildesOk(path)
    ensures Split(path).Ok? <==> path == "" || (path[0] == '/' && TildesOk(path))
  {
    hide DecodeTokens, RawTokens;
    if path != "" && path[0] == '/' {
      TextDecodes(path[1..]);
      EscapedAround(path, 0);
    }
  }

  // ----- indices

  /**
   * Which tokens are indices, and which exception is thrown for the others: an index is a number below the
   * largest size_t, in digits and without leading zeros. A token that does not begin like one is a parse
   * error, unless it is a single character; what goes wrong behind its first character is out of range.
   */
  lemma IndexErrors(s: string, n: nat)
    ensures ArrayIndex(s) == Ok(n) <==> n < SIZE_MAX && s == ToDecimal(n)
    ensures ArrayIndex(s) == Throw(ParseError(106)) <==> |s| > 1 && s[0] == '0'
    ensures ArrayIndex(s) == Throw(ParseError(109)) <==> |s| > 1 && s[0] != '0' && !IsDigit(s[0])
    ensures ArrayIndex(s) == Throw(OutOfRange(410)) <==> s == ToDecimal(SIZE_MAX)
    ensures ArrayIndex(s).Ok? || ArrayIndex(s).error in {ParseError(106), ParseError(109), OutOfRange(404), OutOfRange(410)}
  {
    hide ToDecimal, Decimal;
    if n < SIZE_MAX {
      IndexRoundTrip(n);
    }
    if ArrayIndex(s).Ok? {
      IndexIsCanonical(s);
    }
    LargestIndex(s);
  }

  lemma LargestIndex(s: string)
    ensures ArrayIndex(s) == Throw(OutOfRange(410)) <==> s == ToDecimal(SIZE_MAX)
  {
    hide ToDecimal;
    DecimalRoundTrip(SIZE_MAX);
    if ArrayIndex(s) == Throw(OutOfRange(410)) {
      DecimalIsCanonical(s);
    }
  }

  /** Indices are in base 10, the most significant digit first. */
  lemma IndexExample()
    ensures ToDecimal(205) == "205" && ArrayIndex("205") == Ok(205)
  {
    assert ToDecimal(20) == ToDecimal(2) + [Digit(0)];
    assert ToDecimal(205) == ToDecimal(20) + [Digit(5)];
    IndexRoundTrip(205);
  }

  // ----- pointers that lead nowhere

  /** The exception for a token that a value has no child for. */
  lemma ChildErrors(j: JSON, token: string)
    ensures Child(j, token) == Throw(OutOfRange(403)) <==> j.Obj? && token !in j.members
    ensures Child(j, token) == Throw(OutOfRange(402)) <==> j.Arr? && token == "-"
    ensures Child(j, token) == Throw(OutOfRange(401)) <==>
      j.Arr? && token != "-" && ArrayIndex(token).Ok? && ArrayIndex(token).value >= |j.elems|
    ensures !j.Obj? && !j.Arr? ==> Child(j, token) == Throw(OutOfRange(404))
    ensures j.Arr? && token != "-" && ArrayIndex(token).Throw? ==> Child(j, token) == Throw(ArrayIndex(token).error)
  {
    hide ArrayIndex, ToDecimal;
    if j.Arr? {
      IndexErrors(token, 0);
    }
  }

  /** Following a pointer fails at the first token that leads nowhere, with the exception for that token. */
  lemma {:induction false} AtErrors(j: JSON, ptr: seq<string>)
    ensures At(j, ptr).Ok? <==> forall k :: 0 <= k < |ptr| ==> At(j, ptr[..k]).Ok? && Child(At(j, ptr[..k]).value, ptr[k]).Ok?
    ensures At(j, ptr).Throw? ==> exists k :: 0 <= k < |ptr| && At(j, ptr[..k]).Ok? && Throw(At(j, ptr).error) == Child(At(j, ptr[..k]).value, ptr[k])
    decreases |ptr|
  {
    hide Child;
    if ptr == [] {
    } else {
      var n := |ptr| - 1;
      var front := ptr[..n];
      assert front + [ptr[n]] == ptr;
      AtSnoc(j, front, ptr[n]);
      AtErrors(j, front);
      assert forall k :: 0 <= k < n ==> front[..k] == ptr[..k];
    }
  }
}
