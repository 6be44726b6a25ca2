/** JSON Pointers, RFC 6901, as json_pointer parses, prints and follows them. */
module JsonPointer {
  import opened Json
  import opened JsonEscape

  // ----- array indices

  predicate IsDigit(c: char) {
    '0' <= c <= '9'
  }

  function DigitValue(c: char): (d: nat)
    requires IsDigit(c)
    ensures d < 10
  {
    c as int - '0' as int
  }

  function Digit(d: nat): (c: char)
    requires d < 10
    ensures IsDigit(c) && DigitValue(c) == d
  {
    ('0' as int + d) as char
  }

  predicate AllDigits(s: string) {
    forall i :: 0 <= i < |s| ==> IsDigit(s[i])
  }

  /** The number a string of digits denotes in base 10. */
  function Decimal(s: string): nat
    requires AllDigits(s)
  {
    if s == "" then 0
    else
      assert IsDigit(s[|s| - 1]);
      10 * Decimal(s[..|s| - 1]) + DigitValue(s[|s| - 1])
  }

  /** array_index: the range check on the value is the one that strtoull and size_t make. */
  function ArrayIndex(s: string): Result<nat> {
    if |s| > 1 && s[0] == '0' then Throw(ParseError(106))
    else if |s| > 1 && !('1' <= s[0] <= '9') then Throw(ParseError(109))
    else if s == "" || !AllDigits(s) then Throw(OutOfRange(404))
    else if Decimal(s) > SIZE_MAX then Throw(OutOfRange(404))
    else if Decimal(s) >= SIZE_MAX then Throw(OutOfRange(410))
    else Ok(Decimal(s))
  }

  /** std::to_string of a size_t. */
  function ToDecimal(n: nat): (s: string)
    ensures s != "" && AllDigits(s)
  {
    if n < 10 then [Digit(n)] else ToDecimal(n / 10) + [Digit(n % 10)]
  }

  lemma {:induction false} DecimalRoundTrip(n: nat)
    ensures Decimal(ToDecimal(n)) == n
    ensures n >= 10 ==> |ToDecimal(n)| > 1
    ensures n > 0 ==> ToDecimal(n)[0] != '0'
  {
    var s := ToDecimal(n);
    if n >= 10 {
      DecimalRoundTrip(n / 10);
      assert s[..|s| - 1] == ToDecimal(n / 10);
      assert s[0] == ToDecimal(n / 10)[0];
    } else {
      assert s[..0] == "";
    }
  }

  /** The tokens taken for an index are exactly the indices as to_string prints them. */
  lemma IndexRoundTrip(n: nat)
    requires n < SIZE_MAX
    ensures ArrayIndex(ToDecimal(n)) == Ok(n) && ToDecimal(n) != "-"
  {
    DecimalRoundTrip(n);
    assert n < 10 ==> |ToDecimal(n)| == 1;
    assert IsDigit(ToDecimal(n)[0]);
  }

  lemma {:induction false} DecimalIsCanonical(s: string)
    requires s != "" && AllDigits(s) && (|s| > 1 ==> s[0] != '0')
    ensures ToDecimal(Decimal(s)) == s
    ensures s[0] != '0' ==> Decimal(s) > 0
    decreases |s|
  {
    var front, last := s[..|s| - 1], s[|s| - 1];
    assert s == front + [last] && IsDigit(last);
    var d := DigitValue(last);
    assert Digit(d) == last;
    if front != "" {
      assert front[0] == s[0];
      DecimalIsCanonical(front);
      LastDigit(Decimal(front), d);
    } else {
      assert Decimal(front) == 0 && s == [last];
    }
  }

  lemma LastDigit(n: nat, d: nat)
    requires d < 10
    ensures (10 * n + d) / 10 == n && (10 * n + d) % 10 == d
  {}

  lemma IndexIsCanonical(s: string)
    requires ArrayIndex(s).Ok?
    ensures s == ToDecimal(ArrayIndex(s).value)
  {
    DecimalIsCanonical(s);
  }

  // ----- parsing

  /** The text between the slashes. */
  function RawTokens(s: string): (r: seq<string>)
    ensures |r| > 0
  {
    if s == "" then [""]
    else if s[0] == '/' then [""] + RawTokens(s[1..])
    else
      var rest := RawTokens(s[1..]);
      [[s[0]] + rest[0]] + rest[1..]
  }

  /** Every tilde is followed by 0 or 1. */
  predicate WellEscaped(t: string) {
    forall i :: 0 <= i < |t| && t[i] == '~' ==> i + 1 < |t| && (t[i + 1] == '0' || t[i + 1] == '1')
  }

  function DecodeTokens(raw: seq<string>): Result<seq<string>> {
    if raw == [] then Ok([])
    else if !WellEscaped(raw[0]) then Throw(ParseError(108))
    else
      var rest :- DecodeTokens(raw[1..]);
      Ok([Unescape(raw[0])] + rest)
  }

  /** split: the reference tokens of a pointer. */
  function Split(path: string): Result<seq<string>> {
    if path == "" then Ok([])
    else if path[0] != '/' then Throw(ParseError(107))
    else DecodeTokens(RawTokens(path[1..]))
  }

  /** to_string. */
  function PointerString(tokens: seq<string>): string {
    if tokens == [] then ""
    else PointerString(tokens[..|tokens| - 1]) + "/" + Escape(tokens[|tokens| - 1])
  }

  lemma {:induction false} RawTokensOfToken(t: string)
    requires forall i :: 0 <= i < |t| ==> t[i] != '/'
    ensures RawTokens(t) == [t]
  {
    if t != "" {
      RawTokensOfToken(t[1..]);
      assert t == [t[0]] + t[1..];
    }
  }

  lemma {:induction false} RawTokensJoin(s: string, t: string)
    requires forall i :: 0 <= i < |t| ==> t[i] != '/'
    ensures RawTokens(s + "/" + t) == RawTokens(s) + [t]
  {
    var joined := s + "/" + t;
    if s == "" {
      RawTokensOfToken(t);
      assert joined[1..] == t;
      assert joined[0] == '/';
    } else {
      assert joined[1..] == s[1..] + "/" + t;
      RawTokensJoin(s[1..], t);
    }
  }

  lemma {:induction false} DecodeSnoc(raw: seq<string>, t: string, tokens: seq<string>)
    requires DecodeTokens(raw) == Ok(tokens) && WellEscaped(t)
    ensures DecodeTokens(raw + [t]) == Ok(tokens + [Unescape(t)])
    decreases |raw|
  {
    hide WellEscaped, Unescape;
    if raw == [] {
      assert [] + [t] == [t];
      assert [t][1..] == [] && DecodeTokens([]) == Ok([]);
      assert DecodeTokens([t]) == Ok([Unescape(t)] + []);
      assert [Unescape(t)] + [] == tokens + [Unescape(t)];
    } else {
      assert (raw + [t])[1..] == raw[1..] + [t];
      assert tokens[1..] == DecodeTokens(raw[1..]).value;
      DecodeSnoc(raw[1..], t, tokens[1..]);
      assert tokens + [Unescape(t)] == [tokens[0]] + (tokens[1..] + [Unescape(t)]);
    }
  }

  lemma {:induction false} WellFormedIsWellEscaped(t: string)
    requires WellFormed(t)
    ensures WellEscaped(t)
  {
    if t != "" {
      WellFormedIsWellEscaped(t[1..]);
      forall i | 0 <= i < |t| && t[i] == '~'
        ensures i + 1 < |t| && (t[i + 1] == '0' || t[i + 1] == '1')
      {
        if i > 0 {
          assert t[1..][i - 1] == '~';
        }
      }
    }
  }

  /** Appending an escaped token to a path appends the token to the pointer. */
  lemma SplitExtends(path: string, tokens: seq<string>, token: string)
    requires Split(path) == Ok(tokens)
    ensures Split(path + "/" + Escape(token)) == Ok(tokens + [token])
  {
    hide Escape, Unescape, WellEscaped;
    var t := Escape(token);
    var longer := path + "/" + t;
    EscapeIsWellFormed(token);
    WellFormedIsWellEscaped(t);
    UnescapeEscape(token);
    if path == "" {
      assert longer[1..] == t && longer[0] == '/';
      RawTokensOfToken(t);
      DecodeSnoc([], t, []);
      assert [] + [t] == [t];
    } else {
      assert longer[1..] == path[1..] + "/" + t && longer[0] == path[0];
      RawTokensJoin(path[1..], t);
      DecodeSnoc(RawTokens(path[1..]), t, tokens);
    }
  }

  /** A pointer that is printed and parsed again is the same pointer. */
  lemma {:induction false} PointerRoundTrip(tokens: seq<string>)
    ensures Split(PointerString(tokens)) == Ok(tokens)
  {
    hide Split, Escape;
    if tokens == [] {
      EmptyPath();
    } else {
      var n := |tokens| - 1;
      PointerRoundTrip(tokens[..n]);
      SplitExtends(PointerString(tokens[..n]), tokens[..n], tokens[n]);
      assert tokens == tokens[..n] + [tokens[n]];
    }
  }

  lemma EmptyPath()
    ensures Split("") == Ok([])
  {}

  /** find_first_of one character. */
  method FindChar(s: string, c: char, from: nat) returns (pos: nat)
    requires from <= |s|
    ensures from <= pos <= |s| && (pos < |s| ==> s[pos] == c)
    ensures forall i :: from <= i < pos ==> s[i] != c
  {
    pos := from;
    while pos < |s| && s[pos] != c
      invariant from <= pos <= |s|
      invariant forall i :: from <= i < pos ==> s[i] != c
    {
      pos := pos + 1;
    }
  }

  /** The inner loop of split: looks at what follows each tilde. */
  method CheckEscapes(t: string) returns (ok: bool)
    ensures ok <==> WellEscaped(t)
  {
    var pos := FindChar(t, '~', 0);
    while pos < |t|
      invariant pos <= |t| && (pos < |t| ==> t[pos] == '~')
      invariant forall i :: 0 <= i < pos && t[i] == '~' ==> i + 1 < |t| && (t[i + 1] == '0' || t[i + 1] == '1')
    {
      if pos == |t| - 1 || (t[pos + 1] != '0' && t[pos + 1] != '1') {
        return false;
      }
      pos := FindChar(t, '~', pos + 1);
    }
    ok := true;
  }

  /** The text up to the next slash is the first raw token. */
  lemma {:induction false} FirstRawToken(s: string, k: nat)
    requires k <= |s| && (forall i :: 0 <= i < k ==> s[i] != '/') && (k < |s| ==> s[k] == '/')
    ensures RawTokens(s) == [s[..k]] + if k == |s| then [] else RawTokens(s[k + 1..])
    decreases k
  {
    if k == 0 {
      assert s[..0] == "";
    } else {
      var tail := s[1..];
      forall i | 0 <= i < k - 1
        ensures tail[i] != '/'
      {
        assert tail[i] == s[i + 1];
      }
      FirstRawToken(tail, k - 1);
      assert s[..k] == [s[0]] + tail[..k - 1];
      if k < |s| {
        assert tail[k..] == s[k + 1..];
      }
    }
  }

  /** What split returns when the tokens in front of rest have been read. */
  function Continued(tokens: seq<string>, rest: seq<string>): Result<seq<string>> {
    var more :- DecodeTokens(rest);
    Ok(tokens + more)
  }

  lemma ContinuedNext(tokens: seq<string>, t: string, rest: seq<string>)
    ensures !WellEscaped(t) ==> Continued(tokens, [t] + rest) == Throw(ParseError(108))
    ensures WellEscaped(t) ==> Continued(tokens, [t] + rest) == Continued(tokens + [Unescape(t)], rest)
  {
    hide WellEscaped, Unescape;
    assert ([t] + rest)[1..] == rest;
    if WellEscaped(t) && DecodeTokens(rest).Ok? {
      assert tokens + ([Unescape(t)] + DecodeTokens(rest).value) == tokens + [Unescape(t)] + DecodeTokens(rest).value;
    }
  }

  /** split, as its loop goes: start is the beginning of the next token, or 0 when there is none. */
  method SplitPath(path: string) returns (r: Result<seq<string>>)
    ensures r == Split(path)
  {
    if path == "" {
      return Ok([]);
    }
    if path[0] != '/' {
      return Throw(ParseError(107));
    }
    hide WellEscaped, Unescape, DecodeTokens, RawTokens, Continued;
    var tokens: seq<string> := [];
    var start := 1;
    NothingRead(RawTokens(path[1..]));
    while start != 0
      invariant start <= |path|
      invariant Split(path) == Continued(tokens, if start == 0 then [] else RawTokens(path[start..]))
      decreases if start == 0 then 0 else |path| + 1 - start
    {
      var slash := FindChar(path, '/', start);
      var token := path[start..slash];
      TokenAt(path, start, slash);
      ContinuedNext(tokens, token, if slash == |path| then [] else RawTokens(path[slash + 1..]));
      var ok := CheckEscapes(token);
      if !ok {
        return Throw(ParseError(108));
      }
      var unescaped := UnescapeInPlace(token);
      tokens := tokens + [unescaped];
      start := if slash == |path| then 0 else slash + 1;
    }
    AllRead(tokens);
    r := Ok(tokens);
  }

  lemma NothingRead(rest: seq<string>)
    ensures Continued([], rest) == DecodeTokens(rest)
  {
    hide DecodeTokens;
    if DecodeTokens(rest).Ok? {
      assert [] + DecodeTokens(rest).value == DecodeTokens(rest).value;
    }
  }

  lemma AllRead(tokens: seq<string>)
    ensures Continued(tokens, []) == Ok(tokens)
  {
    assert tokens + [] == tokens;
  }

  lemma TokenAt(path: string, start: nat, slash: nat)
    requires 0 < start <= slash <= |path| && (slash < |path| ==> path[slash] == '/')
    requires forall i :: start <= i < slash ==> path[i] != '/'
    ensures RawTokens(path[start..]) == [path[start..slash]] + if slash == |path| then [] else RawTokens(path[slash + 1..])
  {
    hide RawTokens;
    var s := path[start..];
    assert forall i :: 0 <= i < slash - start ==> s[i] == path[start + i];
    FirstRawToken(s, slash - start);
    assert s[..slash - start] == path[start..slash];
    if slash < |path| {
      assert s[slash - start + 1..] == path[slash + 1..];
    }
  }

  // ----- following a pointer

  /** at(): the value a pointer refers to. */
  function At(j: JSON, ptr: seq<string>): Result<JSON>
    decreases |ptr|
  {
    if ptr == [] then Ok(j)
    else
      var child :- Child(j, ptr[0]);
      At(child, ptr[1..])
  }

  /** One step of get_checked. */
  function Child(j: JSON, token: string): Result<JSON> {
    match j
    case Obj(members) => if token in members then Ok(members[token]) else Throw(OutOfRange(403))
    case Arr(elems) =>
      if token == "-" then Throw(OutOfRange(402))
      else
        var i :- ArrayIndex(token);
        if i < |elems| then Ok(elems[i]) else Throw(OutOfRange(401))
    case _ => Throw(OutOfRange(404))
  }

  /** Assignment through the reference that at() returns. */
  function Put(j: JSON, ptr: seq<string>, v: JSON): JSON
    requires At(j, ptr).Ok?
    decreases |ptr|
  {
    if ptr == [] then v else PutChild(j, ptr[0], Put(Child(j, ptr[0]).value, ptr[1..], v))
  }

  function PutChild(j: JSON, token: string, v: JSON): JSON
    requires Child(j, token).Ok?
  {
    match j
    case Obj(members) => Obj(members[token := v])
    case Arr(elems) => Arr(elems[ArrayIndex(token).value := v])
  }

  lemma PutChildGet(j: JSON, token: string, v: JSON)
    requires Child(j, token).Ok?
    ensures Child(PutChild(j, token, v), token) == Ok(v)
    ensures PutChild(j, token, Child(j, token).value) == j
  {
    hide ArrayIndex;
  }

  lemma PutChildTwice(j: JSON, token: string, v: JSON, w: JSON)
    requires Child(j, token).Ok?
    ensures Child(PutChild(j, token, v), token).Ok?
    ensures PutChild(PutChild(j, token, v), token, w) == PutChild(j, token, w)
  {
    hide ArrayIndex;
  }

  /** Putting what is there changes nothing, what was put is there, and a second put replaces the first. */
  lemma {:induction false} PutLaws(j: JSON, ptr: seq<string>, v: JSON, w: JSON)
    requires At(j, ptr).Ok?
    ensures Put(j, ptr, At(j, ptr).value) == j
    ensures At(Put(j, ptr, v), ptr) == Ok(v)
    ensures Put(Put(j, ptr, v), ptr, w) == Put(j, ptr, w)
    decreases |ptr|
  {
    hide Child, PutChild;
    if ptr != [] {
      var c := Child(j, ptr[0]).value;
      PutLaws(c, ptr[1..], v, w);
      PutChildGet(j, ptr[0], Put(c, ptr[1..], v));
      PutChildTwice(j, ptr[0], Put(c, ptr[1..], v), Put(c, ptr[1..], w));
    }
  }

  /** Following a longer pointer is following its beginning and then its last token. */
  lemma {:induction false} AtSnoc(j: JSON, ptr: seq<string>, token: string)
    ensures At(j, ptr + [token]) == match At(j, ptr) { case Ok(x) => Child(x, token) case Throw(e) => Throw(e) }
    decreases |ptr|
  {
    hide Child;
    if ptr == [] {
      assert [] + [token] == [token] && [token][1..] == [];
    } else {
      assert (ptr + [token])[1..] == ptr[1..] + [token];
      match Child(j, ptr[0])
      case Ok(c) => AtSnoc(c, ptr[1..], token);
      case Throw(_) =>
    }
  }

  /** Following a longer pointer is following its beginning and then the rest. */
  lemma {:induction false} AtConcat(j: JSON, ptr: seq<string>, rest: seq<string>)
    ensures At(j, ptr + rest) == match At(j, ptr) { case Ok(x) => At(x, rest) case Throw(e) => Throw(e) }
    decreases |ptr|
  {
    hide Child;
    if ptr == [] {
      assert [] + rest == rest;
    } else {
      assert (ptr + rest)[1..] == ptr[1..] + rest;
      match Child(j, ptr[0])
      case Ok(c) => AtConcat(c, ptr[1..], rest);
      case Throw(_) =>
    }
  }

  /** Putting below a place is putting a changed value in that place. */
  lemma {:induction false} PutConcat(j: JSON, ptr: seq<string>, rest: seq<string>, v: JSON)
    requires At(j, ptr).Ok? && At(At(j, ptr).value, rest).Ok?
    ensures At(j, ptr + rest).Ok?
    ensures Put(j, ptr + rest, v) == Put(j, ptr, Put(At(j, ptr).value, rest, v))
    decreases |ptr|
  {
    hide Child, PutChild;
    AtConcat(j, ptr, rest);
    if ptr == [] {
      assert [] + rest == rest;
    } else {
      assert (ptr + rest)[1..] == ptr[1..] + rest;
      PutConcat(Child(j, ptr[0]).value, ptr[1..], rest, v);
    }
  }

  lemma {:induction false} PutSnoc(j: JSON, ptr: seq<string>, token: string, v: JSON)
    requires At(j, ptr).Ok? && Child(At(j, ptr).value, token).Ok?
    ensures At(j, ptr + [token]).Ok?
    ensures Put(j, ptr + [token], v) == Put(j, ptr, PutChild(At(j, ptr).value, token, v))
    decreases |ptr|
  {
    hide Child, PutChild;
    AtSnoc(j, ptr, token);
    if ptr == [] {
      assert [] + [token] == [token] && [token][1..] == [];
    } else {
      assert (ptr + [token])[1..] == ptr[1..] + [token];
      PutSnoc(Child(j, ptr[0]).value, ptr[1..], token, v);
    }
  }

  /** Two pointers that part at some token. */
  predicate Diverge(p: seq<string>, q: seq<string>)
    decreases |p|
  {
    p != [] && q != [] && (p[0] != q[0] || Diverge(p[1..], q[1..]))
  }

  /** Putting a value leaves everything else in the document as it was. */
  lemma {:induction false} PutLeavesRest(j: JSON, p: seq<string>, q: seq<string>, v: JSON)
    requires At(j, p).Ok? && Diverge(p, q)
    ensures At(Put(j, p, v), q) == At(j, q)
    decreases |p|
  {
    hide Child, PutChild;
    var c := Child(j, p[0]).value;
    var w := Put(c, p[1..], v);
    if p[0] != q[0] {
      OtherChild(j, p[0], q[0], w);
    } else {
      PutChildGet(j, p[0], w);
      PutLeavesRest(c, p[1..], q[1..], v);
    }
  }

  lemma OtherChild(j: JSON, token: string, other: string, v: JSON)
    requires Child(j, token).Ok? && token != other
    ensures Child(PutChild(j, token, v), other) == Child(j, other)
  {
    if j.Arr? {
      IndexIsCanonical(token);
      if ArrayIndex(other).Ok? {
        IndexIsCanonical(other);
      }
    }
  }
}
