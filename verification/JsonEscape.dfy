/** Escaping of JSON Pointer tokens, section 4 of RFC 6901, as string_escape.hpp does it in two passes. */
module JsonEscape {

  /** Every occurrence of f, taken from the left and without overlap, replaced by t. */
  function ReplaceAll(s: string, f: string, t: string): string
    requires f != ""
  {
    if |s| < |f| then s
    else if f <= s then t + ReplaceAll(s[|f|..], f, t)
    else [s[0]] + ReplaceAll(s[1..], f, t)
  }

  predicate OccursAt(s: string, f: string, i: nat) {
    i + |f| <= |s| && s[i..i + |f|] == f
  }

  /** find: the first place at or after from where f occurs, or |s|. */
  method Find(s: string, f: string, from: nat) returns (pos: nat)
    requires f != "" && from <= |s|
    ensures from <= pos <= |s|
    ensures pos < |s| ==> OccursAt(s, f, pos)
    ensures forall i :: from <= i < pos ==> !OccursAt(s, f, i)
  {
    pos := from;
    while pos < |s| && !OccursAt(s, f, pos)
      invariant from <= pos <= |s|
      invariant forall i :: from <= i < pos ==> !OccursAt(s, f, i)
    {
      pos := pos + 1;
    }
  }

  lemma ReplaceHead(s: string, f: string, t: string)
    requires f != "" && s != ""
    ensures ReplaceAll(s, f, t) ==
      if OccursAt(s, f, 0) then t + ReplaceAll(s[|f|..], f, t) else [s[0]] + ReplaceAll(s[1..], f, t)
  {
    if |s| < |f| {
      assert s == [s[0]] + s[1..];
    } else if f <= s {
      assert s[0..|f|] == f;
    }
  }

  lemma OccursInTail(s: string, f: string, k: nat, i: nat)
    requires k <= |s|
    ensures OccursAt(s[k..], f, i) <==> OccursAt(s, f, k + i)
  {
    if k + i + |f| <= |s| {
      assert s[k..][i..i + |f|] == s[k + i..k + i + |f|];
    }
  }

  /** Up to the first occurrence nothing is replaced. */
  lemma {:induction false} SkipTo(s: string, f: string, t: string, p: nat)
    requires f != "" && p <= |s|
    requires forall i :: 0 <= i < p ==> !OccursAt(s, f, i)
    requires p < |s| ==> OccursAt(s, f, p)
    ensures p < |s| ==> p + |f| <= |s|
    ensures ReplaceAll(s, f, t) == Skipped(s, f, t, p)
    decreases p
  {
    if p < |s| {
      OccursInside(s, f, p);
    }
    hide ReplaceAll, OccursAt;
    if s == "" {
      EmptyReplaced(f, t);
    } else if p == 0 {
      ReplaceHead(s, f, t);
      assert s[..0] + (t + ReplaceAll(s[|f|..], f, t)) == t + ReplaceAll(s[|f|..], f, t);
    } else {
      assert !OccursAt(s, f, 0);
      ReplaceHead(s, f, t);
      var r := s[1..];
      forall i | 0 <= i < p - 1
        ensures !OccursAt(r, f, i)
      {
        OccursInTail(s, f, 1, i);
      }
      OccursInTail(s, f, 1, p - 1);
      SkipTo(r, f, t, p - 1);
      JoinHead(s, p, f, t);
    }
  }

  lemma EmptyReplaced(f: string, t: string)
    requires f != ""
    ensures ReplaceAll("", f, t) == ""
  {}

  lemma OccursInside(s: string, f: string, p: nat)
    requires OccursAt(s, f, p)
    ensures p + |f| <= |s|
  {}

  /** SkipTo's result for a string and a place, from that for the tail. */
  function Skipped(s: string, f: string, t: string, p: nat): string
    requires f != "" && p <= |s| && (p < |s| ==> p + |f| <= |s|)
  {
    if p == |s| then s else s[..p] + (t + ReplaceAll(s[p + |f|..], f, t))
  }

  lemma JoinHead(s: string, p: nat, f: string, t: string)
    requires f != "" && 0 < p <= |s| && (p < |s| ==> p + |f| <= |s|)
    ensures [s[0]] + Skipped(s[1..], f, t, p - 1) == Skipped(s, f, t, p)
  {
    hide ReplaceAll;
    if p < |s| {
      assert s[1..][p - 1 + |f|..] == s[p + |f|..];
      assert [s[0]] + s[1..][..p - 1] == s[..p];
    }
  }

  /** replace_substring: the loop ends although t may contain f, because the search goes on behind what it wrote. */
  method ReplaceSubstring(s: string, f: string, t: string) returns (r: string)
    requires f != ""
    ensures r == ReplaceAll(s, f, t)
  {
    hide ReplaceAll, OccursAt;
    r := s;
    ghost var done, rest := "", s;
    var pos := Find(r, f, 0);
    while pos < |r|
      invariant r == done + rest && |done| <= pos <= |r|
      invariant done + ReplaceAll(rest, f, t) == ReplaceAll(s, f, t)
      invariant pos < |r| ==> OccursAt(r, f, pos)
      invariant forall i :: |done| <= i < pos ==> !OccursAt(r, f, i)
      decreases |rest|
    {
      OccursInside(r, f, pos);
      OneReplaced(done, rest, f, t, pos - |done|);
      done, rest := r[..pos] + t, r[pos + |f|..];
      r := r[..pos] + t + r[pos + |f|..];
      pos := Find(r, f, pos + |t|);
    }
    NoneLeft(done, rest, f, t);
  }

  lemma OneReplaced(done: string, rest: string, f: string, t: string, p: nat)
    requires f != "" && p <= |rest| && OccursAt(done + rest, f, |done| + p)
    requires forall i :: |done| <= i < |done| + p ==> !OccursAt(done + rest, f, i)
    ensures |done| + p + |f| <= |done + rest|
    ensures var r := done + rest; var pos := |done| + p;
      (r[..pos] + t) + ReplaceAll(r[pos + |f|..], f, t) == done + ReplaceAll(rest, f, t)
  {
    hide ReplaceAll;
    var r := done + rest;
    assert r[|done|..] == rest;
    FirstInRest(done, rest, f, p);
    OccursInTail(r, f, |done|, p);
    OccursInside(rest, f, p);
    SkipTo(rest, f, t, p);
    assert r[|done| + p + |f|..] == rest[p + |f|..];
    var tail := ReplaceAll(rest[p + |f|..], f, t);
    assert (r[..|done| + p] + t) + tail == done + (rest[..p] + (t + tail));
  }

  lemma FirstInRest(done: string, rest: string, f: string, p: nat)
    requires p <= |rest| && forall i :: |done| <= i < |done| + p ==> !OccursAt(done + rest, f, i)
    ensures forall i :: 0 <= i < p ==> !OccursAt(rest, f, i)
  {
    hide OccursAt;
    assert (done + rest)[|done|..] == rest;
    forall i | 0 <= i < p
      ensures !OccursAt(rest, f, i)
    {
      OccursInTail(done + rest, f, |done|, i);
    }
  }

  lemma NoneLeft(done: string, rest: string, f: string, t: string)
    requires f != "" && forall i :: |done| <= i < |done + rest| ==> !OccursAt(done + rest, f, i)
    ensures done + ReplaceAll(rest, f, t) == done + rest
  {
    hide ReplaceAll, OccursAt;
    FirstInRest(done, rest, f, |rest|);
    SkipTo(rest, f, t, |rest|);
  }

  function Escape(s: string): string {
    ReplaceAll(ReplaceAll(s, "~", "~0"), "/", "~1")
  }

  function Unescape(s: string): string {
    ReplaceAll(ReplaceAll(s, "~1", "/"), "~0", "~")
  }

  method EscapeInPlace(s: string) returns (r: string)
    ensures r == Escape(s)
  {
    r := ReplaceSubstring(s, "~", "~0");
    r := ReplaceSubstring(r, "/", "~1");
  }

  method UnescapeInPlace(s: string) returns (r: string)
    ensures r == Unescape(s)
  {
    r := ReplaceSubstring(s, "~1", "/");
    r := ReplaceSubstring(r, "~0", "~");
  }

  /** How one character is escaped. */
  function EscapeChar(c: char): (s: string)
    ensures 1 <= |s| <= 2 && s[0] != '/'
  {
    if c == '~' then "~0" else if c == '/' then "~1" else [c]
  }

  lemma EscapeHead(c: char, s: string)
    ensures Escape([c] + s) == EscapeChar(c) + Escape(s)
  {
    hide ReplaceAll;
    var first := ReplaceAll(s, "~", "~0");
    ReplaceFirst(c, s, '~', "~0");
    if c == '~' {
      assert ReplaceAll([c] + s, "~", "~0") == ['~'] + (['0'] + first);
      ReplaceFirst('~', ['0'] + first, '/', "~1");
      ReplaceFirst('0', first, '/', "~1");
      assert ['~'] + (['0'] + ReplaceAll(first, "/", "~1")) == "~0" + ReplaceAll(first, "/", "~1");
    } else {
      ReplaceFirst(c, first, '/', "~1");
    }
  }

  /** Replacing a single character, at the front of a string. */
  lemma ReplaceFirst(c: char, s: string, f: char, t: string)
    ensures ReplaceAll([c] + s, [f], t) == (if c == f then t else [c]) + ReplaceAll(s, [f], t)
  {
    assert ([c] + s)[1..] == s && ([c] + s)[0] == c;
    ReplaceHead([c] + s, [f], t);
    hide ReplaceAll;
    if c == f {
      assert ([c] + s)[0..1] == [f];
    } else {
      assert !OccursAt([c] + s, [f], 0) by {
        assert ([c] + s)[0..1][0] == c;
      }
    }
  }

  /** A token as RFC 6901 allows it: no slash, and every tilde is followed by 0 or 1. */
  predicate WellFormed(t: string) {
    t == "" || (t[0] != '/' && (t[0] == '~' ==> |t| > 1 && (t[1] == '0' || t[1] == '1')) && WellFormed(t[1..]))
  }

  lemma {:induction false} EscapeIsWellFormed(s: string)
    ensures WellFormed(Escape(s))
    ensures forall i :: 0 <= i < |Escape(s)| ==> Escape(s)[i] != '/'
  {
    if s != "" {
      EscapeHead(s[0], s[1..]);
      assert [s[0]] + s[1..] == s;
      EscapeIsWellFormed(s[1..]);
      var rest := Escape(s[1..]);
      if s[0] == '~' || s[0] == '/' {
        var e := EscapeChar(s[0]) + rest;
        assert e[1..] == [e[1]] + rest && ([e[1]] + rest)[1..] == rest;
      } else {
        assert ([s[0]] + rest)[1..] == rest;
      }
    }
  }

  /** What unescaping does at the front of a string. */
  lemma UnescapeHead(t: string)
    requires t != ""
    ensures t[0] != '~' ==> Unescape(t) == [t[0]] + Unescape(t[1..])
    ensures |t| > 1 && t[0] == '~' && t[1] == '0' ==> Unescape(t) == "~" + Unescape(t[2..])
    ensures |t| > 1 && t[0] == '~' && t[1] == '1' ==> Unescape(t) == "/" + Unescape(t[2..])
  {
    hide ReplaceAll;
    ReplaceHead(t, "~1", "/");
    if t[0] != '~' {
      var first := ReplaceAll(t[1..], "~1", "/");
      assert !OccursAt(t, "~1", 0);
      var passed := [t[0]] + first;
      ReplaceHead(passed, "~0", "~");
      assert !OccursAt(passed, "~0", 0);
      assert passed[1..] == first;
    } else if |t| > 1 && t[1] == '0' {
      var first := ReplaceAll(t[2..], "~1", "/");
      assert !OccursAt(t, "~1", 0) && !OccursAt(t[1..], "~1", 0);
      ReplaceHead(t[1..], "~1", "/");
      assert t[1..][1..] == t[2..];
      var passed := ['~'] + (['0'] + first);
      ReplaceHead(passed, "~0", "~");
      assert passed[0..2] == "~0";
      assert passed[2..] == first;
    } else if |t| > 1 && t[1] == '1' {
      var first := ReplaceAll(t[2..], "~1", "/");
      assert t[0..2] == "~1";
      var passed := "/" + first;
      ReplaceHead(passed, "~0", "~");
      assert passed[0] == '/';
      assert !OccursAt(passed, "~0", 0);
      assert passed[1..] == first;
    }
  }

  lemma {:induction false} UnescapeEscape(s: string)
    ensures Unescape(Escape(s)) == s
  {
    if s != "" {
      EscapeHead(s[0], s[1..]);
      assert [s[0]] + s[1..] == s;
      UnescapeEscape(s[1..]);
      var e := EscapeChar(s[0]) + Escape(s[1..]);
      UnescapeHead(e);
      assert e[|EscapeChar(s[0])|..] == Escape(s[1..]);
    }
  }

  lemma {:induction false} EscapeUnescape(t: string)
    requires WellFormed(t)
    ensures Escape(Unescape(t)) == t
  {
    if t != "" {
      UnescapeHead(t);
      if t[0] == '~' {
        assert WellFormed(t[1..]) && t[1..][1..] == t[2..];
        EscapeUnescape(t[2..]);
        EscapeHead(if t[1] == '0' then '~' else '/', Unescape(t[2..]));
        assert t == [t[0], t[1]] + t[2..];
      } else {
        EscapeUnescape(t[1..]);
        EscapeHead(t[0], Unescape(t[1..]));
        assert t == [t[0]] + t[1..];
      }
    }
  }
}
