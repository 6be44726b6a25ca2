/** What diff puts in a patch: the operations for exactly the places where the documents differ, each once. */
module JsonDiffExact {
  import opened Json
  import opened JsonEscape
  import opened JsonPointer
  import opened JsonPaths
  import opened JsonPatch
  import opened JsonDiff

  /** A place that two documents have, named from their roots, and what is different there. */
  datatype Change = Change(at: seq<string>, what: Difference)

  /** The value, a child only the first has, a key only the second has, or an element behind the last of the first. */
  datatype Difference =
    | Replaced(value: JSON)
    | Removed(token: string)
    | KeyAdded(key: string, value: JSON)
    | ElementAdded(index: nat, value: JSON)

  /** Both documents have the place, and whatever the pointer to it passes through is of one type in both. */
  predicate Parallel(a: JSON, b: JSON, at: seq<string>): (p: bool)
    ensures p ==> At(a, at).Ok? && At(b, at).Ok?
    decreases |at|
  {
    at == [] || (SameType(a, b) && Child(a, at[0]).Ok? && Child(b, at[0]).Ok?
                 && Parallel(Child(a, at[0]).value, Child(b, at[0]).value, at[1..]))
  }

  /** The change takes the first document to the second there, and nothing smaller would. */
  predicate Needed(c: Change, a: JSON, b: JSON) {
    Parallel(a, b, c.at) && NeededHere(c.what, At(a, c.at).value, At(b, c.at).value)
  }

  /** x and y stand in the same place of the two documents. */
  predicate NeededHere(d: Difference, x: JSON, y: JSON) {
    match d
    case Replaced(v) => v == y != x && !(SameType(x, y) && IsContainer(x))
    case Removed(token) => SameType(x, y) && Child(x, token).Ok? && Child(y, token).Throw?
    case KeyAdded(key, v) => x.Obj? && y.Obj? && key !in x.members && key in y.members && v == y.members[key]
    case ElementAdded(i, v) => x.Arr? && y.Arr? && |x.elems| <= i < |y.elems| && v == y.elems[i]
  }

  /** The operation that makes a change, below the location with this path. */
  function Operation(c: Change, path: string): JSON {
    match c.what
    case Replaced(v) => ReplaceOp(path + PointerString(c.at), v)
    case Removed(token) => RemoveOp(path + PointerString(c.at + [token]))
    case KeyAdded(key, v) => AddOp(path + PointerString(c.at + [key]), v)
    case ElementAdded(_, v) => AddOp(path + PointerString(c.at + ["-"]), v)
  }

  // ----- changes below a child

  /** A change of a child, seen from the parent. */
  function Below(c: Change, token: string): Change {
    Change([token] + c.at, c.what)
  }

  function Inside(c: Change): Change
    requires c.at != []
  {
    Change(c.at[1..], c.what)
  }

  predicate AtToken(c: Change, token: string) {
    c.at != [] && c.at[0] == token
  }

  lemma PathBelow(path: string, token: string, tokens: seq<string>)
    ensures path + PointerString([token] + tokens) == KeyPath(path, token) + PointerString(tokens)
  {
    hide Escape, PointerString;
    PointerStringHead(token, tokens);
    assert path + ("/" + Escape(token) + PointerString(tokens)) == path + "/" + Escape(token) + PointerString(tokens);
  }

  lemma OperationBelow(c: Change, path: string, token: string)
    ensures Operation(Below(c, token), path) == Operation(c, KeyPath(path, token))
  {
    hide PointerString, KeyPath, ReplaceOp, AddOp, RemoveOp;
    PathBelow(path, token, c.at);
    match c.what
    case Replaced(_) =>
    case Removed(t) => LongerBelow(path, token, c.at, t);
    case KeyAdded(key, _) => LongerBelow(path, token, c.at, key);
    case ElementAdded(_, _) => LongerBelow(path, token, c.at, "-");
  }

  lemma LongerBelow(path: string, token: string, at: seq<string>, last: string)
    ensures path + PointerString(([token] + at) + [last]) == KeyPath(path, token) + PointerString(at + [last])
  {
    PathBelow(path, token, at + [last]);
    assert ([token] + at) + [last] == [token] + (at + [last]);
  }

  lemma NeededBelow(c: Change, a: JSON, b: JSON, token: string)
    ensures Needed(Below(c, token), a, b) <==>
      SameType(a, b) && Child(a, token).Ok? && Child(b, token).Ok? && Needed(c, Child(a, token).value, Child(b, token).value)
  {
    hide Child, SameType, NeededHere;
    assert ([token] + c.at)[1..] == c.at;
  }

  /** Equal documents need no change. */
  lemma NothingNeeded(c: Change, a: JSON)
    ensures !Needed(c, a, a)
  {
    hide At, Child, Parallel;
  }

  /** Documents of different types, or that are no containers, need only one. */
  lemma OneNeeded(c: Change, a: JSON, b: JSON)
    requires a != b && !(SameType(a, b) && IsContainer(a))
    ensures Needed(c, a, b) <==> c == Change([], Replaced(b))
  {
  }

  // ----- the order of changes

  /** The key of an object that a change is about, unless it adds one. */
  function OwnKey(c: Change): string {
    if c.at != [] then c.at[0] else if c.what.Removed? then c.what.token else ""
  }

  function Index(token: string): nat {
    if ArrayIndex(token).Ok? then ArrayIndex(token).value else 0
  }

  predicate AddsKey(c: Change) {
    c.at == [] && c.what.KeyAdded?
  }

  /**
   * The order in which the loops of diff come to two changes of a: the keys of an object one after the
   * other and then the new keys, the elements both arrays have, the removals from the back, and the additions.
   */
  predicate Precedes(c: Change, d: Change, a: JSON)
    decreases |c.at|
  {
    if c.at != [] && d.at != [] && c.at[0] == d.at[0] then
      Child(a, c.at[0]).Ok? && Precedes(Inside(c), Inside(d), Child(a, c.at[0]).value)
    else if a.Obj? then
      if AddsKey(c) then AddsKey(d) && KeyLess(c.what.key, d.what.key) else AddsKey(d) || KeyLess(OwnKey(c), OwnKey(d))
    else if c.at != [] then d.at == [] || Index(c.at[0]) < Index(d.at[0])
    else if c.what.Removed? then d.at == [] && (d.what.ElementAdded? || (d.what.Removed? && Index(c.what.token) > Index(d.what.token)))
    else c.what.ElementAdded? && d.at == [] && d.what.ElementAdded? && c.what.index < d.what.index
  }

  /** Of two changes at most one comes before the other, and none before itself. */
  lemma {:induction false} PrecedesOneWay(c: Change, d: Change, a: JSON)
    ensures !(Precedes(c, d, a) && Precedes(d, c, a))
    decreases |c.at|
  {
    hide Child, KeyLess, ArrayIndex;
    KeysAreOrdered(OwnKey(c), OwnKey(d));
    if c.at != [] && d.at != [] && c.at[0] == d.at[0] && Child(a, c.at[0]).Ok? {
      PrecedesOneWay(Inside(c), Inside(d), Child(a, c.at[0]).value);
    } else if AddsKey(c) && AddsKey(d) {
      KeysAreOrdered(c.what.key, d.what.key);
    }
  }

  lemma PrecedesBelow(c: Change, d: Change, a: JSON, token: string)
    requires Child(a, token).Ok? && Precedes(c, d, Child(a, token).value)
    ensures Precedes(Below(c, token), Below(d, token), a)
  {
    hide Child, KeyLess, Index;
    var c', d' := Below(c, token), Below(d, token);
    assert Inside(c') == c && Inside(d') == d;
  }

  // ----- lists of changes

  /** The operations are those of the changes, one after the other. */
  ghost predicate Lists(ops: seq<JSON>, path: string, cs: seq<Change>) {
    |ops| == |cs| && forall i :: 0 <= i < |ops| ==> ops[i] == Operation(cs[i], path)
  }

  ghost predicate Ordered(cs: seq<Change>, a: JSON) {
    forall i, j :: 0 <= i < j < |cs| ==> Precedes(cs[i], cs[j], a)
  }

  /** The operations are those of exactly the changes of a that satisfy p, in order. */
  ghost predicate ListsExactly(ops: seq<JSON>, path: string, a: JSON, cs: seq<Change>, p: Change -> bool) {
    Lists(ops, path, cs) && Ordered(cs, a) && forall c :: c in cs <==> p(c)
  }

  lemma ListsNone(path: string, a: JSON, p: Change -> bool)
    requires forall c :: !p(c)
    ensures ListsExactly([], path, a, [], p)
  {}

  lemma ListsOne(path: string, a: JSON, c: Change, p: Change -> bool)
    requires forall c' :: p(c') <==> c' == c
    ensures ListsExactly([Operation(c, path)], path, a, [c], p)
  {
    hide Operation;
  }

  /** Two lists of changes, one after the other. */
  lemma ListsBoth(ops: seq<JSON>, cs: seq<Change>, p: Change -> bool, ops': seq<JSON>, cs': seq<Change>, p': Change -> bool,
                  path: string, a: JSON, q: Change -> bool)
    requires ListsExactly(ops, path, a, cs, p) && ListsExactly(ops', path, a, cs', p')
    requires forall c, d :: p(c) && p'(d) ==> Precedes(c, d, a)
    requires forall c :: q(c) <==> p(c) || p'(c)
    ensures ListsExactly(ops + ops', path, a, cs + cs', q)
  {
    hide Operation, Precedes;
    var all := cs + cs';
    forall i, j | 0 <= i < j < |all|
      ensures Precedes(all[i], all[j], a)
    {
      if i < |cs| <= j {
        assert all[i] in cs && all[j] in cs';
      }
    }
    forall c
      ensures c in all <==> q(c)
    {
      assert c in all <==> c in cs || c in cs';
    }
  }

  function AllBelow(cs: seq<Change>, token: string): (r: seq<Change>)
    ensures |r| == |cs|
  {
    seq(|cs|, i requires 0 <= i < |cs| => Below(cs[i], token))
  }

  /** The changes of a child, seen from the parent. */
  lemma ListsBelow(ops: seq<JSON>, cs: seq<Change>, path: string, token: string, a: JSON, b: JSON, p: Change -> bool)
    requires SameType(a, b) && Child(a, token).Ok? && Child(b, token).Ok?
    requires ListsExactly(ops, KeyPath(path, token), Child(a, token).value, cs, (c: Change) => Needed(c, Child(a, token).value, Child(b, token).value))
    requires forall c :: p(c) <==> AtToken(c, token) && Needed(c, a, b)
    ensures ListsExactly(ops, path, a, AllBelow(cs, token), p)
  {
    hide Operation, Needed, Child, SameType, KeyPath, Precedes;
    var r := AllBelow(cs, token);
    forall i | 0 <= i < |ops|
      ensures ops[i] == Operation(r[i], path)
    {
      OperationBelow(cs[i], path, token);
    }
    forall i, j | 0 <= i < j < |r|
      ensures Precedes(r[i], r[j], a)
    {
      PrecedesBelow(cs[i], cs[j], a, token);
    }
    forall c
      ensures c in r <==> p(c)
    {
      if c.at != [] && c.at[0] == token {
        var inner := Inside(c);
        assert [token] + c.at[1..] == c.at;
        assert Below(inner, token) == c;
        NeededBelow(inner, a, b, token);
        if inner in cs {
          var i :| 0 <= i < |cs| && cs[i] == inner;
          assert r[i] == c;
        }
        if c in r {
          var i :| 0 <= i < |r| && r[i] == c;
          BelowIsInjective(cs[i], inner, token);
        }
      }
    }
  }

  lemma BelowIsInjective(c: Change, d: Change, token: string)
    ensures Below(c, token) == Below(d, token) <==> c == d
  {
    assert ([token] + c.at)[1..] == c.at && ([token] + d.at)[1..] == d.at;
  }

  // ----- arrays

  /** A change at or below an element from i on. */
  predicate FromElement(c: Change, i: nat) {
    c.at != [] && ArrayIndex(c.at[0]).Ok? && i <= ArrayIndex(c.at[0]).value
  }

  /** An element of the array itself is removed, from lo up to hi. */
  predicate RemovedFrom(c: Change, lo: nat, hi: nat) {
    c.what.Removed? && c.at == [] && ArrayIndex(c.what.token).Ok? && lo <= ArrayIndex(c.what.token).value < hi
  }

  predicate AddedFrom(c: Change, elems: seq<JSON>, from: nat) {
    c.what.ElementAdded? && c.at == [] && from <= c.what.index < |elems| && c.what.value == elems[c.what.index]
  }

  lemma {:induction false} RemovalsListed(a: JSON, path: string, lo: nat, hi: nat) returns (cs: seq<Change>)
    requires a.Arr? && hi < SIZE_MAX
    ensures ListsExactly(Removals(path, lo, hi), path, a, cs, c => RemovedFrom(c, lo, hi))
    decreases hi
  {
    hide ArrayIndex, ToDecimal, PointerString, IndexPath;
    if hi <= lo {
      cs := [];
      ListsNone(path, a, c => RemovedFrom(c, lo, hi));
    } else {
      var first := Change([], Removed(ToDecimal(hi - 1)));
      var rest := RemovalsListed(a, path, lo, hi - 1);
      IndexRoundTrip(hi - 1);
      ElementPath(path, hi - 1);
      ListsOne(path, a, first, c => c == first);
      forall c
        ensures RemovedFrom(c, lo, hi) <==> c == first || RemovedFrom(c, lo, hi - 1)
      {
        if c.what.Removed? && ArrayIndex(c.what.token) == Ok(hi - 1) {
          IndexIsCanonical(c.what.token);
        }
      }
      cs := [first] + rest;
      ListsBoth([RemoveOp(IndexPath(path, hi - 1))], [first], c => c == first, Removals(path, lo, hi - 1), rest, c => RemovedFrom(c, lo, hi - 1), path, a,
                c => RemovedFrom(c, lo, hi));
    }
  }

  lemma ElementPath(path: string, i: nat)
    ensures path + PointerString([] + [ToDecimal(i)]) == IndexPath(path, i)
    ensures path + PointerString([] + ["-"]) == path + "/-"
  {
    IndexPathIsKeyPath(path, i);
    ChildStringIs(path, ToDecimal(i));
    ChildStringIs(path, "-");
  }

  lemma ChildStringIs(path: string, token: string)
    ensures path + PointerString([] + [token]) == KeyPath(path, token)
  {
    PathBelow(path, token, []);
    assert [token] + [] == [] + [token];
    assert KeyPath(path, token) + PointerString([]) == KeyPath(path, token);
  }

  lemma {:induction false} AppendsListed(a: JSON, path: string, elems: seq<JSON>, from: nat) returns (cs: seq<Change>)
    requires a.Arr?
    ensures ListsExactly(Appends(path, elems, from), path, a, cs, c => AddedFrom(c, elems, from))
    decreases |elems| - from
  {
    hide PointerString;
    if from >= |elems| {
      cs := [];
      ListsNone(path, a, c => AddedFrom(c, elems, from));
    } else {
      var first := Change([], ElementAdded(from, elems[from]));
      var rest := AppendsListed(a, path, elems, from + 1);
      ElementPath(path, from);
      ListsOne(path, a, first, c => c == first);
      cs := [first] + rest;
      ListsBoth([AddOp(path + "/-", elems[from])], [first], c => c == first, Appends(path, elems, from + 1), rest, c => AddedFrom(c, elems, from + 1), path, a,
                c => AddedFrom(c, elems, from));
    }
  }

  /** The changes of the elements from i on are those of element i and those of the elements behind it. */
  lemma ElementsSplit(c: Change, a: JSON, b: JSON, i: nat)
    requires a.Arr? && b.Arr? && i < SIZE_MAX
    ensures FromElement(c, i) <==> AtToken(c, ToDecimal(i)) || FromElement(c, i + 1)
    ensures forall d :: AtToken(c, ToDecimal(i)) && FromElement(d, i + 1) ==> Precedes(c, d, a)
  {
    hide ArrayIndex, ToDecimal;
    IndexRoundTrip(i);
    if c.at != [] && ArrayIndex(c.at[0]) == Ok(i) {
      IndexIsCanonical(c.at[0]);
    }
  }

  lemma NeededInside(c: Change, a: JSON, b: JSON, i: nat)
    requires a.Arr? && b.Arr? && FromElement(c, i) && Needed(c, a, b)
    ensures i < |a.elems| && i < |b.elems|
  {
    hide ArrayIndex, NeededHere;
  }

  lemma {:induction false} CommonListed(a: JSON, b: JSON, path: string, i: nat) returns (cs: seq<Change>)
    requires a.Arr? && b.Arr? && Fits(a) && Fits(b)
    ensures ListsExactly(DiffCommon(a, b, path, i), path, a, cs, c => FromElement(c, i) && Needed(c, a, b))
    decreases a, 1, |a.elems| - i
  {
    hide Needed, FromElement, Diff, Child, ToDecimal, IndexPath, Fits, ListsExactly;
    if i < |a.elems| && i < |b.elems| {
      FitsSize(a);
      FitsSize(b);
      FitsElement(a, i);
      FitsElement(b, i);
      ElementChild(a.elems, i, Null);
      ElementChild(b.elems, i, Null);
      IndexPathIsKeyPath(path, i);
      var token := ToDecimal(i);
      var inner := ChangesListed(a.elems[i], b.elems[i], IndexPath(path, i));
      var rest := CommonListed(a, b, path, i + 1);
      ListsBelow(Diff(a.elems[i], b.elems[i], IndexPath(path, i)), inner, path, token, a, b, c => AtToken(c, token) && Needed(c, a, b));
      forall c: Change
        ensures FromElement(c, i) && Needed(c, a, b) <==> (AtToken(c, token) && Needed(c, a, b)) || (FromElement(c, i + 1) && Needed(c, a, b))
        ensures forall d :: AtToken(c, token) && FromElement(d, i + 1) ==> Precedes(c, d, a)
      {
        ElementsSplit(c, a, b, i);
      }
      cs := AllBelow(inner, token) + rest;
      ListsBoth(Diff(a.elems[i], b.elems[i], IndexPath(path, i)), AllBelow(inner, token), c => AtToken(c, token) && Needed(c, a, b),
                DiffCommon(a, b, path, i + 1), rest, c => FromElement(c, i + 1) && Needed(c, a, b), path, a, c => FromElement(c, i) && Needed(c, a, b));
    } else {
      cs := [];
      forall c
        ensures !(FromElement(c, i) && Needed(c, a, b))
      {
        if FromElement(c, i) && Needed(c, a, b) {
          NeededInside(c, a, b, i);
        }
      }
      ListsNone(path, a, c => FromElement(c, i) && Needed(c, a, b));
    }
  }

  lemma NeededInArrays(c: Change, a: JSON, b: JSON)
    requires a.Arr? && b.Arr? && Fits(a) && Fits(b)
    ensures Needed(c, a, b) <==>
      (FromElement(c, 0) && Needed(c, a, b)) || RemovedFrom(c, |b.elems|, |a.elems|) || AddedFrom(c, b.elems, |a.elems|)
    ensures forall d :: FromElement(c, 0) && (RemovedFrom(d, |b.elems|, |a.elems|) || AddedFrom(d, b.elems, |a.elems|)) ==> Precedes(c, d, a)
    ensures forall d :: RemovedFrom(c, |b.elems|, |a.elems|) && AddedFrom(d, b.elems, |a.elems|) ==> Precedes(c, d, a)
  {
    hide Fits, ArrayIndex;
    FitsSize(a);
    FitsSize(b);
    if c.at == [] {
      DashIsNoIndex();
    }
  }

  lemma DashIsNoIndex()
    ensures ArrayIndex("-").Throw?
  {
    assert !IsDigit("-"[0]);
  }

  // ----- objects

  ghost predicate Increasing(keys: seq<string>) {
    forall i, j :: 0 <= i < j < |keys| ==> KeyLess(keys[i], keys[j])
  }

  lemma FirstIsLess(keys: seq<string>)
    requires Increasing(keys) && keys != []
    ensures Increasing(keys[1..]) && forall k :: k in keys[1..] ==> KeyLess(keys[0], k) && k != keys[0]
  {
    hide KeyLess;
    KeysAreOrdered(keys[0], keys[0]);
    forall i, j | 0 <= i < j < |keys[1..]|
      ensures KeyLess(keys[1..][i], keys[1..][j])
    {
      assert keys[1..][i] == keys[i + 1] && keys[1..][j] == keys[j + 1];
    }
    forall k | k in keys[1..]
      ensures KeyLess(keys[0], k)
    {
      var i :| 0 <= i < |keys[1..]| && keys[1..][i] == k;
      assert keys[i + 1] == k;
    }
  }

  /** A change of the member under one of these keys. */
  predicate UnderKey(c: Change, keys: seq<string>) {
    if c.at != [] then c.at[0] in keys else c.what.Removed? && c.what.token in keys
  }

  predicate NewUnderKey(c: Change, a: map<string, JSON>, b: map<string, JSON>, keys: seq<string>) {
    c.what.KeyAdded? && c.at == [] && c.what.key in keys && c.what.key !in a && c.what.key in b && c.what.value == b[c.what.key]
  }

  /** What one key of the source needs. */
  lemma {:induction false} KeyListed(a: JSON, b: JSON, path: string, k: string) returns (cs: seq<Change>)
    requires a.Obj? && b.Obj? && Fits(a) && Fits(b) && k in a.members
    ensures ListsExactly(if k in b.members then Diff(a.members[k], b.members[k], KeyPath(path, k)) else [RemoveOp(KeyPath(path, k))], path, a, cs,
                         c => UnderKey(c, [k]) && Needed(c, a, b))
    decreases a, 0
  {
    hide Diff, KeyPath, Fits, PointerString, Lists, Ordered;
    if k in b.members {
      FitsMember(a, k);
      FitsMember(b, k);
      var inner := ChangesListed(a.members[k], b.members[k], KeyPath(path, k));
      forall c
        ensures UnderKey(c, [k]) && Needed(c, a, b) <==> AtToken(c, k) && Needed(c, a, b)
      {}
      ListsBelow(Diff(a.members[k], b.members[k], KeyPath(path, k)), inner, path, k, a, b, c => UnderKey(c, [k]) && Needed(c, a, b));
      cs := AllBelow(inner, k);
    } else {
      var removed := Change([], Removed(k));
      ChildStringIs(path, k);
      ListsOne(path, a, removed, c => UnderKey(c, [k]) && Needed(c, a, b));
      cs := [removed];
    }
  }

  lemma {:induction false} KeysListed(a: JSON, b: JSON, path: string, keys: seq<string>) returns (cs: seq<Change>)
    requires a.Obj? && b.Obj? && Fits(a) && Fits(b) && Increasing(keys) && forall k :: k in keys ==> k in a.members
    ensures ListsExactly(DiffKeys(a, b, path, keys), path, a, cs, c => UnderKey(c, keys) && Needed(c, a, b))
    decreases a, 1, |keys|
  {
    hide Needed, Diff, KeyPath, Fits, ListsExactly;
    if keys == [] {
      cs := [];
      ListsNone(path, a, c => UnderKey(c, keys) && Needed(c, a, b));
    } else {
      var k, rest := keys[0], keys[1..];
      assert k in keys;
      var first := KeyListed(a, b, path, k);
      var others := KeysListed(a, b, path, rest);
      FirstIsLess(keys);
      forall c, d
        ensures UnderKey(c, keys) <==> UnderKey(c, [k]) || UnderKey(c, rest)
        ensures UnderKey(c, [k]) && UnderKey(d, rest) ==> Precedes(c, d, a)
      {
        KeysSplit(keys, c, d, a);
      }
      cs := first + others;
      ListsBoth(if k in b.members then Diff(a.members[k], b.members[k], KeyPath(path, k)) else [RemoveOp(KeyPath(path, k))], first,
                c => UnderKey(c, [k]) && Needed(c, a, b), DiffKeys(a, b, path, rest), others, c => UnderKey(c, rest) && Needed(c, a, b), path, a,
                c => UnderKey(c, keys) && Needed(c, a, b));
    }
  }

  /** The changes under the first key come before those under the others. */
  lemma KeysSplit(keys: seq<string>, c: Change, d: Change, a: JSON)
    requires a.Obj? && Increasing(keys) && keys != []
    ensures UnderKey(c, keys) <==> UnderKey(c, [keys[0]]) || UnderKey(c, keys[1..])
    ensures UnderKey(c, [keys[0]]) && UnderKey(d, keys[1..]) ==> Precedes(c, d, a)
  {
    FirstIsLess(keys);
    hide KeyLess, Child;
    assert keys == [keys[0]] + keys[1..];
  }

  lemma {:induction false} NewKeysListed(a: JSON, b: map<string, JSON>, path: string, keys: seq<string>) returns (cs: seq<Change>)
    requires a.Obj? && Increasing(keys) && forall k :: k in keys ==> k in b
    ensures ListsExactly(NewKeys(a.members, b, path, keys), path, a, cs, c => NewUnderKey(c, a.members, b, keys))
    decreases |keys|
  {
    hide KeyPath, PointerString, Lists, Ordered, KeyLess;
    if keys == [] {
      cs := [];
      ListsNone(path, a, c => NewUnderKey(c, a.members, b, keys));
    } else {
      var k, rest := keys[0], keys[1..];
      assert k in keys;
      FirstIsLess(keys);
      var others := NewKeysListed(a, b, path, rest);
      if k in a.members {
        assert [] + NewKeys(a.members, b, path, rest) == NewKeys(a.members, b, path, rest);
        cs := others;
      } else {
        var first := Change([], KeyAdded(k, b[k]));
        ChildStringIs(path, k);
        ListsOne(path, a, first, c => c == first);
        cs := [first] + others;
        ListsBoth([AddOp(KeyPath(path, k), b[k])], [first], c => c == first,
                  NewKeys(a.members, b, path, rest), others, c => NewUnderKey(c, a.members, b, rest), path, a,
                  c => NewUnderKey(c, a.members, b, keys));
      }
    }
  }

  lemma NeededInObjects(c: Change, a: JSON, b: JSON, ka: seq<string>, kb: seq<string>)
    requires a.Obj? && b.Obj?
    requires forall k :: k in ka <==> k in a.members
    requires forall k :: k in kb <==> k in b.members
    ensures Needed(c, a, b) <==> (UnderKey(c, ka) && Needed(c, a, b)) || NewUnderKey(c, a.members, b.members, kb)
    ensures forall d :: UnderKey(c, ka) && NewUnderKey(d, a.members, b.members, kb) ==> Precedes(c, d, a)
  {}

  // ----- the theorem

  lemma {:induction false} ChangesListed(a: JSON, b: JSON, path: string) returns (cs: seq<Change>)
    requires Fits(a) && Fits(b)
    ensures ListsExactly(Diff(a, b, path), path, a, cs, c => Needed(c, a, b))
    decreases a, 2
  {
    hide Needed, Fits, ListsExactly, Operation, DiffCommon, DiffKeys, NewKeys, Removals, Appends, KeyOrder;
    if a == b {
      forall c ensures !Needed(c, a, b) { NothingNeeded(c, a); }
      cs := [];
      ListsNone(path, a, c => Needed(c, a, b));
    } else if !(SameType(a, b) && IsContainer(a)) {
      forall c ensures Needed(c, a, b) <==> c == Change([], Replaced(b)) { OneNeeded(c, a, b); }
      cs := [Change([], Replaced(b))];
      ReplacedHere(path, b);
      ListsOne(path, a, Change([], Replaced(b)), c => Needed(c, a, b));
    } else if a.Arr? {
      cs := ArraysListed(a, b, path);
    } else {
      cs := ObjectsListed(a, b, path);
    }
  }

  lemma ReplacedHere(path: string, b: JSON)
    ensures Operation(Change([], Replaced(b)), path) == ReplaceOp(path, b)
  {
    assert path + "" == path;
  }

  lemma {:induction false} ArraysListed(a: JSON, b: JSON, path: string) returns (cs: seq<Change>)
    requires a.Arr? && b.Arr? && Fits(a) && Fits(b)
    ensures ListsExactly(DiffCommon(a, b, path, 0) + Removals(path, |b.elems|, |a.elems|) + Appends(path, b.elems, |a.elems|), path, a, cs, c => Needed(c, a, b))
    decreases a, 1, |a.elems| + 1
  {
    hide Needed, Fits, ListsExactly, FromElement, DiffCommon, Removals, Appends;
    FitsSize(a);
    var common := CommonListed(a, b, path, 0);
    var removed := RemovalsListed(a, path, |b.elems|, |a.elems|);
    var added := AppendsListed(a, path, b.elems, |a.elems|);
    forall c
      ensures Needed(c, a, b) <==> (FromElement(c, 0) && Needed(c, a, b)) || RemovedFrom(c, |b.elems|, |a.elems|) || AddedFrom(c, b.elems, |a.elems|)
      ensures forall d :: FromElement(c, 0) && (RemovedFrom(d, |b.elems|, |a.elems|) || AddedFrom(d, b.elems, |a.elems|)) ==> Precedes(c, d, a)
      ensures forall d :: RemovedFrom(c, |b.elems|, |a.elems|) && AddedFrom(d, b.elems, |a.elems|) ==> Precedes(c, d, a)
    {
      NeededInArrays(c, a, b);
    }
    ListsBoth(DiffCommon(a, b, path, 0), common, c => FromElement(c, 0) && Needed(c, a, b),
              Removals(path, |b.elems|, |a.elems|), removed, c => RemovedFrom(c, |b.elems|, |a.elems|), path, a,
              c => (FromElement(c, 0) && Needed(c, a, b)) || RemovedFrom(c, |b.elems|, |a.elems|));
    ListsBoth(DiffCommon(a, b, path, 0) + Removals(path, |b.elems|, |a.elems|), common + removed,
              c => (FromElement(c, 0) && Needed(c, a, b)) || RemovedFrom(c, |b.elems|, |a.elems|),
              Appends(path, b.elems, |a.elems|), added, c => AddedFrom(c, b.elems, |a.elems|), path, a, c => Needed(c, a, b));
    cs := common + removed + added;
  }

  lemma ObjectsDiffIs(a: JSON, b: JSON, path: string) returns (ka: seq<string>, kb: seq<string>)
    requires a.Obj? && b.Obj? && a != b
    ensures Increasing(ka) && Increasing(kb) && |ka| == |a.members.Keys|
    ensures (forall k :: k in ka <==> k in a.members) && (forall k :: k in kb <==> k in b.members)
    ensures Diff(a, b, path) == DiffKeys(a, b, path, ka) + NewKeys(a.members, b.members, path, kb)
  {
    hide KeyLess, KeyOrder, DiffKeys, NewKeys;
    KeyOrderVisitsAll(a.members.Keys);
    KeyOrderVisitsAll(b.members.Keys);
    ka, kb := KeyOrder(a.members.Keys), KeyOrder(b.members.Keys);
  }

  lemma {:induction false} ObjectsListed(a: JSON, b: JSON, path: string) returns (cs: seq<Change>)
    requires a.Obj? && b.Obj? && a != b && Fits(a) && Fits(b)
    ensures ListsExactly(Diff(a, b, path), path, a, cs, c => Needed(c, a, b))
    decreases a, 1, |a.members.Keys| + 1
  {
    hide Needed, Fits, ListsExactly, DiffKeys, NewKeys, Diff, UnderKey, NewUnderKey, Increasing, Precedes;
    var ka, kb := ObjectsDiffIs(a, b, path);
    var kept := KeysListed(a, b, path, ka);
    var added := NewKeysListed(a, b.members, path, kb);
    forall c
      ensures Needed(c, a, b) <==> (UnderKey(c, ka) && Needed(c, a, b)) || NewUnderKey(c, a.members, b.members, kb)
      ensures forall d :: UnderKey(c, ka) && NewUnderKey(d, a.members, b.members, kb) ==> Precedes(c, d, a)
    {
      NeededInObjects(c, a, b, ka, kb);
    }
    ListsBoth(DiffKeys(a, b, path, ka), kept, c => UnderKey(c, ka) && Needed(c, a, b),
              NewKeys(a.members, b.members, path, kb), added, c => NewUnderKey(c, a.members, b.members, kb), path, a, c => Needed(c, a, b));
    cs := kept + added;
  }

  // ----- there is no other

  /** There is only one way to put changes in order. */
  lemma {:induction false} OneOrder(cs: seq<Change>, cs': seq<Change>, a: JSON)
    requires Ordered(cs, a) && Ordered(cs', a) && forall c :: c in cs <==> c in cs'
    ensures cs == cs'
    decreases |cs|
  {
    hide Precedes;
    SameMembers(cs, cs');
    if cs != [] {
      FirstInOrder(cs, cs', a);
      RestInOrder(cs, a);
      RestInOrder(cs', a);
      OneOrder(cs[1..], cs'[1..], a);
      assert cs == [cs[0]] + cs[1..] && cs' == [cs'[0]] + cs'[1..];
    }
  }

  lemma FirstInOrder(cs: seq<Change>, cs': seq<Change>, a: JSON)
    requires Ordered(cs, a) && Ordered(cs', a) && forall c :: c in cs <==> c in cs'
    requires cs != [] && cs' != []
    ensures cs[0] == cs'[0]
  {
    hide Precedes;
    assert cs[0] in cs && cs'[0] in cs';
    var i :| 0 <= i < |cs'| && cs'[i] == cs[0];
    var j :| 0 <= j < |cs| && cs[j] == cs'[0];
    if i > 0 && j > 0 {
      PrecedesOneWay(cs[0], cs'[0], a);
    }
  }

  lemma RestInOrder(cs: seq<Change>, a: JSON)
    requires Ordered(cs, a) && cs != []
    ensures Ordered(cs[1..], a) && forall c :: c in cs[1..] <==> c in cs && c != cs[0]
  {
    hide Precedes;
    forall i, j | 0 <= i < j < |cs[1..]|
      ensures Precedes(cs[1..][i], cs[1..][j], a)
    {
      assert cs[1..][i] == cs[i + 1] && cs[1..][j] == cs[j + 1];
    }
    forall c
      ensures c in cs[1..] <==> c in cs && c != cs[0]
    {
      PrecedesOneWay(cs[0], cs[0], a);
      if c in cs[1..] {
        var i :| 0 <= i < |cs[1..]| && cs[1..][i] == c;
        assert cs[i + 1] == c;
      }
    }
  }

  lemma OrderedIsOnce(cs: seq<Change>, a: JSON)
    requires Ordered(cs, a)
    ensures forall i, j :: 0 <= i < j < |cs| ==> cs[i] != cs[j]
  {
    hide Precedes;
    forall i, j | 0 <= i < j < |cs|
      ensures cs[i] != cs[j]
    {
      PrecedesOneWay(cs[i], cs[j], a);
    }
  }

  /** The changes are exactly those that are needed. */
  ghost predicate Covers(cs: seq<Change>, a: JSON, b: JSON) {
    forall c :: c in cs <==> Needed(c, a, b)
  }

  /**
   * diff(a, b) is the list of the operations for exactly the needed changes, each once and in the order of
   * the loops: nothing both documents share is touched, and containers of one type are never replaced as a
   * whole. There is one such list of changes and no other.
   */
  lemma DiffIsExact(a: JSON, b: JSON, path: string)
    requires Fits(a) && Fits(b)
    ensures exists cs :: Ordered(cs, a) && Covers(cs, a, b)
    ensures forall cs :: Ordered(cs, a) && Covers(cs, a, b) ==>
      Lists(Diff(a, b, path), path, cs) && forall i, j :: 0 <= i < j < |cs| ==> cs[i] != cs[j]
  {
    var listed := ChangesListed(a, b, path);
    assert Ordered(listed, a) && Covers(listed, a, b) && Lists(Diff(a, b, path), path, listed);
    hide Lists, Needed, Ordered, Diff, Fits, ListsExactly;
    forall cs | Ordered(cs, a) && Covers(cs, a, b)
      ensures Lists(Diff(a, b, path), path, cs) && forall i, j :: 0 <= i < j < |cs| ==> cs[i] != cs[j]
    {
      OneOrder(cs, listed, a);
      OrderedIsOnce(cs, a);
    }
  }

  lemma SameMembers(cs: seq<Change>, cs': seq<Change>)
    requires forall c :: c in cs <==> c in cs'
    ensures cs == [] <==> cs' == []
  {
    if cs != [] {
      assert cs[0] in cs;
    }
    if cs' != [] {
      assert cs'[0] in cs';
    }
  }

  /** The patch is empty exactly when the documents are equal. */
  lemma DiffIsEmpty(a: JSON, b: JSON, path: string)
    requires Fits(a) && Fits(b)
    ensures Diff(a, b, path) == [] <==> a == b
  {
    var cs := ChangesListed(a, b, path);
    var cs' := ChangesListed(a, b, "");
    hide Needed, Ordered, Fits, DiffCommon, DiffKeys;
    SameMembers(cs, cs');
    PatchOfDiff(a, b);
  }
}
