/**
 * JSON documents: null, booleans, one kind of integer, strings, arrays and objects. An object is a map, as
 * std::map is, and KeyOrder gives the order in which its iterators visit it.
 */
module Json {
  datatype JSON =
    | Null
    | Bool(b: bool)
    | Int(i: int)
    | Str(s: string)
    | Arr(elems: seq<JSON>)
    | Obj(members: map<string, JSON>)

  /** The exceptions of the library, by class and id; AssertionFailed is a JSON_ASSERT that does not hold. */
  datatype Error =
    | ParseError(id: nat)
    | OutOfRange(id: nat)
    | OtherError(id: nat)
    | AssertionFailed

  datatype Result<+T> = Ok(value: T) | Throw(error: Error)
  {
    predicate IsFailure() {
      Throw?
    }

    function PropagateFailure<U>(): Result<U>
      requires Throw?
    {
      Throw(error)
    }

    function Extract(): T
      requires Ok?
    {
      value
    }
  }

  predicate SameType(x: JSON, y: JSON) {
    match x
    case Null => y.Null?
    case Bool(_) => y.Bool?
    case Int(_) => y.Int?
    case Str(_) => y.Str?
    case Arr(_) => y.Arr?
    case Obj(_) => y.Obj?
  }

  // ----- the order of keys

  /** std::less on strings: lexicographic by character. */
  predicate KeyLess(x: string, y: string) {
    y != "" && (x == "" || x[0] < y[0] || (x[0] == y[0] && KeyLess(x[1..], y[1..])))
  }

  lemma {:induction false} KeysAreOrdered(x: string, y: string)
    ensures x == y || KeyLess(x, y) || KeyLess(y, x)
    ensures !(KeyLess(x, y) && KeyLess(y, x)) && !KeyLess(x, x)
  {
    if x != "" && y != "" {
      KeysAreOrdered(x[1..], y[1..]);
      assert x == [x[0]] + x[1..] && y == [y[0]] + y[1..];
    }
    if x != "" {
      KeysAreOrdered(x[1..], x[1..]);
    }
  }

  lemma {:induction false} KeyLessTransitive(x: string, y: string, z: string)
    requires KeyLess(x, y) && KeyLess(y, z)
    ensures KeyLess(x, z)
    decreases |x|
  {
    if x != "" && x[0] == y[0] == z[0] {
      KeyLessTransitive(x[1..], y[1..], z[1..]);
    }
  }

  /** The keys agree up to k; there the first ends before the second, or has the smaller character. */
  predicate SmallerAt(x: string, y: string, k: nat) {
    k <= |x| && k < |y| && x[..k] == y[..k] && (k == |x| || x[k] < y[k])
  }

  lemma SameHead(x: string, y: string, k: nat)
    requires k <= |x| && k <= |y| && x[..k] == y[..k]
    ensures k > 0 ==> x[0] == y[0]
  {
    if k > 0 {
      assert x[..k][0] == y[..k][0];
    }
  }

  /** The order is that of the first difference, and a proper prefix is less. */
  lemma {:induction false} LessAtFirstDifference(x: string, y: string)
    ensures KeyLess(x, y) <==> exists k: nat :: SmallerAt(x, y, k)
  {
    if x != "" && y != "" && x[0] == y[0] {
      LessAtFirstDifference(x[1..], y[1..]);
      if KeyLess(x, y) {
        var k: nat :| SmallerAt(x[1..], y[1..], k);
        assert x[..k + 1] == [x[0]] + x[1..][..k] && y[..k + 1] == [y[0]] + y[1..][..k];
        assert SmallerAt(x, y, k + 1);
      }
      if k: nat :| SmallerAt(x, y, k) {
        assert k > 0;
        assert x[1..][..k - 1] == x[..k][1..] && y[1..][..k - 1] == y[..k][1..];
        assert SmallerAt(x[1..], y[1..], k - 1);
      }
    } else {
      if KeyLess(x, y) {
        assert SmallerAt(x, y, 0);
      }
      if k: nat :| SmallerAt(x, y, k) {
        SameHead(x, y, k);
      }
    }
  }

  /** The keys of a map in the order its iterators visit them. */
  ghost function KeyOrder(keys: set<string>): (s: seq<string>)
    ensures |s| == |keys|
  {
    if keys == {} then []
    else
      var k := Least(keys);
      [k] + KeyOrder(keys - {k})
  }

  ghost predicate IsLeast(keys: set<string>, k: string) {
    k in keys && forall k' :: k' in keys ==> k' == k || KeyLess(k, k')
  }

  ghost function Least(keys: set<string>): (k: string)
    requires keys != {}
    ensures IsLeast(keys, k)
  {
    LeastExists(keys);
    var k :| IsLeast(keys, k);
    k
  }

  lemma {:induction false} LeastExists(keys: set<string>)
    requires keys != {}
    ensures exists k :: IsLeast(keys, k)
  {
    hide KeyLess;
    var k0 :| k0 in keys;
    var rest := keys - {k0};
    assert forall k' :: k' in keys ==> k' == k0 || k' in rest;
    if rest == {} {
      assert IsLeast(keys, k0);
    } else {
      LeastExists(rest);
      var k :| IsLeast(rest, k);
      KeysAreOrdered(k0, k);
      if KeyLess(k0, k) {
        forall k' | k' in rest
          ensures KeyLess(k0, k')
        {
          if k' != k {
            KeyLessTransitive(k0, k, k');
          }
        }
        assert IsLeast(keys, k0);
      } else {
        assert IsLeast(keys, k);
      }
    }
  }

  ghost predicate Visits(s: seq<string>, keys: set<string>) {
    && (forall k :: k in s <==> k in keys)
    && (forall i, j :: 0 <= i < j < |s| ==> KeyLess(s[i], s[j]))
  }

  /** Iteration visits every key exactly once, in increasing order. */
  lemma {:induction false} KeyOrderVisitsAll(keys: set<string>)
    ensures Visits(KeyOrder(keys), keys)
  {
    if keys != {} {
      var k := Least(keys);
      KeyOrderVisitsAll(keys - {k});
      LeastFirst(keys, k, KeyOrder(keys - {k}));
    }
  }

  lemma LeastFirst(keys: set<string>, k: string, rest: seq<string>)
    requires IsLeast(keys, k) && Visits(rest, keys - {k})
    ensures Visits([k] + rest, keys)
  {
    hide KeyLess;
    var s := [k] + rest;
    forall x
      ensures x in s <==> x in keys
    {
      assert x in s <==> x == k || x in rest;
    }
    forall i, j | 0 <= i < j < |s|
      ensures KeyLess(s[i], s[j])
    {
      assert s[j] == rest[j - 1];
      assert rest[j - 1] in rest;
      if i > 0 {
        assert s[i] == rest[i - 1];
      }
    }
  }

  // ----- bounds

  /** A size_t: no array has this many elements. */
  const SIZE_MAX := 0xFFFF_FFFF_FFFF_FFFF

  /** Every array in the document fits in memory. */
  predicate Fits(j: JSON) {
    match j
    case Arr(elems) => |elems| < SIZE_MAX && forall i :: 0 <= i < |elems| ==> Fits(elems[i])
    case Obj(members) => forall k :: k in members ==> Fits(members[k])
    case _ => true
  }
}
