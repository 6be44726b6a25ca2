/** StringLessThan, the order of the builder's string pool. */
module StringOrder {
  import opened Bytes

  /** memcmp: the sign of the first difference among the first n bytes. */
  function MemCmp(a: seq<byte>, b: seq<byte>, n: nat): int
    requires n <= |a| && n <= |b|
  {
    if n == 0 then 0
    else if a[0] != b[0] then a[0] - b[0]
    else MemCmp(a[1..], b[1..], n - 1)
  }

  predicate StringLessThan(a: seq<byte>, b: seq<byte>) {
    var cmp := MemCmp(a, b, if |a| < |b| then |a| else |b|);
    if cmp == 0 then |a| < |b| else cmp < 0
  }

  lemma LessByHead(a: seq<byte>, b: seq<byte>)
    ensures StringLessThan(a, b) ==
      if b == [] then false
      else if a == [] then true
      else if a[0] != b[0] then a[0] < b[0]
      else StringLessThan(a[1..], b[1..])
  {}

  /** Strings the pool's set takes for equivalent, neither being less, are equal; so a pooled offset denotes the string asked for. */
  lemma {:induction false} EquivalentIsEqual(a: seq<byte>, b: seq<byte>)
    ensures !StringLessThan(a, b) && !StringLessThan(b, a) <==> a == b
    ensures !(StringLessThan(a, b) && StringLessThan(b, a))
  {
    LessByHead(a, b);
    LessByHead(b, a);
    if a != [] && b != [] && a[0] == b[0] {
      EquivalentIsEqual(a[1..], b[1..]);
      assert a == [a[0]] + a[1..] && b == [b[0]] + b[1..];
    }
  }

  lemma {:induction false} LessIsTransitive(a: seq<byte>, b: seq<byte>, c: seq<byte>)
    requires StringLessThan(a, b) && StringLessThan(b, c)
    ensures StringLessThan(a, c)
    decreases |a|
  {
    LessByHead(a, b);
    LessByHead(b, c);
    LessByHead(a, c);
    if a != [] && a[0] == b[0] == c[0] {
      LessIsTransitive(a[1..], b[1..], c[1..]);
    }
  }

  /** The strings agree up to k; there the first ends before the second, or has the smaller byte. */
  predicate SmallerAt(a: seq<byte>, b: seq<byte>, k: nat) {
    k <= |a| && k < |b| && a[..k] == b[..k] && (k == |a| || a[k] < b[k])
  }

  lemma SameHead(a: seq<byte>, b: seq<byte>, k: nat)
    requires k <= |a| && k <= |b| && a[..k] == b[..k]
    ensures k > 0 ==> a[0] == b[0]
  {
    if k > 0 {
      assert a[..k][0] == b[..k][0];
    }
  }

  /** The order is that of the first difference, and a proper prefix is less. */
  lemma {:induction false} LessAtFirstDifference(a: seq<byte>, b: seq<byte>)
    ensures StringLessThan(a, b) <==> exists k: nat :: SmallerAt(a, b, k)
  {
    LessByHead(a, b);
    hide StringLessThan;
    if a != [] && b != [] && a[0] == b[0] {
      LessAtFirstDifference(a[1..], b[1..]);
      if StringLessThan(a, b) {
        var k: nat :| SmallerAt(a[1..], b[1..], k);
        assert a[..k + 1] == [a[0]] + a[1..][..k] && b[..k + 1] == [b[0]] + b[1..][..k];
        assert SmallerAt(a, b, k + 1);
      }
      if k: nat :| SmallerAt(a, b, k) {
        assert k > 0;
        assert a[1..][..k - 1] == a[..k][1..] && b[1..][..k - 1] == b[..k][1..];
        assert SmallerAt(a[1..], b[1..], k - 1);
      }
    } else {
      if StringLessThan(a, b) {
        assert SmallerAt(a, b, 0);
      }
      if k: nat :| SmallerAt(a, b, k) {
        SameHead(a, b, k);
      }
    }
  }
}
