/** The sort that EndMap does on the keys of a map. */
module FlexSort {
  import opened Bytes
  import opened StringOrder

  /** Where the next key goes among the sorted ones. */
  function Insert(keys: seq<seq<byte>>, order: seq<nat>, next: nat): (r: seq<nat>)
    requires next < |keys| && forall i :: 0 <= i < |order| ==> order[i] < |keys|
    ensures |r| == |order| + 1 && forall i :: 0 <= i < |r| ==> r[i] < |keys|
    ensures forall j :: j in r <==> j == next || j in order
  {
    if order == [] then [next]
    else if StringLessThan(keys[next], keys[order[0]]) then [next] + order
    else
      assert forall j :: j in order <==> j == order[0] || j in order[1..];
      [order[0]] + Insert(keys, order[1..], next)
  }

  /** The places of the keys, from the least key to the greatest. */
  function Order(keys: seq<seq<byte>>): (r: seq<nat>)
    ensures |r| == |keys| && forall i :: 0 <= i < |r| ==> r[i] < |keys|
    ensures forall j :: j in r <==> 0 <= j < |keys|
  {
    OrderUpTo(keys, |keys|)
  }

  function OrderUpTo(keys: seq<seq<byte>>, n: nat): (r: seq<nat>)
    requires n <= |keys|
    ensures |r| == n && forall i :: 0 <= i < |r| ==> r[i] < |keys|
    ensures forall j :: j in r <==> 0 <= j < n
  {
    if n == 0 then [] else Insert(keys, OrderUpTo(keys, n - 1), n - 1)
  }

  function Permuted<T>(xs: seq<T>, order: seq<nat>): (r: seq<T>)
    requires forall i :: 0 <= i < |order| ==> order[i] < |xs|
    ensures |r| == |order| && forall i :: 0 <= i < |r| ==> r[i] == xs[order[i]]
  {
    seq(|order|, i requires 0 <= i < |order| => xs[order[i]])
  }

  predicate StrictlySorted(keys: seq<seq<byte>>) {
    forall i, j :: 0 <= i < j < |keys| ==> StringLessThan(keys[i], keys[j])
  }

  predicate Distinct(keys: seq<seq<byte>>) {
    forall i, j :: 0 <= i < j < |keys| ==> keys[i] != keys[j]
  }

  lemma {:induction false} InsertSorts(keys: seq<seq<byte>>, order: seq<nat>, next: nat)
    requires Distinct(keys) && next < |keys| && (forall i :: 0 <= i < |order| ==> order[i] < |keys|)
    requires next !in order && StrictlySorted(Permuted(keys, order))
    ensures StrictlySorted(Permuted(keys, Insert(keys, order, next)))
    decreases |order|
  {
    hide StringLessThan;
    var r := Insert(keys, order, next);
    if order != [] {
      var sorted := Permuted(keys, order);
      if StringLessThan(keys[next], keys[order[0]]) {
        forall i, j | 0 <= i < j < |r|
          ensures StringLessThan(keys[r[i]], keys[r[j]])
        {
          assert StringLessThan(keys[next], sorted[0]);
          if i == 0 && j > 1 {
            LessIsTransitive(keys[next], sorted[0], sorted[j - 1]);
          } else if i > 0 {
            assert StringLessThan(sorted[i - 1], sorted[j - 1]);
          }
        }
      } else {
        assert order[0] in order;
        EquivalentIsEqual(keys[next], keys[order[0]]);
        assert forall i :: 0 <= i < |order| - 1 ==> Permuted(keys, order[1..])[i] == sorted[i + 1];
        InsertSorts(keys, order[1..], next);
        var tail := Insert(keys, order[1..], next);
        forall t | t in tail
          ensures StringLessThan(keys[order[0]], keys[t])
        {
          if t != next {
            var k :| 0 <= k < |order[1..]| && order[1..][k] == t;
            assert StringLessThan(sorted[0], sorted[k + 1]);
          }
        }
        HeadIsLeast(keys, order[0], tail);
      }
    }
  }

  lemma HeadIsLeast(keys: seq<seq<byte>>, head: nat, tail: seq<nat>)
    requires head < |keys| && (forall i :: 0 <= i < |tail| ==> tail[i] < |keys|)
    requires StrictlySorted(Permuted(keys, tail)) && forall t :: t in tail ==> StringLessThan(keys[head], keys[t])
    ensures StrictlySorted(Permuted(keys, [head] + tail))
  {
    hide StringLessThan;
    var r := Permuted(keys, [head] + tail);
    forall i, j | 0 <= i < j < |r|
      ensures StringLessThan(r[i], r[j])
    {
      assert tail[j - 1] in tail;
      if i > 0 {
        assert StringLessThan(Permuted(keys, tail)[i - 1], Permuted(keys, tail)[j - 1]);
      }
    }
  }

  lemma {:induction false} OrderSorts(keys: seq<seq<byte>>, n: nat)
    requires Distinct(keys) && n <= |keys|
    ensures StrictlySorted(Permuted(keys, OrderUpTo(keys, n)))
  {
    if n > 0 {
      OrderSorts(keys, n - 1);
      InsertSorts(keys, OrderUpTo(keys, n - 1), n - 1);
    }
  }

  /** Sorting distinct keys leaves no choice: any order that lists every key once, increasing, is this one. */
  lemma {:induction false} SortedIsUnique(xs: seq<seq<byte>>, ys: seq<seq<byte>>)
    requires StrictlySorted(xs) && StrictlySorted(ys) && forall k :: k in xs <==> k in ys
    ensures xs == ys
    decreases |xs|
  {
    hide StringLessThan;
    if xs == [] {
      assert forall i :: 0 <= i < |ys| ==> ys[i] in ys;
    } else {
      assert xs[0] in xs && ys != [];
      assert ys[0] in ys;
      var i :| 0 <= i < |ys| && ys[i] == xs[0];
      var j :| 0 <= j < |xs| && xs[j] == ys[0];
      EquivalentIsEqual(xs[0], ys[0]);
      assert xs[0] == ys[0];
      forall k
        ensures k in xs[1..] <==> k in ys[1..]
      {
        RestOfSorted(xs, k);
        RestOfSorted(ys, k);
      }
      SortedIsUnique(xs[1..], ys[1..]);
      assert xs == [xs[0]] + xs[1..] && ys == [ys[0]] + ys[1..];
    }
  }

  lemma RestOfSorted(xs: seq<seq<byte>>, k: seq<byte>)
    requires StrictlySorted(xs) && xs != []
    ensures k in xs[1..] <==> k in xs && k != xs[0]
  {
    hide StringLessThan;
    if k in xs[1..] {
      var i :| 0 <= i < |xs[1..]| && xs[1..][i] == k;
      assert StringLessThan(xs[0], xs[i + 1]);
      EquivalentIsEqual(xs[0], k);
    }
  }
}
