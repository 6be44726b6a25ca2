/** ordered_map: a map kept as a vector of pairs in the order of insertion. */
module OrderedMap {
  import opened Common

  // ----- what a vector of pairs means

  /** Where a key is, or the length when it is nowhere: what the search loops compute. */
  function FindIndex<K(==), V>(items: seq<(K, V)>, key: K): (i: nat)
    ensures i <= |items|
    ensures i < |items| ==> items[i].0 == key
    ensures forall j :: 0 <= j < i ==> items[j].0 != key
  {
    if items == [] then 0 else if items[0].0 == key then 0 else 1 + FindIndex(items[1..], key)
  }

  predicate UniqueKeys<K(==), V>(items: seq<(K, V)>) {
    forall i, j :: 0 <= i < j < |items| ==> items[i].0 != items[j].0
  }

  function Keys<K, V>(items: seq<(K, V)>): (s: seq<K>)
    ensures |s| == |items|
  {
    seq(|items|, i requires 0 <= i < |items| => items[i].0)
  }

  function ToMap<K, V>(items: seq<(K, V)>): map<K, V> {
    if items == [] then map[] else ToMap(items[..|items| - 1])[items[|items| - 1].0 := items[|items| - 1].1]
  }

  /** With unique keys, wherever a key stands is where the search finds it. */
  lemma FoundThere<K, V>(items: seq<(K, V)>, key: K, j: nat)
    requires UniqueKeys(items) && j < |items| && items[j].0 == key
    ensures FindIndex(items, key) == j
  {}

  lemma {:induction false} ToMapMeans<K, V>(items: seq<(K, V)>, key: K)
    requires UniqueKeys(items)
    ensures key in ToMap(items) <==> FindIndex(items, key) < |items|
    ensures key in ToMap(items) ==> ToMap(items)[key] == items[FindIndex(items, key)].1
  {
    if items != [] {
      var n := |items| - 1;
      var front := items[..n];
      ToMapMeans(front, key);
      var k := FindIndex(front, key);
      if k < n {
        assert items[k].0 == key;
        FoundThere(items, key, k);
      }
    }
  }

  // ----- what the operations do

  function Emplaced<K(==), V>(items: seq<(K, V)>, key: K, value: V): seq<(K, V)> {
    if FindIndex(items, key) < |items| then items else items + [(key, value)]
  }

  function Without<T>(items: seq<T>, first: nat, last: nat): seq<T>
    requires first <= last <= |items|
  {
    items[..first] + items[last..]
  }

  function Erased<K(==), V>(items: seq<(K, V)>, key: K): seq<(K, V)> {
    var i := FindIndex(items, key);
    if i < |items| then Without(items, i, i + 1) else items
  }

  // ----- the same on a map and the list of its keys in insertion order

  datatype Abstract<K, V> = Abstract(members: map<K, V>, order: seq<K>)

  function IndexOf<K(==)>(order: seq<K>, key: K): (i: nat)
    ensures i <= |order| && (i < |order| ==> order[i] == key)
  {
    if order == [] || order[0] == key then 0 else 1 + IndexOf(order[1..], key)
  }

  function AbstractEmplace<K(==), V>(a: Abstract<K, V>, key: K, value: V): Abstract<K, V> {
    if key in a.members then a else Abstract(a.members[key := value], a.order + [key])
  }

  function AbstractErase<K(==), V>(a: Abstract<K, V>, key: K): Abstract<K, V> {
    var i := IndexOf(a.order, key);
    Abstract(a.members - {key}, if i < |a.order| then Without(a.order, i, i + 1) else a.order)
  }

  function AbstractEraseRange<K(==), V>(a: Abstract<K, V>, first: nat, last: nat): Abstract<K, V>
    requires first <= last <= |a.order|
  {
    Abstract(a.members - (set k | k in a.order[first..last]), Without(a.order, first, last))
  }

  /** The vector is the abstract map: unique keys, the same members, the same order. */
  ghost predicate Represents<K, V>(items: seq<(K, V)>, a: Abstract<K, V>) {
    UniqueKeys(items) && ToMap(items) == a.members && Keys(items) == a.order
  }

  lemma EmplaceRefines<K, V>(items: seq<(K, V)>, a: Abstract<K, V>, key: K, value: V)
    requires Represents(items, a)
    ensures Represents(Emplaced(items, key, value), AbstractEmplace(a, key, value))
  {
    ToMapMeans(items, key);
    if FindIndex(items, key) == |items| {
      AppendedMap(items, key, value);
    }
  }

  lemma AppendedMap<K, V>(items: seq<(K, V)>, key: K, value: V)
    requires UniqueKeys(items) && FindIndex(items, key) == |items|
    ensures var longer := items + [(key, value)];
      UniqueKeys(longer) && ToMap(longer) == ToMap(items)[key := value] && Keys(longer) == Keys(items) + [key]
  {
    hide FindIndex, UniqueKeys, ToMap, Keys;
    AppendedUnique(items, key, value);
    AppendedMembers(items, (key, value));
    AppendedKeys(items, (key, value));
  }

  lemma AppendedMembers<K, V>(items: seq<(K, V)>, item: (K, V))
    ensures ToMap(items + [item]) == ToMap(items)[item.0 := item.1]
  {
    assert (items + [item])[..|items|] == items;
  }

  lemma AppendedKeys<K, V>(items: seq<(K, V)>, item: (K, V))
    ensures Keys(items + [item]) == Keys(items) + [item.0]
  {}

  lemma AppendedUnique<K, V>(items: seq<(K, V)>, key: K, value: V)
    requires UniqueKeys(items) && FindIndex(items, key) == |items|
    ensures UniqueKeys(items + [(key, value)])
  {
    hide ToMap, Keys;
    var longer := items + [(key, value)];
    forall i, j | 0 <= i < j < |longer|
      ensures longer[i].0 != longer[j].0
    {
      assert longer[i] == items[i];
    }
  }

  lemma WithoutUnique<K, V>(items: seq<(K, V)>, first: nat, last: nat)
    requires UniqueKeys(items) && first <= last <= |items|
    ensures UniqueKeys(Without(items, first, last))
    ensures Keys(Without(items, first, last)) == Without(Keys(items), first, last)
  {
    var rest := Without(items, first, last);
    forall i, j | 0 <= i < j < |rest|
      ensures rest[i].0 != rest[j].0
    {
      var i', j' := if i < first then i else i + (last - first), if j < first then j else j + (last - first);
      assert rest[i] == items[i'] && rest[j] == items[j'] && i' < j';
    }
  }

  /** After a range is erased, a key is there exactly when it was there outside the range, with the value it had. */
  lemma WithoutMembers<K, V>(items: seq<(K, V)>, first: nat, last: nat, key: K)
    requires UniqueKeys(items) && first <= last <= |items|
    ensures var rest := ToMap(Without(items, first, last)); var i := FindIndex(items, key);
      && (key in rest <==> i < |items| && !(first <= i < last))
      && (key in rest ==> key in ToMap(items) && rest[key] == ToMap(items)[key])
  {
    hide ToMap, FindIndex, UniqueKeys;
    var rest := Without(items, first, last);
    WithoutUnique(items, first, last);
    ToMapMeans(items, key);
    ToMapMeans(rest, key);
    var i, j := FindIndex(items, key), FindIndex(rest, key);
    assert i < |items| && !(first <= i < last) ==> j < |rest| by {
      if i < |items| && !(first <= i < last) {
        StillThere(items, first, last, i);
      }
    }
    if j < |rest| {
      ComesFrom(items, first, last, j);
      FoundThere(items, key, if j < first then j else j + (last - first));
    }
  }

  /** Where an entry that is left was before. */
  lemma ComesFrom<T>(items: seq<T>, first: nat, last: nat, j: nat)
    requires first <= last <= |items| && j < |Without(items, first, last)|
    ensures var i := if j < first then j else j + (last - first); i < |items| && Without(items, first, last)[j] == items[i]
  {}

  /** Where an entry outside an erased range has moved. */
  lemma StillThere<K, V>(items: seq<(K, V)>, first: nat, last: nat, i: nat)
    requires first <= last <= |items| && i < |items| && !(first <= i < last)
    ensures items[i] in Without(items, first, last)
  {
    var rest := Without(items, first, last);
    if i < first {
      assert rest[i] == items[i];
    } else {
      assert rest[i - (last - first)] == items[i];
    }
  }

  lemma EraseRangeRefines<K, V>(items: seq<(K, V)>, a: Abstract<K, V>, first: nat, last: nat)
    requires Represents(items, a) && first <= last <= |items|
    ensures Represents(Without(items, first, last), AbstractEraseRange(a, first, last))
  {
    WithoutUnique(items, first, last);
    var rest, expected := ToMap(Without(items, first, last)), AbstractEraseRange(a, first, last).members;
    hide ToMap, FindIndex, Keys;
    forall key
      ensures AgreeAt(rest, expected, key)
    {
      WithoutMembers(items, first, last, key);
      ToMapMeans(items, key);
      InRange(items, first, last, key);
    }
    AgreeEverywhere(rest, expected);
  }

  lemma InRange<K, V>(items: seq<(K, V)>, first: nat, last: nat, key: K)
    requires UniqueKeys(items) && first <= last <= |items|
    ensures key in Keys(items)[first..last] <==> first <= FindIndex(items, key) < last
  {
    var i := FindIndex(items, key);
    assert forall k :: 0 <= k < |items| && items[k].0 == key ==> k == i by {
      forall k | 0 <= k < |items| && items[k].0 == key
        ensures k == i
      {
        FoundThere(items, key, k);
      }
    }
    hide FindIndex, UniqueKeys;
    assert forall k :: 0 <= k < |items| ==> Keys(items)[k] == items[k].0;
    InSlice(Keys(items), first, last, key);
  }

  lemma InSlice<T>(s: seq<T>, first: nat, last: nat, x: T)
    requires first <= last <= |s|
    ensures x in s[first..last] <==> exists k :: first <= k < last && s[k] == x
  {
    if x in s[first..last] {
      var d :| 0 <= d < last - first && s[first..last][d] == x;
      assert s[first + d] == x;
    }
    if k :| first <= k < last && s[k] == x {
      assert s[first..last][k - first] == x;
    }
  }

  lemma {:induction false} SameIndex<K, V>(items: seq<(K, V)>, key: K)
    ensures IndexOf(Keys(items), key) == FindIndex(items, key)
  {
    if items != [] {
      assert Keys(items)[1..] == Keys(items[1..]);
      assert Keys(items)[0] == items[0].0;
      SameIndex(items[1..], key);
    }
  }

  lemma EraseRefines<K, V>(items: seq<(K, V)>, a: Abstract<K, V>, key: K)
    requires Represents(items, a)
    ensures Represents(Erased(items, key), AbstractErase(a, key))
  {
    SameIndex(items, key);
    ToMapMeans(items, key);
    hide ToMap, FindIndex, UniqueKeys, IndexOf, Keys, AbstractEraseRange;
    var i := FindIndex(items, key);
    if i < |items| {
      EraseRangeRefines(items, a, i, i + 1);
      EraseOne(a, key, i);
    } else {
      assert a.members - {key} == a.members;
    }
  }

  lemma EraseOne<K, V>(a: Abstract<K, V>, key: K, i: nat)
    requires i < |a.order| && a.order[i] == key && IndexOf(a.order, key) == i
    ensures AbstractEraseRange(a, i, i + 1) == AbstractErase(a, key)
  {
    hide IndexOf, Without;
    assert a.order[i..i + 1] == [key];
  }

  // ----- whole runs

  datatype Op<K, V> =
    | Emplace(key: K, value: V)
    | Erase(key: K)
    | EraseRange(first: nat, last: nat)

  function Step<K(==), V>(items: seq<(K, V)>, op: Op<K, V>): seq<(K, V)> {
    match op
    case Emplace(key, value) => Emplaced(items, key, value)
    case Erase(key) => Erased(items, key)
    case EraseRange(first, last) => if first <= last <= |items| then Without(items, first, last) else items
  }

  function AbstractStep<K(==), V>(a: Abstract<K, V>, op: Op<K, V>): Abstract<K, V> {
    match op
    case Emplace(key, value) => AbstractEmplace(a, key, value)
    case Erase(key) => AbstractErase(a, key)
    case EraseRange(first, last) => if first <= last <= |a.order| then AbstractEraseRange(a, first, last) else a
  }

  function Run<K(==), V>(items: seq<(K, V)>, ops: seq<Op<K, V>>): seq<(K, V)>
    decreases |ops|
  {
    if ops == [] then items else Run(Step(items, ops[0]), ops[1..])
  }

  function AbstractRun<K(==), V>(a: Abstract<K, V>, ops: seq<Op<K, V>>): Abstract<K, V>
    decreases |ops|
  {
    if ops == [] then a else AbstractRun(AbstractStep(a, ops[0]), ops[1..])
  }

  /** Over any run the vector is the abstract map: keys stay unique, and the order is that of insertion. */
  lemma {:induction false} RunRefines<K, V>(items: seq<(K, V)>, a: Abstract<K, V>, ops: seq<Op<K, V>>)
    requires Represents(items, a)
    ensures Represents(Run(items, ops), AbstractRun(a, ops))
    decreases |ops|
  {
    hide Represents, Emplaced, Erased, AbstractEmplace, AbstractErase, AbstractEraseRange;
    if ops != [] {
      OrderLength(items, a);
      match ops[0] {
        case Emplace(key, value) => EmplaceRefines(items, a, key, value);
        case Erase(key) => EraseRefines(items, a, key);
        case EraseRange(first, last) =>
          if first <= last <= |items| {
            EraseRangeRefines(items, a, first, last);
          }
      }
      RunRefines(Step(items, ops[0]), AbstractStep(a, ops[0]), ops[1..]);
    }
  }

  lemma OrderLength<K, V>(items: seq<(K, V)>, a: Abstract<K, V>)
    requires Represents(items, a)
    ensures |items| == |a.order|
  {}

  /** Starting empty, find and at agree with the abstract map after any run. */
  lemma FindAfterRun<K, V>(ops: seq<Op<K, V>>, key: K)
    ensures var items := Run<K, V>([], ops); var a := AbstractRun<K, V>(Abstract(map[], []), ops); var i := FindIndex(items, key);
      && UniqueKeys(items)
      && (i < |items| <==> key in a.members)
      && |a.order| == |items|
      && (i < |items| ==> items[i].1 == a.members[key] && a.order[i] == key)
  {
    assert Represents<K, V>([], Abstract(map[], [])) by {
      assert Keys<K, V>([]) == [];
    }
    RunRefines<K, V>([], Abstract(map[], []), ops);
    ToMapMeans(Run<K, V>([], ops), key);
  }

  // ----- the object

  /** What is left once everything behind a range has moved to its beginning. */
  lemma Shifted<T>(before: seq<T>, after: seq<T>, first: nat, last: nat)
    requires first <= last <= |before| && |after| == |before| - (last - first)
    requires forall j :: 0 <= j < first ==> after[j] == before[j]
    requires forall j :: first <= j < |after| ==> after[j] == before[j + (last - first)]
    ensures after == Without(before, first, last)
  {}

  class OrderedMap<K(==), V> {
    var items: seq<(K, V)>

    constructor ()
      ensures items == []
    {
      items := [];
    }

    /** find: the position of the key, or the end. */
    method Find(key: K) returns (it: nat)
      ensures it == FindIndex(items, key)
    {
      it := 0;
      while it < |items| && items[it].0 != key
        invariant it <= |items|
        invariant forall j :: 0 <= j < it ==> items[j].0 != key
      {
        it := it + 1;
      }
    }

    method Count(key: K) returns (n: nat)
      ensures n == if FindIndex(items, key) < |items| then 1 else 0
    {
      for it := 0 to |items|
        invariant forall j :: 0 <= j < it ==> items[j].0 != key
      {
        if items[it].0 == key {
          return 1;
        }
      }
      n := 0;
    }

    /** at: None is the exception it throws. */
    method At(key: K) returns (value: Option<V>)
      ensures var i := FindIndex(items, key); value == if i < |items| then Some(items[i].1) else None
    {
      for it := 0 to |items|
        invariant forall j :: 0 <= j < it ==> items[j].0 != key
      {
        if items[it].0 == key {
          return Some(items[it].1);
        }
      }
      value := None;
    }

    /** emplace, and insert of one pair: the pair's position, and whether it was added. */
    method Emplace(key: K, value: V) returns (it: nat, inserted: bool)
      modifies this
      ensures items == Emplaced(old(items), key, value)
      ensures inserted <==> FindIndex(old(items), key) == |old(items)|
      ensures it < |items| && items[it].0 == key && (inserted ==> items[it].1 == value)
    {
      it := Find(key);
      inserted := it == |items|;
      if inserted {
        items := items + [(key, value)];
      }
    }

    /** insert of a range. */
    method InsertRange(pairs: seq<(K, V)>)
      modifies this
      ensures items == Run(old(items), seq(|pairs|, i requires 0 <= i < |pairs| => Op.Emplace(pairs[i].0, pairs[i].1)))
    {
      ghost var ops := seq(|pairs|, i requires 0 <= i < |pairs| => Op<K, V>.Emplace(pairs[i].0, pairs[i].1));
      for k := 0 to |pairs|
        invariant Run(old(items), ops) == Run(items, ops[k..])
      {
        assert ops[k..][1..] == ops[k + 1..];
        var _, _ := Emplace(pairs[k].0, pairs[k].1);
      }
      assert ops[|pairs|..] == [];
    }

    /** erase by key: the entries behind it move down one place each, and the last is popped. */
    method EraseKey(key: K) returns (n: nat)
      modifies this
      ensures items == Erased(old(items), key)
      ensures n == if FindIndex(old(items), key) < |old(items)| then 1 else 0
    {
      var it := Find(key);
      if it == |items| {
        return 0;
      }
      ghost var first := it;
      while it + 1 < |items|
        invariant first <= it < |items| == |old(items)|
        invariant forall j :: 0 <= j < first ==> items[j] == old(items)[j]
        invariant forall j :: first <= j < it ==> items[j] == old(items)[j + 1]
        invariant forall j :: it <= j < |items| ==> items[j] == old(items)[j]
      {
        items := items[it := items[it + 1]];
        it := it + 1;
      }
      items := items[..|items| - 1];
      assert items == Without(old(items), first, first + 1);
      n := 1;
    }

    /** erase of a range: the entries behind it move down by its length, and the tail is cut off. */
    method EraseBetween(first: nat, last: nat) returns (next: nat)
      requires first <= last <= |items|
      modifies this
      ensures items == Without(old(items), first, last) && next == first
    {
      if first == last {
        assert Without(items, first, last) == items;
        return first;
      }
      var affected := last - first;
      var it := first;
      while it + affected != |items|
        invariant first <= it && it + affected <= |items| == |old(items)|
        invariant forall j :: 0 <= j < first ==> items[j] == old(items)[j]
        invariant forall j :: first <= j < it ==> items[j] == old(items)[j + affected]
        invariant forall j :: it <= j < |items| ==> items[j] == old(items)[j]
        decreases |items| - it
      {
        items := items[it := items[it + affected]];
        it := it + 1;
      }
      items := items[..|items| - affected];
      Shifted(old(items), items, first, last);
      next := first;
    }
  }
}
