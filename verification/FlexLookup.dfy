/** Map::operator[]: a binary search over the key vector. */
module FlexLookup {
  import opened Bytes
  import opened FlatReader
  import opened StringOrder
  import opened FlexFormat
  import opened FlexProofs
  import opened FlexSort
  import opened FlexRoundTrip

  /** The members of a canonical map are in increasing key order, none lost and none added. */
  lemma CanonicalMembersFound(v: Value, key: seq<byte>)
    requires v.Map? && Buildable(v) && Distinct(v.keys)
    ensures var c := Canonical(v);
      && |c.keys| == |c.values| && StrictlySorted(c.keys)
      && (key in c.keys <==> key in v.keys)
      && forall i, j :: 0 <= i < |v.keys| && 0 <= j < |c.keys| && c.keys[j] == v.keys[i] ==> c.values[j] == Canonical(v.values[i])
  {
    CanonicalMap(v);
    OrderSorts(v.keys, |v.keys|);
    var order := Order(v.keys);
    var c := Canonical(v);
    if key in v.keys {
      var i :| 0 <= i < |v.keys| && v.keys[i] == key;
      assert i in order;
      var j :| 0 <= j < |order| && order[j] == i;
      assert c.keys[j] == key;
    }
    forall i, j | 0 <= i < |v.keys| && 0 <= j < |c.keys| && c.keys[j] == v.keys[i]
      ensures c.values[j] == Canonical(v.values[i])
    {
      assert c.keys[j] == v.keys[order[j]];
      if order[j] != i {
        assert false;
      }
    }
  }

  /**
   * The lookup of a key in a map, here one whose members were built in the order of v: the value inserted
   * under the key, or a null reference when there is none.
   */
  method Lookup(buf: seq<byte>, data: int, width: nat, key: seq<byte>, ghost v: Value) returns (r: Reference)
    requires v.Map? && Buildable(v) && Distinct(v.keys) && MapReads(buf, data, width, Canonical(v)) && NoZero(key)
    ensures forall i :: 0 <= i < |v.keys| && v.keys[i] == key ==> Reads(buf, r, Canonical(v.values[i]))
    ensures key !in v.keys ==> r == NULL_REFERENCE
  {
    CanonicalMembersFound(v, key);
    ghost var c := Canonical(v);
    hide Canonical, Buildable, Reads, Elem, MapKeys, StringLessThan, ReadSize, KeyAt;
    var (keys, keysWidth) := MapKeys(buf, data, width).value;
    var n := ReadSize(buf, keys, keysWidth).value;
    var lo, hi := 0, n;
    while lo < hi
      invariant lo <= hi <= n
      invariant forall j :: 0 <= j < lo ==> c.keys[j] != key
      invariant forall j :: hi <= j < n ==> c.keys[j] != key
    {
      var mid := (lo + hi) / 2;
      var k := KeyAt(buf, keys, keysWidth, mid).value;
      assert k == c.keys[mid];
      EquivalentIsEqual(key, k);
      if k == key {
        r := Elem(buf, data, width, mid).value;
        assert Reads(buf, r, c.values[mid]);
        return;
      }
      if StringLessThan(key, k) {
        AllAbove(c.keys, mid, key);
        hi := mid;
      } else {
        AllBelow(c.keys, mid, key);
        lo := mid + 1;
      }
    }
    assert key !in c.keys;
    r := NULL_REFERENCE;
  }

  lemma AllAbove(keys: seq<seq<byte>>, mid: nat, key: seq<byte>)
    requires StrictlySorted(keys) && mid < |keys| && StringLessThan(key, keys[mid])
    ensures forall j :: mid <= j < |keys| ==> keys[j] != key
  {
    hide StringLessThan;
    forall j | mid <= j < |keys|
      ensures keys[j] != key
    {
      if j > mid {
        LessIsTransitive(key, keys[mid], keys[j]);
      }
      EquivalentIsEqual(key, keys[j]);
    }
  }

  lemma AllBelow(keys: seq<seq<byte>>, mid: nat, key: seq<byte>)
    requires StrictlySorted(keys) && mid < |keys| && StringLessThan(keys[mid], key)
    ensures forall j :: 0 <= j <= mid ==> keys[j] != key
  {
    hide StringLessThan;
    forall j | 0 <= j <= mid
      ensures keys[j] != key
    {
      if j < mid {
        LessIsTransitive(keys[j], keys[mid], key);
      }
      EquivalentIsEqual(key, keys[j]);
    }
  }

  /** The lookup through a reference to a map; what it finds can be looked up in again, to any depth. */
  method Find(buf: seq<byte>, map_: Reference, key: seq<byte>, ghost v: Value) returns (r: Reference)
    requires v.Map? && Buildable(v) && Distinct(v.keys) && Reads(buf, map_, Canonical(v)) && NoZero(key)
    ensures forall i :: 0 <= i < |v.keys| && v.keys[i] == key ==> Reads(buf, r, Canonical(v.values[i]))
    ensures key !in v.keys ==> r == NULL_REFERENCE
  {
    hide Canonical, Buildable, MapReads, Distinct;
    var data := Indirect(buf, map_.pos, map_.parentWidth).value;
    r := Lookup(buf, data, map_.byteWidth, key, v);
  }

  /**
   * From a map that was built and finished, with any sharing flags and minimum width, GetRoot and the lookup
   * of a key give the value inserted under it, or null.
   */
  method FindInFinished(v: Value, shareKeys: bool, shareStrings: bool, forceMin: BitWidth, key: seq<byte>) returns (r: Reference)
    requires v.Map? && Buildable(v) && Cost(v) + 64 < LIMIT && Distinct(v.keys) && NoZero(key)
    ensures var buf := Encode(v, shareKeys, shareStrings, forceMin);
      && (forall i :: 0 <= i < |v.keys| && v.keys[i] == key ==> Reads(buf, r, Canonical(v.values[i])))
      && (key !in v.keys ==> r == NULL_REFERENCE)
  {
    RoundTrip(v, shareKeys, shareStrings, forceMin);
    hide Encode, RootReference, Reads, Canonical, Buildable, Distinct, Cost;
    var buf := Encode(v, shareKeys, shareStrings, forceMin);
    r := Find(buf, RootReference(buf).value, key, v);
  }
}
