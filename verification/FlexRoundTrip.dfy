/** Any value, built with the calls a caller makes, finished, and read again. */
module FlexRoundTrip {
  import opened Bytes
  import opened Common
  import opened FlatReader
  import opened StringOrder
  import opened FlexFormat
  import opened FlexBuilder
  import opened FlexWidths
  import opened FlexProofs
  import opened FlexSort

  // ----- EndMap

  function KeySlots(stack: seq<Slot>, start: nat, n: nat): (r: seq<Slot>)
    requires start + 2 * n <= |stack|
    ensures |r| == n
  {
    seq(n, i requires 0 <= i < n => stack[start + 2 * i])
  }

  function ValueSlots(stack: seq<Slot>, start: nat, n: nat): (r: seq<Slot>)
    requires start + 2 * n <= |stack|
    ensures |r| == n
  {
    seq(n, i requires 0 <= i < n => stack[start + 2 * i + 1])
  }

  /** What the comparator of the sort sees of a key. */
  function KeyOf(buf: seq<byte>, slot: Slot): seq<byte> {
    match CString(buf, slot.u)
    case Got(k) => k
    case Fault => []
  }

  function KeysOf(buf: seq<byte>, slots: seq<Slot>): (r: seq<seq<byte>>)
    ensures |r| == |slots|
  {
    seq(|slots|, i requires 0 <= i < |slots| => KeyOf(buf, slots[i]))
  }

  /**
   * EndMap: sorts the pairs by key, and writes the key vector and the values. Equal keys are noted: any sort
   * compares them, or each with a third that is equal to both.
   */
  function EndMap(s: State, start: nat, n: nat): State
    requires |s.stack| == start + 2 * n && SlotsOk(s.stack, |s.buf|)
  {
    var keys, values := KeySlots(s.stack, start, n), ValueSlots(s.stack, start, n);
    var order := Order(KeysOf(s.buf, keys));
    PairsOk(s, start, n, order);
    EndSortedMap(s, start, Permuted(keys, order), Permuted(values, order)).(
      hasDuplicateKeys := s.hasDuplicateKeys || !Distinct(KeysOf(s.buf, keys)))
  }

  lemma PairsOk(s: State, start: nat, n: nat, order: seq<nat>)
    requires |s.stack| == start + 2 * n && SlotsOk(s.stack, |s.buf|) && |order| == n && forall i :: 0 <= i < n ==> order[i] < n
    ensures SlotsOk(Permuted(KeySlots(s.stack, start, n), order), |s.buf|)
    ensures SlotsOk(Permuted(ValueSlots(s.stack, start, n), order), |s.buf|)
  {
    forall slot | slot in Permuted(KeySlots(s.stack, start, n), order)
      ensures SlotOk(slot, |s.buf|) && slot.type_ < 37
    {
      var i :| 0 <= i < n && Permuted(KeySlots(s.stack, start, n), order)[i] == slot;
      assert slot == s.stack[start + 2 * order[i]];
    }
    forall slot | slot in Permuted(ValueSlots(s.stack, start, n), order)
      ensures SlotOk(slot, |s.buf|) && slot.type_ < 37
    {
      var i :| 0 <= i < n && Permuted(ValueSlots(s.stack, start, n), order)[i] == slot;
      assert slot == s.stack[start + 2 * order[i] + 1];
    }
  }

  // ----- what is built

  /** What a caller may build: numbers of 64 bits, and a value for every key, which has no zero byte. */
  predicate Buildable(v: Value) {
    match v
    case Vec(elems) => forall i :: 0 <= i < |elems| ==> Buildable(elems[i])
    case Map(keys, values) =>
      && |keys| == |values| && (forall i :: 0 <= i < |keys| ==> NoZero(keys[i]))
      && (forall i :: 0 <= i < |values| ==> Buildable(values[i]))
    case _ => InRange(v)
  }

  /** The same value with the members of every map in the order of their keys, as a reader meets them. */
  function Canonical(v: Value): (c: Value)
    requires Buildable(v)
    ensures v.Vec? ==> c.Vec?
    ensures v.Map? ==> c.Map?
  {
    match v
    case Vec(elems) => Vec(seq(|elems|, i requires 0 <= i < |elems| => Canonical(elems[i])))
    case Map(keys, values) =>
      var order := Order(keys);
      Map(Permuted(keys, order), seq(|order|, i requires 0 <= i < |order| => Canonical(values[order[i]])))
    case _ => v
  }

  /** Some map of the value has the same key twice. */
  predicate HasDuplicates(v: Value)
    decreases v, 1, 0
  {
    match v
    case Vec(elems) => DuplicatesFrom(v, 0)
    case Map(keys, values) => DuplicatesFrom(v, 0) || !Distinct(keys)
    case _ => false
  }

  predicate DuplicatesFrom(v: Value, i: nat)
    decreases v, 0, if v.Vec? then |v.elems| - i else if v.Map? then |v.values| - i else 0
  {
    match v
    case Vec(elems) => i < |elems| && (HasDuplicates(elems[i]) || DuplicatesFrom(v, i + 1))
    case Map(keys, values) => i < |values| && (HasDuplicates(values[i]) || DuplicatesFrom(v, i + 1))
    case _ => false
  }

  /** How much room building a value may take, generously. */
  function Cost(v: Value): nat {
    match v
    case Str(s) => |s| + 64
    case Vec(elems) => 64 + 64 * |elems| + CostFrom(v, 0)
    case Map(keys, values) => 256 + 128 * |values| + CostFrom(v, 0)
    case _ => 0
  }

  function CostFrom(v: Value, i: nat): nat
    decreases v, if v.Vec? then |v.elems| - i else if v.Map? then |v.values| - i else 0
  {
    match v
    case Vec(elems) => if i < |elems| then Cost(elems[i]) + CostFrom(v, i + 1) else 0
    case Map(keys, values) => if i < |values| then (if i < |keys| then |keys[i]| else 0) + 1 + Cost(values[i]) + CostFrom(v, i + 1) else 0
    case _ => 0
  }

  // ----- building

  predicate StackOk(s: State) {
    SlotsOk(s.stack, |s.buf|)
  }

  /** One more slot, above a stack that stays, in a buffer that grows at its end. */
  predicate OneMore(s: State, s': State) {
    && StackOk(s') && |s.buf| <= |s'.buf|
    && |s'.stack| == |s.stack| + 1 && s'.stack[..|s.stack|] == s.stack
  }

  lemma PushIsOneMore(s: State, s': State, slot: Slot)
    requires StackOk(s) && |s.buf| <= |s'.buf| && s'.stack == s.stack + [slot] && SlotOk(slot, |s'.buf|) && slot.type_ < 37
    ensures OneMore(s, s')
  {
    forall x | x in s'.stack
      ensures SlotOk(x, |s'.buf|) && x.type_ < 37
    {
      if x != slot {
        assert x in s.stack && SlotOk(x, |s.buf|);
      }
    }
  }

  lemma CreateVectorGrows(s: State, slots: seq<Slot>, step: nat, keys: Option<Slot>)
    requires SlotsOk(slots, |s.buf|) && (keys.Some? ==> keys.value.u <= |s.buf|)
    ensures var (s', slot) := CreateVector(s, slots, step, keys);
      && |s.buf| <= |s'.buf| && s' == s.(buf := s'.buf) && slot.u <= |s'.buf| && slot.type_ < 37
  {
    hide VectorWidth, PaddingBytes, ElemWidth;
  }

  lemma EndVectorIsOneMore(s: State, s1: State)
    requires StackOk(s) && StackOk(s1) && |s.buf| <= |s1.buf| && |s.stack| <= |s1.stack| && s1.stack[..|s.stack|] == s.stack
    ensures SlotsOk(s1.stack[|s.stack|..], |s1.buf|)
    ensures OneMore(s, EndVector(s1, |s.stack|))
  {
    hide CreateVector;
    CreateVectorGrows(s1, s1.stack[|s.stack|..], 1, None);
    var s2 := EndVector(s1, |s.stack|);
    PushIsOneMore(s, s2, s2.stack[|s.stack|]);
  }

  lemma EndMapIsOneMore(s: State, s1: State, n: nat)
    requires StackOk(s) && StackOk(s1) && |s.buf| <= |s1.buf| && |s1.stack| == |s.stack| + 2 * n && s1.stack[..|s.stack|] == s.stack
    ensures OneMore(s, EndMap(s1, |s.stack|, n))
  {
    hide CreateVector, CreateKeyVector, KeySlots, ValueSlots, Permuted, Order, KeysOf;
    var keys, values := KeySlots(s1.stack, |s.stack|, n), ValueSlots(s1.stack, |s.stack|, n);
    var order := Order(KeysOf(s1.buf, keys));
    PairsOk(s1, |s.stack|, n, order);
    KeyVectorGrows(s1, Permuted(keys, order));
    var (s2, keySlot) := CreateKeyVector(s1, Permuted(keys, order));
    KeyVectorSame(s1, Permuted(keys, order));
    SlotsOkLarger(Permuted(values, order), |s1.buf|, |s2.buf|);
    CreateVectorGrows(s2, Permuted(values, order), 2, Some(keySlot));
    var s3 := EndMap(s1, |s.stack|, n);
    PushIsOneMore(s, s3, s3.stack[|s.stack|]);
  }

  lemma KeyVectorSame(s: State, keys: seq<Slot>)
    requires SlotsOk(keys, |s.buf|)
    ensures var s' := CreateKeyVector(s, keys).0; s' == s.(buf := s'.buf)
  {}

  lemma KeyIsOneMore(s: State, key: seq<byte>)
    requires StackOk(s)
    ensures OneMore(s, Key(s, key))
  {
    hide FindKey;
    var s' := Key(s, key);
    PushIsOneMore(s, s', s'.stack[|s.stack|]);
  }

  lemma StringIsOneMore(s: State, chars: seq<byte>)
    requires StackOk(s)
    ensures OneMore(s, String(s, chars))
  {
    hide PaddingBytes, Le;
    var s' := String(s, chars);
    PushIsOneMore(s, s', s'.stack[|s.stack|]);
  }

  /** Every pooled string is where the pool says, with its size in front of it. */
  predicate StringPoolOk(s: State) {
    forall e :: e in s.stringPool ==> e.0 <= |s.buf| && ReadSize(s.buf, e.0, ByteWidth(WidthU(e.1))) == Got(e.1)
  }

  /** The calls that put a value on the stack. */
  function Build(s: State, v: Value): (r: State)
    requires StackOk(s) && Buildable(v)
    ensures OneMore(s, r)
    decreases v, 1, 0
  {
    match v
    case Str(chars) =>
      StringIsOneMore(s, chars);
      String(s, chars)
    case Vec(elems) =>
      var s1 := BuildElems(s, v, 0);
      EndVectorIsOneMore(s, s1);
      EndVector(s1, |s.stack|)
    case Map(keys, values) =>
      var s1 := BuildMembers(s, v, 0);
      EndMapIsOneMore(s, s1, |values|);
      EndMap(s1, |s.stack|, |values|)
    case _ =>
      PushIsOneMore(s, PushSlot(s, Inline(v)), Inline(v));
      PushSlot(s, Inline(v))
  }

  /** Null, Bool, Int and UInt keep the value on the stack. */
  function Inline(v: Value): (slot: Slot)
    requires InRange(v) && !v.Str? && !v.Vec? && !v.Map?
    ensures IsInline(slot.type_) && slot.type_ < 37
  {
    match v
    case Null => Slot(0, FBT_NULL, 0)
    case Bool(b) => Slot(if b then 1 else 0, FBT_BOOL, 0)
    case Int(i) => Slot(Image(i), FBT_INT, WidthI(i))
    case UInt(u) => Slot(u, FBT_UINT, WidthU(u))
  }

  function BuildElems(s: State, v: Value, i: nat): (r: State)
    requires StackOk(s) && v.Vec? && Buildable(v) && i <= |v.elems|
    ensures StackOk(r) && |s.buf| <= |r.buf|
    ensures |r.stack| == |s.stack| + |v.elems| - i && r.stack[..|s.stack|] == s.stack
    decreases v, 0, |v.elems| - i
  {
    if i == |v.elems| then s
    else
      var s1 := Build(s, v.elems[i]);
      BuildElems(s1, v, i + 1)
  }

  function BuildMembers(s: State, v: Value, i: nat): (r: State)
    requires StackOk(s) && v.Map? && Buildable(v) && i <= |v.values|
    ensures StackOk(r) && |s.buf| <= |r.buf|
    ensures |r.stack| == |s.stack| + 2 * (|v.values| - i) && r.stack[..|s.stack|] == s.stack
    decreases v, 0, |v.values| - i
  {
    if i == |v.values| then s
    else
      KeyIsOneMore(s, v.keys[i]);
      var s1 := Key(s, v.keys[i]);
      var s2 := Build(s1, v.values[i]);
      BuildMembers(s2, v, i + 1)
  }

  // ----- what is on the stack after building

  datatype Item = Val(v: Value) | KeyItem(key: seq<byte>)

  ghost predicate SlotIs(buf: seq<byte>, slot: Slot, item: Item) {
    match item
    case Val(v) => Holds(buf, slot, v)
    case KeyItem(key) => HoldsKey(buf, slot, key)
  }

  ghost predicate Good(s: State, items: seq<Item>) {
    && |s.stack| == |items|
    && (forall i :: 0 <= i < |items| ==> SlotIs(s.buf, s.stack[i], items[i]))
    && StringPoolOk(s)
  }

  predicate Grows(s: State, s': State) {
    |s.buf| <= |s'.buf| && s'.buf[..|s.buf|] == s.buf
  }

  lemma GrowsBy(s: State, s': State)
    requires Grows(s, s')
    ensures s'.buf == s.buf + s'.buf[|s.buf|..]
  {}

  lemma SlotStays(buf: seq<byte>, more: seq<byte>, slot: Slot, item: Item)
    requires SlotIs(buf, slot, item)
    ensures SlotIs(buf + more, slot, item)
  {
    hide Holds, HoldsKey;
    match item
    case Val(v) => HoldsStays(buf, more, slot, v);
    case KeyItem(key) => KeyStays(buf, more, slot, key);
  }

  lemma PoolStays(s: State, s': State)
    requires StringPoolOk(s) && Grows(s, s') && s'.stringPool == s.stringPool
    ensures StringPoolOk(s')
  {
    hide ReadUnsigned;
    GrowsBy(s, s');
    var more := s'.buf[|s.buf|..];
    forall e | e in s.stringPool
      ensures e.0 <= |s'.buf| && ReadSize(s'.buf, e.0, ByteWidth(WidthU(e.1))) == Got(e.1)
    {
      ReadStays(s.buf, more, e.0 - ByteWidth(WidthU(e.1)), ByteWidth(WidthU(e.1)));
    }
  }

  /** One more slot that stands for one more item. */
  lemma GoodNext(s: State, items: seq<Item>, s': State, slot: Slot, item: Item)
    requires Good(s, items) && Grows(s, s') && StringPoolOk(s') && s'.stack == s.stack + [slot] && SlotIs(s'.buf, slot, item)
    ensures Good(s', items + [item])
  {
    hide SlotIs, StringPoolOk;
    GrowsBy(s, s');
    forall i | 0 <= i < |items| + 1
      ensures SlotIs(s'.buf, s'.stack[i], (items + [item])[i])
    {
      if i < |items| {
        SlotStays(s.buf, s'.buf[|s.buf|..], s.stack[i], items[i]);
      }
    }
  }

  lemma InlineHolds(s: State, items: seq<Item>, v: Value)
    requires Good(s, items) && InRange(v) && !v.Str? && !v.Vec? && !v.Map?
    ensures Good(PushSlot(s, Inline(v)), items + [Val(v)])
  {
    hide StringPoolOk;
    PoolSame(s, PushSlot(s, Inline(v)));
    GoodNext(s, items, PushSlot(s, Inline(v)), Inline(v), Val(v));
  }

  lemma PoolSame(s: State, s': State)
    requires StringPoolOk(s) && s'.buf == s.buf && s'.stringPool == s.stringPool
    ensures StringPoolOk(s')
  {}

  /** A key, shared or not. */
  lemma KeyHolds(s: State, items: seq<Item>, key: seq<byte>)
    requires Good(s, items) && NoZero(key)
    ensures Good(Key(s, key), items + [KeyItem(key)]) && Grows(s, Key(s, key)) && |Key(s, key).buf| <= |s.buf| + |key| + 1
    ensures Key(s, key).hasDuplicateKeys == s.hasDuplicateKeys
  {
    hide FindKey, StringPoolOk;
    var off := |s.buf|;
    var s1 := Append(s, key + [0]);
    assert s1.buf[..off] == s.buf;
    assert s1.buf[off..off + |key| + 1] == key + [0];
    var s' := Key(s, key);
    var slot := s'.stack[|s.stack|];
    if s'.buf == s.buf {
      PoolSame(s, s');
    } else {
      PoolStays(s, s');
    }
    GoodNext(s, items, s', slot, KeyItem(key));
  }

  /** A string, pooled or not: the offset always denotes the string asked for. */
  lemma StringHolds(s: State, items: seq<Item>, chars: seq<byte>)
    requires Good(s, items) && |chars| < 0x1_0000_0000_0000_0000
    ensures Good(String(s, chars), items + [Val(Str(chars))]) && Grows(s, String(s, chars))
    ensures |String(s, chars).buf| <= |s.buf| + |chars| + 64
    ensures String(s, chars).hasDuplicateKeys == s.hasDuplicateKeys
  {
    hide SlotIs, ReadUnsigned, PaddingBytes, Le;
    StringCreated(s, chars);
    StringLength(s, chars);
    var (s1, slot) := CreateString(s, chars);
    var s' := String(s, chars);
    if s'.buf == s.buf && s'.stringPool == s.stringPool && s.shareStrings && FindPooled(s.buf, s.stringPool, chars).Some? {
      PooledHolds(s, items, chars);
    } else {
      FreshHolds(s, items, chars);
    }
  }

  lemma PooledHolds(s: State, items: seq<Item>, chars: seq<byte>)
    requires Good(s, items) && s.shareStrings && FindPooled(s.buf, s.stringPool, chars).Some?
    ensures Good(String(s, chars), items + [Val(Str(chars))]) && String(s, chars).buf == s.buf
  {
    hide ReadUnsigned, PaddingBytes, Le;
    var off := FindPooled(s.buf, s.stringPool, chars).value;
    var s' := String(s, chars);
    assert (off, |chars|) in s.stringPool;
    PoolSame(s, s');
    assert SlotIs(s'.buf, s'.stack[|s.stack|], Val(Str(chars)));
    GoodNext(s, items, s', s'.stack[|s.stack|], Val(Str(chars)));
  }

  lemma FreshHolds(s: State, items: seq<Item>, chars: seq<byte>)
    requires Good(s, items) && |chars| < 0x1_0000_0000_0000_0000
    requires s.shareStrings ==> FindPooled(s.buf, s.stringPool, chars).None?
    ensures Good(String(s, chars), items + [Val(Str(chars))])
    ensures String(s, chars).buf == CreateString(s, chars).0.buf
  {
    FreshString(s, chars);
    FreshPool(s, chars);
    hide CreateString, String, FindPooled, StringPoolOk, Holds;
    StringCreated(s, chars);
    var (s1, slot) := CreateString(s, chars);
    GoodNext(s, items, String(s, chars), slot, Val(Str(chars)));
  }

  lemma FreshPool(s: State, chars: seq<byte>)
    requires StringPoolOk(s) && |chars| < 0x1_0000_0000_0000_0000
    requires s.shareStrings ==> FindPooled(s.buf, s.stringPool, chars).None?
    ensures StringPoolOk(String(s, chars))
  {
    FreshString(s, chars);
    StringSized(s, chars);
    GrowsByString(s, chars);
    hide CreateString, String, FindPooled, StringPoolOk, Grows, ReadSize;
    var (s1, slot) := CreateString(s, chars);
    PoolStays(s, s1);
    var s2 := s1;
    if s.shareStrings {
      PoolNext(s1, slot.u, |chars|);
      s2 := s1.(stringPool := s.stringPool + [(slot.u, |chars|)]);
    }
    PoolSame(s2, String(s, chars));
  }

  lemma PoolNext(s: State, off: nat, n: nat)
    requires StringPoolOk(s) && off <= |s.buf| && ReadSize(s.buf, off, ByteWidth(WidthU(n))) == Got(n)
    ensures StringPoolOk(s.(stringPool := s.stringPool + [(off, n)]))
  {
    hide ReadSize, WidthU, ByteWidth;
  }

  lemma GrowsByString(s: State, chars: seq<byte>)
    requires |chars| < 0x1_0000_0000_0000_0000
    ensures var s1 := CreateString(s, chars).0; Grows(s, s1) && s1 == s.(buf := s1.buf)
  {
    hide CreateString, Holds;
    StringCreated(s, chars);
  }

  /** The size in front of a new string. */
  lemma StringSized(s: State, chars: seq<byte>)
    requires |chars| < 0x1_0000_0000_0000_0000
    ensures var (s1, slot) := CreateString(s, chars);
      slot.u <= |s1.buf| && ReadSize(s1.buf, slot.u, ByteWidth(WidthU(|chars|))) == Got(|chars|)
  {
    hide CreateString, ReadUnsigned, WidthU;
    StringCreated(s, chars);
  }

  lemma FreshString(s: State, chars: seq<byte>)
    requires s.shareStrings ==> FindPooled(s.buf, s.stringPool, chars).None?
    ensures var (s1, slot) := CreateString(s, chars);
      String(s, chars) == PushSlot(if s.shareStrings then s1.(stringPool := s.stringPool + [(slot.u, |chars|)]) else s1, slot)
  {
    hide CreateString, FindPooled;
  }

  lemma StringLength(s: State, chars: seq<byte>)
    ensures |CreateString(s, chars).0.buf| <= |s.buf| + |chars| + 64
  {
    hide PaddingBytes;
    AlignLength(s, WidthU(|chars|));
  }

  lemma VectorLength(s: State, slots: seq<Slot>, step: nat, keys: Option<Slot>)
    requires SlotsOk(slots, |s.buf|) && (keys.Some? ==> keys.value.u <= |s.buf|)
    ensures |CreateVector(s, slots, step, keys).0.buf| <= |s.buf| + 31 + 9 * |slots|
  {
    hide PaddingBytes, VectorWidth, ElemWidth, Le, WriteAll, PackedTypes;
    var w0 := MaxWidth(s.forceMin, WidthU(|slots|));
    var w1 := if keys.Some? then MaxWidth(w0, ElemWidth(keys.value, |s.buf|, 0)) else w0;
    var w := VectorWidth(slots, |s.buf|, w1, if keys.Some? then 3 else 1, step);
    var bw := ByteWidth(w);
    AlignLength(s, w);
    var b1 := Align(s, w).buf;
    var b2 := if keys.Some? then WriteOffset(b1, keys.value.u, bw) + Le(ByteWidth(keys.value.width), bw) else b1;
    var b3 := b2 + Le(|slots|, bw);
    SlotsOkLarger(slots, |s.buf|, |b3|);
    WriteAllLength(b3, slots, bw);
    Scaled(bw, 8, |slots|);
    assert CreateVector(s, slots, step, keys).0.buf == WriteAll(b3, slots, bw) + PackedTypes(slots, w);
  }

  lemma KeyVectorLength(s: State, slots: seq<Slot>)
    requires SlotsOk(slots, |s.buf|)
    ensures |CreateKeyVector(s, slots).0.buf| <= |s.buf| + 15 + 8 * |slots|
  {
    hide PaddingBytes, KeyWidth, Le, WriteAll, CreateKeyVector;
    CreateKeyVectorIs(s, slots);
    var w := KeyWidth(s, slots);
    AlignLength(s, w);
    WriteAllLength(Align(s, w).buf + Le(|slots|, ByteWidth(w)), slots, ByteWidth(w));
    Scaled(ByteWidth(w), 8, |slots|);
  }

  const LIMIT := 0x1000_0000_0000_0000

  /** The items that the elements of a vector leave on the stack, from the i-th on. */
  function ElemItems(v: Value, i: nat): (r: seq<Item>)
    requires v.Vec? && Buildable(v) && i <= |v.elems|
    ensures |r| == |v.elems| - i
    ensures forall j :: 0 <= j < |r| ==> r[j] == Val(Canonical(v.elems[i + j]))
    decreases |v.elems| - i
  {
    if i == |v.elems| then [] else [Val(Canonical(v.elems[i]))] + ElemItems(v, i + 1)
  }

  /** The same for a map: keys and values by turns. */
  function MemberItem(v: Value, k: nat): Item
    requires v.Map? && Buildable(v) && k < 2 * |v.values|
  {
    if k % 2 == 0 then KeyItem(v.keys[k / 2]) else Val(Canonical(v.values[k / 2]))
  }

  function MemberItems(v: Value, i: nat): (r: seq<Item>)
    requires v.Map? && Buildable(v) && i <= |v.values|
    ensures |r| == 2 * (|v.values| - i)
    ensures forall k :: 0 <= k < |r| ==> r[k] == MemberItem(v, 2 * i + k)
  {
    seq(2 * (|v.values| - i), k requires 0 <= k < 2 * (|v.values| - i) => MemberItem(v, 2 * i + k))
  }

  lemma MemberItemsStep(v: Value, i: nat)
    requires v.Map? && Buildable(v) && i < |v.values|
    ensures MemberItems(v, i) == [KeyItem(v.keys[i]), Val(Canonical(v.values[i]))] + MemberItems(v, i + 1)
  {
    MemberBuildable(v, i);
    hide Buildable, Canonical;
    assert MemberItem(v, 2 * i) == KeyItem(v.keys[i]) && MemberItem(v, 2 * i + 1) == Val(Canonical(v.values[i]));
  }

  /**
   * Building a value leaves on the stack a slot that stands for it, with the members of its maps in key
   * order; everything that was built before still stands.
   */
  lemma {:induction false} BuildHolds(s: State, items: seq<Item>, v: Value)
    requires Good(s, items) && StackOk(s) && Buildable(v) && |s.buf| + Cost(v) < LIMIT
    ensures Good(Build(s, v), items + [Val(Canonical(v))]) && Grows(s, Build(s, v))
    ensures |Build(s, v).buf| <= |s.buf| + Cost(v)
    ensures Build(s, v).hasDuplicateKeys <==> s.hasDuplicateKeys || HasDuplicates(v)
    decreases v, 1, 0
  {
    hide Good, Key, String, EndVector, EndMap, Inline, Distinct;
    match v
    case Str(chars) => StringHolds(s, items, chars);
    case Vec(elems) =>
      ElemsHold(s, items, v, 0);
      var s1 := BuildElems(s, v, 0);
      assert Canonical(v) == Vec(CanonicalElems(v));
      VectorEnds(s, items, s1, v);
    case Map(keys, values) =>
      MembersHold(s, items, v, 0);
      var s1 := BuildMembers(s, v, 0);
      MapEnds(s, items, s1, v);
    case _ => InlineHolds(s, items, v);
  }

  lemma {:induction false} ElemsHold(s: State, items: seq<Item>, v: Value, i: nat)
    requires Good(s, items) && StackOk(s) && v.Vec? && Buildable(v) && i <= |v.elems| && |s.buf| + CostFrom(v, i) < LIMIT
    ensures var r := BuildElems(s, v, i);
      && Good(r, items + ElemItems(v, i)) && Grows(s, r) && |r.buf| <= |s.buf| + CostFrom(v, i)
      && (r.hasDuplicateKeys <==> s.hasDuplicateKeys || DuplicatesFrom(v, i))
    decreases v, 0, |v.elems| - i
  {
    hide Good, Build, Buildable, Canonical;
    if i == |v.elems| {
      assert items + [] == items;
    } else {
      ElemBuildable(v, i);
      BuildHolds(s, items, v.elems[i]);
      ElemsHold(Build(s, v.elems[i]), items + [Val(Canonical(v.elems[i]))], v, i + 1);
      assert items + ([Val(Canonical(v.elems[i]))] + ElemItems(v, i + 1)) == (items + [Val(Canonical(v.elems[i]))]) + ElemItems(v, i + 1);
      GrowsTwice(s, Build(s, v.elems[i]), BuildElems(s, v, i));
    }
  }

  lemma GrowsTwice(s: State, s1: State, s2: State)
    requires Grows(s, s1) && Grows(s1, s2)
    ensures Grows(s, s2)
  {
    assert s2.buf[..|s.buf|] == s1.buf[..|s.buf|];
  }

  lemma ElemBuildable(v: Value, i: nat)
    requires Buildable(v) && v.Vec? && i < |v.elems|
    ensures Buildable(v.elems[i])
  {}

  lemma MemberBuildable(v: Value, i: nat)
    requires Buildable(v) && v.Map? && i < |v.values|
    ensures |v.keys| == |v.values| && Buildable(v.values[i]) && NoZero(v.keys[i])
  {}

  lemma NoItems(v: Value)
    requires v.Map? && Buildable(v)
    ensures MemberItems(v, |v.values|) == []
  {}

  lemma {:induction false} MembersHold(s: State, items: seq<Item>, v: Value, i: nat)
    requires Good(s, items) && StackOk(s) && v.Map? && Buildable(v) && i <= |v.values| && |s.buf| + CostFrom(v, i) < LIMIT
    ensures var r := BuildMembers(s, v, i);
      && Good(r, items + MemberItems(v, i)) && Grows(s, r) && |r.buf| <= |s.buf| + CostFrom(v, i)
      && (r.hasDuplicateKeys <==> s.hasDuplicateKeys || DuplicatesFrom(v, i))
    decreases v, 0, |v.values| - i
  {
    hide Good, Build, Key, Buildable, Canonical, MemberItems;
    if i == |v.values| {
      NoItems(v);
      assert items + [] == items;
    } else {
      MemberBuildable(v, i);
      MemberItemsStep(v, i);
      KeyHolds(s, items, v.keys[i]);
      KeyIsOneMore(s, v.keys[i]);
      var s1 := Key(s, v.keys[i]);
      BuildHolds(s1, items + [KeyItem(v.keys[i])], v.values[i]);
      var s2 := Build(s1, v.values[i]);
      var two := [KeyItem(v.keys[i]), Val(Canonical(v.values[i]))];
      assert (items + [KeyItem(v.keys[i])]) + [Val(Canonical(v.values[i]))] == items + two;
      MembersHold(s2, items + two, v, i + 1);
      assert items + (two + MemberItems(v, i + 1)) == (items + two) + MemberItems(v, i + 1);
      GrowsTwice(s, s1, s2);
      GrowsTwice(s, s2, BuildMembers(s, v, i));
    }
  }

  function CanonicalElems(v: Value): (r: seq<Value>)
    requires v.Vec? && Buildable(v)
    ensures |r| == |v.elems| && forall i :: 0 <= i < |r| ==> r[i] == Canonical(v.elems[i])
  {
    seq(|v.elems|, i requires 0 <= i < |v.elems| => Canonical(v.elems[i]))
  }

  /** The slots above a point of the stack hold the values of the items there. */
  lemma TopHolds(s: State, items: seq<Item>, top: seq<Item>, vals: seq<Value>)
    requires Good(s, items + top) && |top| == |vals| && forall i :: 0 <= i < |top| ==> top[i] == Val(vals[i])
    ensures |s.stack| == |items| + |top| && AllHold(s.buf, s.stack[|items|..], vals)
  {
    hide Holds;
    forall i | 0 <= i < |top|
      ensures Holds(s.buf, s.stack[|items|..][i], vals[i])
    {
      assert (items + top)[|items| + i] == top[i];
      assert SlotIs(s.buf, s.stack[|items| + i], (items + top)[|items| + i]);
    }
  }

  /** Whatever replaces the top of the stack, what is below it still stands. */
  lemma BottomGood(s: State, items: seq<Item>, s1: State, top: seq<Item>, s2: State, slot: Slot, item: Item)
    requires Good(s, items) && Good(s1, items + top) && Grows(s, s1) && Grows(s1, s2)
    requires s2.stack == s.stack + [slot] && s2.stringPool == s1.stringPool && SlotIs(s2.buf, slot, item)
    ensures Good(s2, items + [item])
  {
    hide SlotIs, StringPoolOk;
    PoolStays(s1, s2);
    GrowsTwice(s, s1, s2);
    GoodNext(s, items, s2, slot, item);
  }

  lemma VectorEnds(s: State, items: seq<Item>, s1: State, v: Value)
    requires Good(s, items) && StackOk(s) && v.Vec? && Buildable(v) && |s.buf| + Cost(v) < LIMIT
    requires StackOk(s1) && Good(s1, items + ElemItems(v, 0)) && Grows(s, s1) && |s1.buf| <= |s.buf| + CostFrom(v, 0)
    requires |s.stack| <= |s1.stack| && s1.stack[..|s.stack|] == s.stack && SlotsOk(s1.stack[|s.stack|..], |s1.buf|)
    ensures Good(EndVector(s1, |s.stack|), items + [Val(Vec(CanonicalElems(v)))]) && Grows(s, EndVector(s1, |s.stack|))
    ensures |EndVector(s1, |s.stack|).buf| <= |s.buf| + Cost(v)
    ensures EndVector(s1, |s.stack|).hasDuplicateKeys == s1.hasDuplicateKeys
  {
    hide Holds, CreateVector, StringPoolOk, Buildable, Canonical, CostFrom, SlotsOk;
    assert |s.stack| == |items|;
    var vals := CanonicalElems(v);
    TopHolds(s1, items, ElemItems(v, 0), vals);
    var slots := s1.stack[|s.stack|..];
    VectorCreated(s1, slots, vals);
    VectorLength(s1, slots, 1, None);
    var s2 := EndVector(s1, |s.stack|);
    assert s2.stack == s.stack + [s2.stack[|s.stack|]];
    BottomGood(s, items, s1, ElemItems(v, 0), s2, s2.stack[|s.stack|], Val(Vec(vals)));
    GrowsTwice(s, s1, s2);
  }

  function CanonicalMembers(v: Value): (r: seq<Value>)
    requires v.Map? && Buildable(v)
    ensures |r| == |v.values| && forall i :: 0 <= i < |r| ==> r[i] == Canonical(v.values[i])
  {
    seq(|v.values|, i requires 0 <= i < |v.values| => Canonical(v.values[i]))
  }

  /** The interleaved slots above a point of the stack hold the keys and the values. */
  lemma PairsHold(s: State, items: seq<Item>, top: seq<Item>, ks: seq<seq<byte>>, vals: seq<Value>)
    requires Good(s, items + top) && |ks| == |vals| && |top| == 2 * |ks|
    requires forall j :: 0 <= j < |ks| ==> top[2 * j] == KeyItem(ks[j]) && top[2 * j + 1] == Val(vals[j])
    ensures |s.stack| == |items| + 2 * |ks|
    ensures KeysHold(s.buf, KeySlots(s.stack, |items|, |ks|), ks)
    ensures AllHold(s.buf, ValueSlots(s.stack, |items|, |ks|), vals)
  {
    hide Holds, HoldsKey;
    forall j | 0 <= j < |ks|
      ensures HoldsKey(s.buf, KeySlots(s.stack, |items|, |ks|)[j], ks[j])
      ensures Holds(s.buf, ValueSlots(s.stack, |items|, |ks|)[j], vals[j])
    {
      assert (items + top)[|items| + 2 * j] == top[2 * j] && (items + top)[|items| + 2 * j + 1] == top[2 * j + 1];
      assert SlotIs(s.buf, s.stack[|items| + 2 * j], (items + top)[|items| + 2 * j]);
      assert SlotIs(s.buf, s.stack[|items| + 2 * j + 1], (items + top)[|items| + 2 * j + 1]);
    }
  }

  lemma KeysSeen(buf: seq<byte>, slots: seq<Slot>, ks: seq<seq<byte>>)
    requires KeysHold(buf, slots, ks)
    ensures KeysOf(buf, slots) == ks
  {
    forall i | 0 <= i < |slots|
      ensures KeysOf(buf, slots)[i] == ks[i]
    {
      OneKeyRead(buf, slots, ks, i);
    }
  }

  lemma PermutedHold(buf: seq<byte>, keys: seq<Slot>, ks: seq<seq<byte>>, values: seq<Slot>, vals: seq<Value>, order: seq<nat>)
    requires KeysHold(buf, keys, ks) && AllHold(buf, values, vals) && |ks| == |vals| && forall i :: 0 <= i < |order| ==> order[i] < |ks|
    ensures KeysHold(buf, Permuted(keys, order), Permuted(ks, order))
    ensures AllHold(buf, Permuted(values, order), Permuted(vals, order))
  {
    hide Holds, HoldsKey;
  }

  lemma CanonicalMap(v: Value)
    requires v.Map? && Buildable(v)
    ensures |v.keys| == |v.values|
    ensures Canonical(v) == Map(Permuted(v.keys, Order(v.keys)), Permuted(CanonicalMembers(v), Order(v.keys)))
  {
    hide Order;
    var order := Order(v.keys);
    assert seq(|order|, i requires 0 <= i < |order| => Canonical(v.values[order[i]])) == Permuted(CanonicalMembers(v), order);
  }

  /** The key vector and the map of sorted pairs. */
  lemma SortedMapEnds(s: State, start: nat, keys: seq<Slot>, ks: seq<seq<byte>>, values: seq<Slot>, vals: seq<Value>)
    requires start <= |s.stack| && SlotsOk(keys, |s.buf|) && SlotsOk(values, |s.buf|) && |keys| == |values| == |ks| == |vals|
    requires KeysHold(s.buf, keys, ks) && AllHold(s.buf, values, vals) && |s.buf| + 128 * |ks| + 128 < LIMIT
    ensures var s' := EndSortedMap(s, start, keys, values);
      && Grows(s, s') && s' == s.(buf := s'.buf, stack := s'.stack) && |s'.buf| <= |s.buf| + 46 + 17 * |ks|
      && |s'.stack| == start + 1 && s'.stack[..start] == s.stack[..start]
      && Holds(s'.buf, s'.stack[start], Map(ks, vals))
  {
    hide Holds, KeysHold, CreateVector, CreateKeyVector, SlotsOk, AllHold, KeysRead;
    KeyVectorCreated(s, keys, ks);
    KeyVectorLength(s, keys);
    var (s1, keySlot) := CreateKeyVector(s, keys);
    assert s1.buf == s.buf + s1.buf[|s.buf|..];
    AllStay(s.buf, s1.buf[|s.buf|..], values, vals);
    SlotsOkLarger(values, |s.buf|, |s1.buf|);
    MapCreated(s1, values, vals, keySlot, ks);
    VectorLength(s1, values, 2, Some(keySlot));
    var s2 := CreateVector(s1, values, 2, Some(keySlot)).0;
    assert s2.buf[..|s.buf|] == s1.buf[..|s.buf|];
  }

  lemma EndMapIs(s: State, start: nat, n: nat, ks: seq<seq<byte>>)
    requires |s.stack| == start + 2 * n && SlotsOk(s.stack, |s.buf|) && KeysOf(s.buf, KeySlots(s.stack, start, n)) == ks
    ensures var order := Order(ks);
      && |ks| == n
      && SlotsOk(Permuted(KeySlots(s.stack, start, n), order), |s.buf|) && SlotsOk(Permuted(ValueSlots(s.stack, start, n), order), |s.buf|)
      && EndMap(s, start, n) ==
         EndSortedMap(s, start, Permuted(KeySlots(s.stack, start, n), order), Permuted(ValueSlots(s.stack, start, n), order)).(
           hasDuplicateKeys := s.hasDuplicateKeys || !Distinct(ks))
  {
    hide Order, EndSortedMap, SlotsOk, Distinct;
    PairsOk(s, start, n, Order(ks));
  }

  lemma MapEnds(s: State, items: seq<Item>, s1: State, v: Value)
    requires Good(s, items) && StackOk(s) && v.Map? && Buildable(v) && |s.buf| + Cost(v) < LIMIT
    requires StackOk(s1) && Good(s1, items + MemberItems(v, 0)) && Grows(s, s1) && |s1.buf| <= |s.buf| + CostFrom(v, 0)
    requires |s1.stack| == |s.stack| + 2 * |v.values| && s1.stack[..|s.stack|] == s.stack
    ensures Good(EndMap(s1, |s.stack|, |v.values|), items + [Val(Canonical(v))]) && Grows(s, EndMap(s1, |s.stack|, |v.values|))
    ensures |EndMap(s1, |s.stack|, |v.values|).buf| <= |s.buf| + Cost(v)
    ensures EndMap(s1, |s.stack|, |v.values|).hasDuplicateKeys <==> s1.hasDuplicateKeys || !Distinct(v.keys)
  {
    CanonicalMap(v);
    hide Holds, StringPoolOk, Buildable, Canonical, CostFrom, Order, EndMap, EndSortedMap, MemberItems, KeySlots, ValueSlots, Permuted, SlotsOk, KeysHold, AllHold, Distinct, CanonicalMembers;
    var n, start := |v.values|, |s.stack|;
    MapSlots(items, s1, v);
    EndMapIs(s1, start, n, v.keys);
    var order := Order(v.keys);
    SortedMapEnds(s1, start, Permuted(KeySlots(s1.stack, start, n), order), Permuted(v.keys, order),
                  Permuted(ValueSlots(s1.stack, start, n), order), Permuted(CanonicalMembers(v), order));
    var s2 := EndMap(s1, start, n);
    assert s2.stack == s.stack + [s2.stack[start]];
    BottomGood(s, items, s1, MemberItems(v, 0), s2, s2.stack[start], Val(Canonical(v)));
    GrowsTwice(s, s1, s2);
  }

  /** The members' slots, in key order, hold the keys and values in key order. */
  lemma MapSlots(items: seq<Item>, s1: State, v: Value)
    requires v.Map? && Buildable(v) && Good(s1, items + MemberItems(v, 0))
    ensures var n := |v.values|; var start := |items|; var order := Order(v.keys);
      && |v.keys| == n && |s1.stack| == start + 2 * n
      && KeysOf(s1.buf, KeySlots(s1.stack, start, n)) == v.keys
      && KeysHold(s1.buf, Permuted(KeySlots(s1.stack, start, n), order), Permuted(v.keys, order))
      && AllHold(s1.buf, Permuted(ValueSlots(s1.stack, start, n), order), Permuted(CanonicalMembers(v), order))
  {
    hide Holds, KeysHold, StringPoolOk, Buildable, Canonical, AllHold, Order, KeysOf, MemberItems, KeySlots, ValueSlots, Good;
    var n, start := |v.values|, |items|;
    var vals := CanonicalMembers(v);
    MembersAt(v);
    PairsHold(s1, items, MemberItems(v, 0), v.keys, vals);
    var keys, values := KeySlots(s1.stack, start, n), ValueSlots(s1.stack, start, n);
    KeysSeen(s1.buf, keys, v.keys);
    PermutedHold(s1.buf, keys, v.keys, values, vals, Order(v.keys));
  }

  lemma MemberLengths(v: Value)
    requires v.Map? && Buildable(v)
    ensures |v.keys| == |v.values|
  {}

  lemma MembersAt(v: Value)
    requires v.Map? && Buildable(v)
    ensures |v.keys| == |v.values| && |MemberItems(v, 0)| == 2 * |v.keys|
    ensures forall j :: 0 <= j < |v.keys| ==> MemberItems(v, 0)[2 * j] == KeyItem(v.keys[j]) && MemberItems(v, 0)[2 * j + 1] == Val(CanonicalMembers(v)[j])
  {
    MemberLengths(v);
    hide Buildable, Canonical, MemberItems, CanonicalMembers;
    forall j | 0 <= j < |v.keys|
      ensures MemberItems(v, 0)[2 * j] == KeyItem(v.keys[j]) && MemberItems(v, 0)[2 * j + 1] == Val(CanonicalMembers(v)[j])
    {
      MemberAt(v, j);
    }
  }

  lemma MemberAt(v: Value, j: nat)
    requires v.Map? && Buildable(v) && j < |v.keys| == |v.values|
    ensures MemberItems(v, 0)[2 * j] == KeyItem(v.keys[j]) && MemberItems(v, 0)[2 * j + 1] == Val(Canonical(v.values[j]))
  {
    hide Buildable, Canonical, MemberItems;
    Halves(j);
    var k := 2 * j;
    assert MemberItems(v, 0)[k] == MemberItem(v, 2 * 0 + k) && MemberItems(v, 0)[k + 1] == MemberItem(v, 2 * 0 + (k + 1));
  }

  lemma Halves(j: nat)
    ensures (2 * j) % 2 == 0 && (2 * j) / 2 == j && (2 * j + 1) % 2 == 1 && (2 * j + 1) / 2 == j
  {}

  // ----- the whole way

  /** A new builder. */
  function Fresh(shareKeys: bool, shareStrings: bool, forceMin: BitWidth): (s: State)
    ensures StackOk(s) && s.stack == [] && s.buf == [] && s.stringPool == [] && !s.hasDuplicateKeys
  {
    Init(shareKeys, shareStrings).(forceMin := forceMin)
  }

  /** What a caller sends: a fresh builder, the value, and Finish. */
  function Encode(v: Value, shareKeys: bool, shareStrings: bool, forceMin: BitWidth): seq<byte>
    requires Buildable(v)
  {
    Finish(Build(Fresh(shareKeys, shareStrings, forceMin), v)).buf
  }

  /** The root's width, and what is written behind the rest of the buffer. */
  lemma FinishReads(s: State, v: Value)
    requires |s.stack| == 1 && SlotsOk(s.stack, |s.buf|) && Holds(s.buf, s.stack[0], v) && |s.buf| + 64 < LIMIT
    ensures var buf := Finish(s).buf;
      |buf| > 0 && RootReference(buf).Got? && Reads(buf, RootReference(buf).value, v)
  {
    hide Holds, Reads, ReadUnsigned, Le, PaddingBytes, ElemWidth, Room, SlotsOk;
    var root := s.stack[0];
    assert root in s.stack;
    RootOk(s);
    var w := ElemWidth(root, |s.buf|, 0);
    AlignLength(s, w);
    var b1 := Align(s, w).buf;
    assert b1 == s.buf + Zeros(PaddingBytes(|s.buf|, ByteWidth(w)));
    HoldsStays(s.buf, Zeros(PaddingBytes(|s.buf|, ByteWidth(w))), root, v);
    var tail := Le(StoredPackedType(root, 0), 1) + Le(ByteWidth(w), 1);
    WriteAnyReads(b1, root, v, w, 0, tail);
    var b2 := WriteAny(b1, root, ByteWidth(w));
    var buf := Finish(s).buf;
    assert buf == b2 + tail;
    TailRead(b2, StoredPackedType(root, 0), ByteWidth(w));
  }

  lemma RootOk(s: State)
    requires |s.stack| == 1 && SlotsOk(s.stack, |s.buf|) && |s.buf| + 64 < LIMIT
    ensures SlotOk(s.stack[0], |s.buf|) && s.stack[0].type_ < 37 && StoredPackedType(s.stack[0], 0) < 256
    ensures var w := ElemWidth(s.stack[0], |s.buf|, 0); Fits(Align(s, w).buf, s.stack[0], w)
  {
    hide PaddingBytes, OffsetFits, ElemWidth, Room;
    var root := s.stack[0];
    assert root in s.stack && SlotOk(root, |s.buf|);
    var w := ElemWidth(root, |s.buf|, 0);
    AlignLength(s, w);
    if IsInline(root.type_) {
      InlineWidth(root, |s.buf|, 0);
    } else {
      InMemoryFits(|s.buf|, root.u, 0, 0);
      ElemWidthFits(root, |s.buf|, 0);
      OffsetThere(|s.buf|, root.u, 0, 0, w);
    }
  }

  lemma TailRead(front: seq<byte>, packed: nat, width: nat)
    requires packed < 256 && width < 256
    ensures var buf := front + (Le(packed, 1) + Le(width, 1));
      RootReference(buf) == Got(FromPacked(|front| - width, width, packed))
  {
    hide ReadUnsigned;
    var buf := front + (Le(packed, 1) + Le(width, 1));
    assert Le(packed, 1) == [packed as byte] && Le(width, 1) == [width as byte];
    ByteIsRead(buf, |buf| - 1);
    ByteIsRead(buf, |buf| - 2);
  }

  /**
   * For every value, with keys and strings shared or not and any minimum width, the finished bytes read back
   * as the value, from GetRoot down, with the members of every map in key order.
   */
  lemma RoundTrip(v: Value, shareKeys: bool, shareStrings: bool, forceMin: BitWidth)
    requires Buildable(v) && Cost(v) + 64 < LIMIT
    ensures var buf := Encode(v, shareKeys, shareStrings, forceMin);
      RootReference(buf).Got? && Reads(buf, RootReference(buf).value, Canonical(v))
    ensures Build(Fresh(shareKeys, shareStrings, forceMin), v).hasDuplicateKeys <==> HasDuplicates(v)
  {
    hide Holds, Reads, Build, Finish, RootReference, Canonical, Cost, Fresh;
    var s := Fresh(shareKeys, shareStrings, forceMin);
    assert Good(s, []);
    BuildHolds(s, [], v);
    var r := Build(s, v);
    assert [] + [Val(Canonical(v))] == [Val(Canonical(v))];
    assert SlotIs(r.buf, r.stack[0], [Val(Canonical(v))][0]);
    FinishReads(r, Canonical(v));
  }
}
