/** flexbuffers::Builder as functions on its state. */
module FlexBuilder {
  import opened Bytes
  import opened Common
  import opened FlatReader
  import opened FlexFormat

  /** Builder::Value: 64 bits, which are an absolute offset unless the type is inline, and a width. */
  datatype Slot = Slot(u: nat, type_: nat, width: BitWidth)

  datatype State = State(
    buf: seq<byte>,
    stack: seq<Slot>,
    shareKeys: bool,
    shareStrings: bool,
    forceMin: BitWidth,
    keyPool: seq<nat>,           // offsets of pooled keys
    stringPool: seq<(nat, nat)>, // offsets and lengths of pooled strings
    hasDuplicateKeys: bool,
    finished: bool)

  function Init(shareKeys: bool, shareStrings: bool): State {
    State([], [], shareKeys, shareStrings, 0, [], [], false, false)
  }

  function Append(s: State, bytes: seq<byte>): State {
    s.(buf := s.buf + bytes)
  }

  function PushSlot(s: State, slot: Slot): State {
    s.(stack := s.stack + [slot])
  }

  /** Align: zero bytes up to a multiple of the width. */
  function Align(s: State, w: BitWidth): State {
    Append(s, Zeros(PaddingBytes(|s.buf|, ByteWidth(w))))
  }

  // ----- widths

  /** How far behind the value an offset to it would be stored, index elements beyond the padding. */
  function RelativeOffset(size: nat, u: nat, index: nat, byteWidth: nat): int
    requires IsAlignment(byteWidth)
  {
    size + PaddingBytes(size, byteWidth) + index * byteWidth - u
  }

  /** The loop of ElemWidth over the widths from w on: None is the assertion at its end. */
  function FirstFit(size: nat, u: nat, index: nat, w: BitWidth): Option<BitWidth>
    requires u <= size
    decreases 3 - w
  {
    var width := WidthU(RelativeOffset(size, u, index, ByteWidth(w)));
    if ByteWidth(width) == ByteWidth(w) then Some(width)
    else if w == 3 then None
    else FirstFit(size, u, index, w + 1)
  }

  predicate SlotOk(slot: Slot, size: nat) {
    IsInline(slot.type_) || slot.u <= size
  }

  function ElemWidth(slot: Slot, size: nat, index: nat): BitWidth
    requires SlotOk(slot, size)
  {
    if IsInline(slot.type_) then slot.width
    else if FirstFit(size, slot.u, index, 0).Some? then FirstFit(size, slot.u, index, 0).value
    else 3
  }

  function StoredWidth(slot: Slot, parent: BitWidth): BitWidth {
    if IsInline(slot.type_) then MaxWidth(slot.width, parent) else slot.width
  }

  function StoredPackedType(slot: Slot, parent: BitWidth): nat {
    PackedType(StoredWidth(slot, parent), slot.type_)
  }

  // ----- writing

  /** WriteOffset: relative to where it is written. */
  function WriteOffset(buf: seq<byte>, o: nat, byteWidth: nat): seq<byte>
    requires o <= |buf|
  {
    buf + Le(|buf| - o, byteWidth)
  }

  /** WriteAny: a value, or the offset to it. */
  function WriteAny(buf: seq<byte>, slot: Slot, byteWidth: nat): seq<byte>
    requires SlotOk(slot, |buf|)
  {
    if IsInline(slot.type_) then buf + Le(slot.u, byteWidth) else WriteOffset(buf, slot.u, byteWidth)
  }

  /** The loop that writes the elements of a vector. */
  function WriteAll(buf: seq<byte>, slots: seq<Slot>, byteWidth: nat): (r: seq<byte>)
    requires forall slot :: slot in slots ==> SlotOk(slot, |buf|)
    ensures |buf| <= |r| && r[..|buf|] == buf
    decreases |slots|
  {
    if slots == [] then buf
    else
      var front := WriteAll(buf, slots[..|slots| - 1], byteWidth);
      var last := slots[|slots| - 1];
      assert last in slots && SlotOk(last, |buf|);
      WriteAny(front, last, byteWidth)
  }

  function PackedTypes(slots: seq<Slot>, parent: BitWidth): (r: seq<byte>)
    requires forall slot :: slot in slots ==> slot.type_ < 37
    ensures |r| == |slots|
  {
    if slots == [] then []
    else
      assert slots[0] in slots;
      [StoredPackedType(slots[0], parent) as byte] + PackedTypes(slots[1..], parent)
  }

  /** The loop over the elements that finds the width of a vector; step is that between its elements on the stack. */
  function VectorWidth(slots: seq<Slot>, size: nat, w: BitWidth, index: nat, step: nat): BitWidth
    requires forall slot :: slot in slots ==> SlotOk(slot, size)
    decreases |slots|
  {
    if slots == [] then w
    else
      assert slots[0] in slots;
      VectorWidth(slots[1..], size, MaxWidth(w, ElemWidth(slots[0], size, index)), index + step, step)
  }

  predicate SlotsOk(slots: seq<Slot>, size: nat) {
    forall slot :: slot in slots ==> SlotOk(slot, size) && slot.type_ < 37
  }

  /** CreateVector of an untyped vector, or of a map's values when there are keys; the elements are step apart on the stack. */
  function CreateVector(s: State, slots: seq<Slot>, step: nat, keys: Option<Slot>): (State, Slot)
    requires SlotsOk(slots, |s.buf|) && (keys.Some? ==> keys.value.u <= |s.buf|)
  {
    var w0 := MaxWidth(s.forceMin, WidthU(|slots|));
    var w1 := if keys.Some? then MaxWidth(w0, ElemWidth(keys.value, |s.buf|, 0)) else w0;
    var w := VectorWidth(slots, |s.buf|, w1, if keys.Some? then 3 else 1, step);
    var bw := ByteWidth(w);
    var s1 := Align(s, w);
    var b2 := if keys.Some? then WriteOffset(s1.buf, keys.value.u, bw) + Le(ByteWidth(keys.value.width), bw) else s1.buf;
    var b3 := b2 + Le(|slots|, bw);
    var b4 := WriteAll(b3, slots, bw);
    (s.(buf := b4 + PackedTypes(slots, w)), Slot(|b3|, if keys.Some? then FBT_MAP else FBT_VECTOR, w))
  }

  /** CreateVector of the keys of a map, which are two apart on the stack: a typed vector has no types behind it. */
  function CreateKeyVector(s: State, keys: seq<Slot>): (State, Slot)
    requires SlotsOk(keys, |s.buf|)
  {
    var w := VectorWidth(keys, |s.buf|, MaxWidth(s.forceMin, WidthU(|keys|)), 1, 2);
    var bw := ByteWidth(w);
    var b3 := Align(s, w).buf + Le(|keys|, bw);
    (s.(buf := WriteAll(b3, keys, bw)), Slot(|b3|, FBT_VECTOR_KEY, w))
  }

  // ----- the operations

  /** CreateBlob of a string: its size, its bytes and a zero byte. */
  function CreateString(s: State, chars: seq<byte>): (State, Slot) {
    var w := WidthU(|chars|);
    var b := Align(s, w).buf + Le(|chars|, ByteWidth(w));
    (s.(buf := b + chars + [0]), Slot(|b|, FBT_STRING, w))
  }

  /** The key at an offset of the buffer is this one: what the comparator of key_pool finds out with strcmp. */
  predicate KeyStands(buf: seq<byte>, off: nat, key: seq<byte>) {
    off + |key| + 1 <= |buf| && buf[off..off + |key| + 1] == key + [0]
  }

  function FindKey(buf: seq<byte>, pool: seq<nat>, key: seq<byte>): (r: Option<nat>)
    ensures r.Some? ==> r.value in pool && KeyStands(buf, r.value, key)
    ensures r.None? ==> forall off :: off in pool ==> !KeyStands(buf, off, key)
  {
    if pool == [] then None
    else if KeyStands(buf, pool[0], key) then Some(pool[0])
    else FindKey(buf, pool[1..], key)
  }

  /** Key: a pooled key is removed again, and the offset of the one in the pool used. */
  function Key(s: State, key: seq<byte>): State {
    var off := |s.buf|;
    var s1 := Append(s, key + [0]);
    if !s.shareKeys then PushSlot(s1, Slot(off, FBT_KEY, 0))
    else
      match FindKey(s.buf, s.keyPool, key)
      case Some(pooled) => PushSlot(s, Slot(pooled, FBT_KEY, 0))
      case None => PushSlot(s1.(keyPool := s.keyPool + [off]), Slot(off, FBT_KEY, 0))
  }

  predicate StringStands(buf: seq<byte>, entry: (nat, nat), chars: seq<byte>) {
    entry.1 == |chars| && entry.0 + |chars| <= |buf| && buf[entry.0..entry.0 + |chars|] == chars
  }

  function FindPooled(buf: seq<byte>, pool: seq<(nat, nat)>, chars: seq<byte>): (r: Option<nat>)
    ensures r.Some? ==> (r.value, |chars|) in pool && StringStands(buf, (r.value, |chars|), chars)
    ensures r.None? ==> forall e :: e in pool ==> !StringStands(buf, e, chars)
  {
    if pool == [] then None
    else if StringStands(buf, pool[0], chars) then Some(pool[0].0)
    else FindPooled(buf, pool[1..], chars)
  }

  /** String. */
  function String(s: State, chars: seq<byte>): State {
    var (s1, slot) := CreateString(s, chars);
    if !s.shareStrings then PushSlot(s1, slot)
    else
      match FindPooled(s.buf, s.stringPool, chars)
      case Some(pooled) => PushSlot(s, slot.(u := pooled))
      case None => PushSlot(s1.(stringPool := s.stringPool + [(slot.u, |chars|)]), slot)
  }

  /** The slots of a vector are taken off the stack and the vector put in their place. */
  function EndVector(s: State, start: nat): State
    requires start <= |s.stack| && SlotsOk(s.stack[start..], |s.buf|)
  {
    var (s1, slot) := CreateVector(s, s.stack[start..], 1, None);
    s1.(stack := s.stack[..start] + [slot])
  }

  /** EndMap, once the key and value pairs are sorted: the key vector first, and then the values. */
  function EndSortedMap(s: State, start: nat, keys: seq<Slot>, values: seq<Slot>): State
    requires start <= |s.stack| && |keys| == |values| && SlotsOk(keys, |s.buf|) && SlotsOk(values, |s.buf|)
  {
    var (s1, keySlot) := CreateKeyVector(s, keys);
    KeyVectorGrows(s, keys);
    var (s2, slot) := CreateVector(s1, values, 2, Some(keySlot));
    s2.(stack := s.stack[..start] + [slot])
  }

  lemma KeyVectorGrows(s: State, keys: seq<Slot>)
    requires SlotsOk(keys, |s.buf|)
    ensures |s.buf| <= |CreateKeyVector(s, keys).0.buf| && CreateKeyVector(s, keys).1.u <= |CreateKeyVector(s, keys).0.buf|
  {}

  /** Finish: the one value left, its type and its width. */
  function Finish(s: State): State
    requires |s.stack| == 1 && SlotsOk(s.stack, |s.buf|)
  {
    assert s.stack[0] in s.stack;
    var root := s.stack[0];
    var w := ElemWidth(root, |s.buf|, 0);
    var s1 := Align(s, w);
    var b := WriteAny(s1.buf, root, ByteWidth(w)) + Le(StoredPackedType(root, 0), 1) + Le(ByteWidth(w), 1);
    s.(buf := b, finished := true)
  }
}
