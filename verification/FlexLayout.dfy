/** Where each byte of what the builder writes goes, and that the widths it chooses are the smallest that do. */
module FlexLayout {
  import opened Bytes
  import opened Common
  import opened FlatReader
  import opened FlexFormat
  import opened FlexBuilder
  import opened FlexWidths
  import opened FlexProofs
  import opened FlexRoundTrip

  // ----- the smallest width

  /** A value, or the offset to it, has room in elements of this width, index elements behind the padding. */
  predicate HasRoom(slot: Slot, size: nat, index: nat, w: BitWidth) {
    if IsInline(slot.type_) then slot.width <= w else OffsetFits(size, slot.u, index, w)
  }

  lemma ElemWidthIsLeast(slot: Slot, size: nat, index: nat, w: BitWidth)
    requires SlotOk(slot, size) && (!IsInline(slot.type_) ==> OffsetFits(size, slot.u, index, 3))
    ensures ElemWidth(slot, size, index) <= w <==> HasRoom(slot, size, index, w)
  {
    hide OffsetFits;
    if IsInline(slot.type_) {
      InlineWidth(slot, size, index);
    } else {
      hide ElemWidth;
      ElemWidthFits(slot, size, index);
      if ElemWidth(slot, size, index) <= w {
        WiderStillFits(size, slot.u, index, ElemWidth(slot, size, index), index, w);
      }
    }
  }

  /** Every width that is large enough for w0 and the elements is at least the width of the vector. */
  lemma {:induction false} VectorWidthIsLeast(slots: seq<Slot>, size: nat, w0: BitWidth, index: nat, step: nat, w: BitWidth)
    requires forall slot :: slot in slots ==> SlotOk(slot, size)
    requires w0 <= w && forall i :: 0 <= i < |slots| ==> ElemWidth(slots[i], size, index + i * step) <= w
    ensures VectorWidth(slots, size, w0, index, step) <= w
    decreases |slots|
  {
    hide ElemWidth;
    if slots != [] {
      assert slots[0] in slots && index + 0 * step == index;
      forall i | 0 <= i < |slots[1..]|
        ensures ElemWidth(slots[1..][i], size, index + step + i * step) <= w
      {
        assert index + step + i * step == index + (i + 1) * step;
        assert slots[i + 1] == slots[1..][i];
      }
      VectorWidthIsLeast(slots[1..], size, MaxWidth(w0, ElemWidth(slots[0], size, index)), index + step, step, w);
    }
  }

  lemma VectorWidthExact(slots: seq<Slot>, size: nat, w0: BitWidth, est: nat, step: nat, w: BitWidth)
    requires forall slot :: slot in slots ==> SlotOk(slot, size)
    requires 1 <= step <= 2 && est <= 3 && InMemory(size, |slots|)
    ensures VectorWidth(slots, size, w0, est, step) <= w <==>
      w0 <= w && forall i :: 0 <= i < |slots| ==> HasRoom(slots[i], size, est + i * step, w)
  {
    hide ElemWidth, VectorWidth, OffsetFits, InMemory, HasRoom;
    VectorWidthCovers(slots, size, w0, est, step);
    forall i | 0 <= i < |slots|
      ensures ElemWidth(slots[i], size, est + i * step) <= w <==> HasRoom(slots[i], size, est + i * step, w)
    {
      assert slots[i] in slots;
      Stepped(i, step);
      if !IsInline(slots[i].type_) {
        InMemoryFits(size, slots[i].u, est + i * step, |slots|);
      }
      ElemWidthIsLeast(slots[i], size, est + i * step, w);
    }
    if w0 <= w && forall i :: 0 <= i < |slots| ==> HasRoom(slots[i], size, est + i * step, w) {
      VectorWidthIsLeast(slots, size, w0, est, step, w);
    }
  }

  /**
   * A width is large enough for a vector: it is not below the minimum asked for, and the vector's size, the
   * offset to the keys of a map, and every element where the loop expects it have room.
   */
  ghost predicate Suffices(s: State, slots: seq<Slot>, step: nat, keys: Option<Slot>, w: BitWidth) {
    && s.forceMin <= w && |slots| < Room(w)
    && (keys.Some? ==> HasRoom(keys.value, |s.buf|, 0, w))
    && forall i :: 0 <= i < |slots| ==> HasRoom(slots[i], |s.buf|, (if keys.Some? then 3 else 1) + i * step, w)
  }

  lemma SizeWidth(forceMin: BitWidth, n: nat, w: BitWidth)
    requires n < Room(3)
    ensures MaxWidth(forceMin, WidthU(n)) <= w <==> forceMin <= w && n < Room(w)
  {
    WidthUIsSmallest(n, w);
  }

  /** CreateVector gives a vector, or the values of a map, the smallest width that suffices. */
  lemma CreateVectorWidth(s: State, slots: seq<Slot>, step: nat, keys: Option<Slot>, w: BitWidth)
    requires SlotsOk(slots, |s.buf|) && (keys.Some? ==> keys.value.u <= |s.buf| && !IsInline(keys.value.type_))
    requires 1 <= step <= 2 && InMemory(|s.buf|, |slots|)
    ensures CreateVector(s, slots, step, keys).1.width <= w <==> Suffices(s, slots, step, keys, w)
  {
    SizeWidth(s.forceMin, |slots|, w);
    SlotsForWriting(slots, |s.buf|);
    hide ElemWidth, VectorWidth, PaddingBytes, Le, WriteAll, PackedTypes, OffsetFits, HasRoom, Room, WidthU, SlotsOk;
    var size := |s.buf|;
    var w0 := MaxWidth(s.forceMin, WidthU(|slots|));
    var w1 := if keys.Some? then MaxWidth(w0, ElemWidth(keys.value, size, 0)) else w0;
    if keys.Some? {
      InMemoryFits(size, keys.value.u, 0, |slots|);
      ElemWidthIsLeast(keys.value, size, 0, w);
    }
    VectorWidthExact(slots, size, w1, if keys.Some? then 3 else 1, step, w);
    CreatedWidth(s, slots, step, keys);
  }

  lemma CreatedWidth(s: State, slots: seq<Slot>, step: nat, keys: Option<Slot>)
    requires SlotsOk(slots, |s.buf|) && (keys.Some? ==> keys.value.u <= |s.buf|)
    ensures var w0 := MaxWidth(s.forceMin, WidthU(|slots|));
      var w1 := if keys.Some? then MaxWidth(w0, ElemWidth(keys.value, |s.buf|, 0)) else w0;
      CreateVector(s, slots, step, keys).1.width == VectorWidth(slots, |s.buf|, w1, if keys.Some? then 3 else 1, step)
  {
    hide ElemWidth, VectorWidth, PaddingBytes, Le, WriteAll, PackedTypes, WidthU;
  }

  /** The vector of a map's keys likewise; they are two apart on the stack. */
  lemma CreateKeyVectorWidth(s: State, keys: seq<Slot>, w: BitWidth)
    requires SlotsOk(keys, |s.buf|) && InMemory(|s.buf|, |keys|)
    ensures CreateKeyVector(s, keys).1.width <= w <==> Suffices(s, keys, 2, None, w)
  {
    SizeWidth(s.forceMin, |keys|, w);
    SlotsForWriting(keys, |s.buf|);
    CreateKeyVectorIs(s, keys);
    hide VectorWidth, OffsetFits, HasRoom, Room, WidthU, SlotsOk, CreateKeyVector;
    VectorWidthExact(keys, |s.buf|, MaxWidth(s.forceMin, WidthU(|keys|)), 1, 2, w);
  }

  /** EndVector and the end of EndMap leave a vector of the smallest width that suffices on the stack. */
  lemma EndVectorWidth(s: State, start: nat, w: BitWidth)
    requires start <= |s.stack| && SlotsOk(s.stack[start..], |s.buf|) && InMemory(|s.buf|, |s.stack| - start)
    ensures |EndVector(s, start).stack| == start + 1
    ensures EndVector(s, start).stack[start].width <= w <==> Suffices(s, s.stack[start..], 1, None, w)
  {
    CreateVectorWidth(s, s.stack[start..], 1, None, w);
    hide CreateVector, Suffices;
  }

  lemma EndSortedMapWidth(s: State, start: nat, keys: seq<Slot>, values: seq<Slot>, w: BitWidth)
    requires start <= |s.stack| && |keys| == |values| && SlotsOk(keys, |s.buf|) && SlotsOk(values, |s.buf|)
    requires InMemory(|s.buf| + 15 + 8 * |keys|, |keys|)
    ensures var s' := EndSortedMap(s, start, keys, values); var (s1, keySlot) := CreateKeyVector(s, keys);
      && |s'.stack| == start + 1
      && (keySlot.width <= w <==> Suffices(s, keys, 2, None, w))
      && (s'.stack[start].width <= w <==> Suffices(s1, values, 2, Some(keySlot), w))
  {
    KeyVectorLength(s, keys);
    KeyVectorGrows(s, keys);
    KeyVectorSame(s, keys);
    CreateKeyVectorWidth(s, keys, w);
    var (s1, keySlot) := CreateKeyVector(s, keys);
    SlotsOkLarger(values, |s.buf|, |s1.buf|);
    KeyVectorIsNoInline(s, keys);
    hide CreateVector, CreateKeyVector, SlotsOk, Suffices;
    CreateVectorWidth(s1, values, 2, Some(keySlot), w);
  }

  lemma KeyVectorIsNoInline(s: State, keys: seq<Slot>)
    requires SlotsOk(keys, |s.buf|)
    ensures !IsInline(CreateKeyVector(s, keys).1.type_)
  {}

  // ----- where the bytes go

  /** Zero bytes up to the next multiple of the width, and no more. */
  ghost predicate PaddedTo(buf: seq<byte>, from: nat, to: nat, w: BitWidth) {
    && from <= to <= |buf| && to < from + ByteWidth(w) && to % ByteWidth(w) == 0
    && forall i :: from <= i < to ==> buf[i] == 0
  }

  lemma AlignPads(s: State, w: BitWidth, more: seq<byte>)
    ensures PaddedTo(Align(s, w).buf + more, |s.buf|, |Align(s, w).buf|, w)
    ensures (Align(s, w).buf + more)[..|s.buf|] == s.buf
  {
    hide PaddingBytes;
    AlignLength(s, w);
    AlignedIsMultiple(|Align(s, w).buf|, ByteWidth(w));
  }

  /** How the type byte of an element says how wide it is: an inline value is as wide as the elements, whatever it needs. */
  function TypeByte(slot: Slot, w: BitWidth): nat {
    4 * slot.type_ + if IsInline(slot.type_) then w else slot.width
  }

  lemma StoredAsTyped(slot: Slot, size: nat, index: nat, w: BitWidth)
    requires SlotOk(slot, size) && ElemWidth(slot, size, index) <= w
    ensures StoredPackedType(slot, w) == TypeByte(slot, w)
  {
    if IsInline(slot.type_) {
      InlineWidth(slot, size, index);
    }
  }

  /** What a vector of n elements looks like, from the end of the old buffer on; head is what is before its data. */
  ghost predicate VectorLaidOut(before: seq<byte>, after: seq<byte>, data: nat, head: nat, n: nat, w: BitWidth) {
    && |before| <= |after| && after[..|before|] == before
    && head * ByteWidth(w) <= data <= |after|
    && PaddedTo(after, |before|, data - head * ByteWidth(w), w)
    && data - ByteWidth(w) >= 0 && after[data - ByteWidth(w)..data] == Le(n, ByteWidth(w))
  }

  lemma BodyLaidOut(s: State, w: BitWidth, fields: seq<byte>, head: nat, n: nat, body: seq<byte>)
    requires head >= 1 && |fields| == (head - 1) * ByteWidth(w)
    ensures var data := |Align(s, w).buf| + |fields| + ByteWidth(w);
      VectorLaidOut(s.buf, Align(s, w).buf + fields + Le(n, ByteWidth(w)) + body, data, head, n, w)
  {
    hide PaddingBytes, Le, PaddedTo, Align;
    var b1, bw := Align(s, w).buf, ByteWidth(w);
    AlignPads(s, w, fields + Le(n, bw) + body);
    AlignLength(s, w);
    assert b1 + fields + Le(n, bw) + body == b1 + (fields + Le(n, bw) + body);
    assert (head - 1) * bw + bw == head * bw;
    assert (b1 + fields + Le(n, bw) + body)[|b1 + fields|..|b1 + fields| + bw] == Le(n, bw);
  }

  /** Types behind elements that have room. */
  lemma TypesWritten(buf: seq<byte>, slots: seq<Slot>, size: nat, w0: BitWidth, est: nat, step: nat)
    requires SlotsOk(slots, size)
    requires (forall slot :: slot in slots ==> SlotOk(slot, size)) && (forall slot :: slot in slots ==> slot.type_ < 37)
    ensures var w := VectorWidth(slots, size, w0, est, step);
      forall i :: 0 <= i < |slots| ==> (buf + PackedTypes(slots, w))[|buf| + i] == TypeByte(slots[i], w)
  {
    hide VectorWidth, ElemWidth, PackedTypes, TypeByte, StoredPackedType, SlotsOk;
    var w := VectorWidth(slots, size, w0, est, step);
    VectorWidthCovers(slots, size, w0, est, step);
    forall i | 0 <= i < |slots|
      ensures (buf + PackedTypes(slots, w))[|buf| + i] == TypeByte(slots[i], w)
    {
      assert slots[i] in slots;
      PackedTypeAt(slots, w, i);
      StoredAsTyped(slots[i], size, est + i * step, w);
    }
  }

  /** What stands before the data of a vector: for a map the offset to its keys and their width, and the size. */
  function Headed(front: seq<byte>, keys: Option<Slot>, n: nat, byteWidth: nat): (r: seq<byte>)
    requires keys.Some? ==> keys.value.u <= |front|
    ensures |r| >= |front|
  {
    front
    + (if keys.Some? then Le(|front| - keys.value.u, byteWidth) + Le(ByteWidth(keys.value.width), byteWidth) else [])
    + Le(n, byteWidth)
  }

  lemma CreateVectorBytes(s: State, slots: seq<Slot>, step: nat, keys: Option<Slot>)
    requires SlotsOk(slots, |s.buf|) && (keys.Some? ==> keys.value.u <= |s.buf|)
    ensures var (s', slot) := CreateVector(s, slots, step, keys); var w := slot.width; var b1 := Align(s, w).buf;
      && |s.buf| <= |b1|
      && var b3 := Headed(b1, keys, |slots|, ByteWidth(w));
      && SlotsOk(slots, |b3|)
      && s' == s.(buf := WriteAll(b3, slots, ByteWidth(w)) + PackedTypes(slots, w))
      && slot == Slot(|b3|, if keys.Some? then FBT_MAP else FBT_VECTOR, w)
  {
    hide PaddingBytes, VectorWidth, ElemWidth, Le, WriteAll, PackedTypes, SlotsOk, WidthU;
    CreatedWidth(s, slots, step, keys);
    var w := CreateVector(s, slots, step, keys).1.width;
    AlignLength(s, w);
    var b1, bw := Align(s, w).buf, ByteWidth(w);
    HeadWritten(b1, keys, |slots|, bw);
    SlotsOkLarger(slots, |s.buf|, |Headed(b1, keys, |slots|, bw)|);
  }

  lemma HeadWritten(front: seq<byte>, keys: Option<Slot>, n: nat, byteWidth: nat)
    requires keys.Some? ==> keys.value.u <= |front|
    ensures Headed(front, keys, n, byteWidth) ==
      (if keys.Some? then WriteOffset(front, keys.value.u, byteWidth) + Le(ByteWidth(keys.value.width), byteWidth) else front) + Le(n, byteWidth)
  {
    hide Le;
    if keys.Some? {
      var o, k := Le(|front| - keys.value.u, byteWidth), Le(ByteWidth(keys.value.width), byteWidth);
      assert front + (o + k) == front + o + k;
    } else {
      assert front + [] == front;
    }
  }

  lemma HeadLaidOut(s: State, w: BitWidth, keys: Option<Slot>, n: nat, body: seq<byte>)
    requires keys.Some? ==> keys.value.u <= |Align(s, w).buf|
    ensures var b3 := Headed(Align(s, w).buf, keys, n, ByteWidth(w));
      VectorLaidOut(s.buf, b3 + body, |b3|, if keys.Some? then 3 else 1, n, w)
  {
    hide Align, Le, VectorLaidOut, ByteWidth;
    var b1, bw := Align(s, w).buf, ByteWidth(w);
    if keys.Some? {
      BodyLaidOut(s, w, Le(|b1| - keys.value.u, bw) + Le(ByteWidth(keys.value.width), bw), 3, n, body);
    } else {
      BodyLaidOut(s, w, [], 1, n, body);
    }
  }

  lemma VectorBody(s: State, slots: seq<Slot>, step: nat, keys: Option<Slot>)
    requires SlotsOk(slots, |s.buf|) && (keys.Some? ==> keys.value.u <= |s.buf|)
    ensures var (s', slot) := CreateVector(s, slots, step, keys);
      VectorLaidOut(s.buf, s'.buf, slot.u, if keys.Some? then 3 else 1, |slots|, slot.width)
  {
    CreateVectorBytes(s, slots, step, keys);
    hide CreateVector, WriteAll, PackedTypes, SlotsOk, VectorLaidOut, Headed, Align, ByteWidth, IsAlignment;
    var (s', slot) := CreateVector(s, slots, step, keys);
    var w := slot.width;
    var b3 := Headed(Align(s, w).buf, keys, |slots|, ByteWidth(w));
    SlotsForWriting(slots, |b3|);
    var written := WriteAll(b3, slots, ByteWidth(w));
    Regrouped(b3, written, PackedTypes(slots, w));
    HeadLaidOut(s, w, keys, |slots|, written[|b3|..] + PackedTypes(slots, w));
  }

  lemma Regrouped(front: seq<byte>, whole: seq<byte>, tail: seq<byte>)
    requires |front| <= |whole| && whole[..|front|] == front
    ensures whole + tail == front + (whole[|front|..] + tail)
  {}

  lemma VectorTypes(s: State, slots: seq<Slot>, step: nat, keys: Option<Slot>)
    requires SlotsOk(slots, |s.buf|) && (keys.Some? ==> keys.value.u <= |s.buf|)
    ensures var (s', slot) := CreateVector(s, slots, step, keys); var elements := |slots| * ByteWidth(slot.width);
      && |s'.buf| == slot.u + elements + |slots|
      && forall i :: 0 <= i < |slots| ==> s'.buf[slot.u + elements + i] == TypeByte(slots[i], slot.width)
  {
    CreateVectorBytes(s, slots, step, keys);
    CreatedWidth(s, slots, step, keys);
    SlotsForWriting(slots, |s.buf|);
    hide CreateVector, VectorWidth, ElemWidth, WriteAll, PackedTypes, SlotsOk, WidthU, Headed, Align, TypeByte;
    var (s', slot) := CreateVector(s, slots, step, keys);
    var w, bw := slot.width, ByteWidth(slot.width);
    var b3 := Headed(Align(s, w).buf, keys, |slots|, bw);
    SlotsForWriting(slots, |b3|);
    WriteAllLength(b3, slots, bw);
    var w0 := MaxWidth(s.forceMin, WidthU(|slots|));
    var w1 := if keys.Some? then MaxWidth(w0, ElemWidth(keys.value, |s.buf|, 0)) else w0;
    TypesWritten(WriteAll(b3, slots, bw), slots, |s.buf|, w1, if keys.Some? then 3 else 1, step);
  }

  /**
   * CreateVector: padding, the two fields that lead to a map's keys, the size, the elements, and a byte with
   * the type of each; nothing else, and nothing but the buffer changes.
   */
  lemma VectorLayout(s: State, slots: seq<Slot>, step: nat, keys: Option<Slot>)
    requires SlotsOk(slots, |s.buf|) && (keys.Some? ==> keys.value.u <= |s.buf|)
    ensures var (s', slot) := CreateVector(s, slots, step, keys); var elements := |slots| * ByteWidth(slot.width);
      && s' == s.(buf := s'.buf) && slot.type_ == (if keys.Some? then FBT_MAP else FBT_VECTOR)
      && VectorLaidOut(s.buf, s'.buf, slot.u, if keys.Some? then 3 else 1, |slots|, slot.width)
      && |s'.buf| == slot.u + elements + |slots|
      && forall i :: 0 <= i < |slots| ==> s'.buf[slot.u + elements + i] == TypeByte(slots[i], slot.width)
  {
    CreateVectorBytes(s, slots, step, keys);
    VectorBody(s, slots, step, keys);
    VectorTypes(s, slots, step, keys);
    hide CreateVector, SlotsOk, VectorLaidOut, Headed, Align, TypeByte, WriteAll, PackedTypes;
  }

  /** The vector of a map's keys has no types behind it. */
  lemma KeyVectorLayout(s: State, keys: seq<Slot>)
    requires SlotsOk(keys, |s.buf|)
    ensures var (s', slot) := CreateKeyVector(s, keys);
      && s' == s.(buf := s'.buf) && slot.type_ == FBT_VECTOR_KEY
      && VectorLaidOut(s.buf, s'.buf, slot.u, 1, |keys|, slot.width)
      && |s'.buf| == slot.u + |keys| * ByteWidth(slot.width)
  {
    CreateKeyVectorIs(s, keys);
    hide CreateKeyVector, PaddingBytes, KeyWidth, Le, WriteAll, SlotsOk, VectorLaidOut, Align, ByteWidth, IsAlignment;
    var w := KeyWidth(s, keys);
    var b3 := Align(s, w).buf + Le(|keys|, ByteWidth(w));
    SlotsForWriting(keys, |b3|);
    WriteAllLength(b3, keys, ByteWidth(w));
    var b4 := WriteAll(b3, keys, ByteWidth(w));
    PlainBodyLaidOut(s, w, |keys|, b4[|b3|..]);
    assert b4 == b3 + b4[|b3|..];
  }

  lemma PlainBodyLaidOut(s: State, w: BitWidth, n: nat, body: seq<byte>)
    ensures var b3 := Align(s, w).buf + Le(n, ByteWidth(w)); VectorLaidOut(s.buf, b3 + body, |b3|, 1, n, w)
  {
    hide Align, Le, VectorLaidOut;
    BodyLaidOut(s, w, [], 1, n, body);
    assert Align(s, w).buf + [] == Align(s, w).buf;
  }

  /** A string: the smallest width for its size, its size, its bytes, and a zero byte. */
  lemma StringLayout(s: State, chars: seq<byte>, w: BitWidth)
    requires |chars| < Room(3)
    ensures var (s', slot) := CreateString(s, chars);
      && s' == s.(buf := s'.buf) && slot.type_ == FBT_STRING
      && (slot.width <= w <==> |chars| < Room(w))
      && VectorLaidOut(s.buf, s'.buf, slot.u, 1, |chars|, slot.width)
      && s'.buf[slot.u..] == chars + [0]
  {
    WidthUIsSmallest(|chars|, w);
    hide PaddingBytes, Le, WidthU, VectorLaidOut, Align, Room;
    var w0 := WidthU(|chars|);
    PlainBodyLaidOut(s, w0, |chars|, chars + [0]);
    AlignLength(s, w0);
    var b := Align(s, w0).buf + Le(|chars|, ByteWidth(w0));
    assert b + chars + [0] == b + (chars + [0]);
  }

  /** Null, Bool, Int and UInt: the smallest width that holds the number. */
  lemma InlineWidthIsLeast(v: Value, w: BitWidth)
    requires InRange(v) && !v.Str? && !v.Vec? && !v.Map?
    ensures Inline(v).width <= w <==>
      match v {
        case Int(i) => -(Room(w) as int) <= 2 * i < Room(w)
        case UInt(u) => u < Room(w)
        case _ => true
      }
  {
    match v
    case Int(i) => WidthIIsSmallest(i, w);
    case UInt(u) => WidthUIsSmallest(u, w);
    case _ =>
  }

  lemma OneByte(n: nat)
    requires n < 256
    ensures Le(n, 1) == [n as byte]
  {}

  lemma WriteAnyAppends(buf: seq<byte>, slot: Slot, byteWidth: nat)
    requires SlotOk(slot, |buf|)
    ensures var r := WriteAny(buf, slot, byteWidth); |r| == |buf| + byteWidth && r[..|buf|] == buf
  {}

  lemma FinishBytes(s: State) returns (root: Slot, k: BitWidth, body: seq<byte>)
    requires |s.stack| == 1 && SlotsOk(s.stack, |s.buf|) && |s.buf| + 64 < LIMIT
    ensures root == s.stack[0] && SlotOk(root, |s.buf|) && k == ElemWidth(root, |s.buf|, 0) && |body| == ByteWidth(k)
    ensures StoredPackedType(root, 0) < 256
    ensures Finish(s) == s.(finished := true, buf := Align(s, k).buf + (body + [StoredPackedType(root, 0) as byte, ByteWidth(k) as byte]))
  {
    RootOk(s);
    hide PaddingBytes, Le, ElemWidth, SlotsOk, Fits, WriteAny, StoredPackedType;
    root := s.stack[0];
    k := ElemWidth(root, |s.buf|, 0);
    var b1 := Align(s, k).buf;
    AlignLength(s, k);
    WriteAnyAppends(b1, root, ByteWidth(k));
    var b2 := WriteAny(b1, root, ByteWidth(k));
    body := b2[|b1|..];
    OneByte(StoredPackedType(root, 0));
    OneByte(ByteWidth(k));
    var tail := Le(StoredPackedType(root, 0), 1) + Le(ByteWidth(k), 1);
    Regrouped(b1, b2, tail);
    assert b2 + Le(StoredPackedType(root, 0), 1) + Le(ByteWidth(k), 1) == b2 + tail;
  }

  /**
   * Finish: padding, the root or the offset to it in the smallest width it fits, a byte with its type and
   * its own width, and a byte with the number of bytes it was given.
   */
  lemma FinishLayout(s: State, w: BitWidth)
    requires |s.stack| == 1 && SlotsOk(s.stack, |s.buf|) && |s.buf| + 64 < LIMIT
    ensures var root := s.stack[0]; var size := |s.buf|; var buf := Finish(s).buf;
      && SlotOk(root, size)
      && var k := ElemWidth(root, size, 0);
      && (k <= w <==> HasRoom(root, size, 0, w))
      && |buf| >= ByteWidth(k) + 2 && PaddedTo(buf, size, |buf| - ByteWidth(k) - 2, k) && buf[..size] == s.buf
      && buf[|buf| - 1] == ByteWidth(k) && buf[|buf| - 2] == 4 * root.type_ + root.width
      && Finish(s) == s.(buf := buf, finished := true)
  {
    hide PaddingBytes, ElemWidth, OffsetFits, PaddedTo, SlotsOk, Align, HasRoom, Finish;
    var root, k, body := FinishBytes(s);
    if !IsInline(root.type_) {
      InMemoryFits(|s.buf|, root.u, 0, 0);
    }
    ElemWidthIsLeast(root, |s.buf|, 0, w);
    AlignPads(s, k, body + [StoredPackedType(root, 0) as byte, ByteWidth(k) as byte]);
  }
}
