/** What the builder writes can be read: scalars, strings, vectors, key vectors and maps. */
module FlexProofs {
  import opened Bytes
  import opened Common
  import opened FlatReader
  import opened FlexFormat
  import opened FlexBuilder
  import opened FlexWidths

  // ----- slots that stand for values

  predicate InRange(v: Value) {
    match v
    case Int(i) => -0x8000_0000_0000_0000 <= i < 0x8000_0000_0000_0000
    case UInt(u) => u < 0x1_0000_0000_0000_0000
    case _ => true
  }

  /** The slot is how the stack holds the value. */
  ghost predicate Holds(buf: seq<byte>, slot: Slot, v: Value) {
    && InRange(v)
    && (IsInline(slot.type_) || slot.u <= |buf|)
    && match v
       case Null => slot == Slot(0, FBT_NULL, 0)
       case Bool(b) => slot == Slot(if b then 1 else 0, FBT_BOOL, 0)
       case Int(i) => slot == Slot(Image(i), FBT_INT, WidthI(i))
       case UInt(u) => slot == Slot(u, FBT_UINT, WidthU(u))
       case Str(s) =>
         && slot.type_ == FBT_STRING
         && ReadSize(buf, slot.u, ByteWidth(slot.width)) == Got(|s|) && ReadBytes(buf, slot.u, |s|) == Got(s)
       case Vec(_) => slot.type_ == FBT_VECTOR && VectorReads(buf, slot.u, ByteWidth(slot.width), v)
       case Map(_, _) => slot.type_ == FBT_MAP && MapReads(buf, slot.u, ByteWidth(slot.width), v)
  }

  /** The 64 bits of an int64. */
  function Image(i: int): nat
    requires -0x8000_0000_0000_0000 <= i < 0x8000_0000_0000_0000
  {
    if i < 0 then i + 0x1_0000_0000_0000_0000 else i
  }

  ghost predicate HoldsKey(buf: seq<byte>, slot: Slot, key: seq<byte>) {
    slot.type_ == FBT_KEY && slot.width == 0 && KeyStands(buf, slot.u, key) && NoZero(key)
  }

  predicate NoZero(key: seq<byte>) {
    forall i :: 0 <= i < |key| ==> key[i] != 0
  }

  lemma HoldsStays(buf: seq<byte>, more: seq<byte>, slot: Slot, v: Value)
    requires Holds(buf, slot, v)
    ensures Holds(buf + more, slot, v)
  {
    hide ReadUnsigned, ReadBytes, VectorReads, MapReads;
    match v
    case Str(s) =>
      ReadStays(buf, more, slot.u - ByteWidth(slot.width), ByteWidth(slot.width));
      BytesStay(buf, more, slot.u, |s|);
    case Vec(_) => VectorStays(buf, more, slot.u, ByteWidth(slot.width), v);
    case Map(_, _) => MapStays(buf, more, slot.u, ByteWidth(slot.width), v);
    case _ =>
  }

  lemma KeyStays(buf: seq<byte>, more: seq<byte>, slot: Slot, key: seq<byte>)
    requires HoldsKey(buf, slot, key)
    ensures HoldsKey(buf + more, slot, key)
  {
    assert (buf + more)[slot.u..slot.u + |key| + 1] == buf[slot.u..slot.u + |key| + 1];
  }

  // ----- writing one value

  /** Reading back n bytes just written, whatever comes after them. */
  lemma WrittenIsRead(buf: seq<byte>, u: nat, w: BitWidth, more: seq<byte>)
    requires u < Room(w)
    ensures ReadUnsigned(buf + Le(u, ByteWidth(w)) + more, |buf|, ByteWidth(w)) == Got(u)
  {
    hide Le, UnLe;
    var n := ByteWidth(w);
    RoomIsPow256(w);
    LeRoundTrip(u, n);
    assert (buf + Le(u, n) + more)[|buf|..|buf| + n] == Le(u, n);
  }

  /** The low bytes of a number are those of its remainder. */
  lemma {:induction false} LeOfRemainder(v: nat, n: nat)
    ensures Le(v, n) == Le(v % Pow256(n), n)
  {
    if n > 0 {
      var p := Pow256(n - 1);
      LeOfRemainder(v / 256, n - 1);
      DivideRemainder(v, p);
    }
  }

  lemma DivideRemainder(v: nat, p: nat)
    requires p > 0
    ensures v % (256 * p) / 256 == v / 256 % p && v % (256 * p) % 256 == v % 256
  {
    var q := v / 256 / p;
    var r := v / 256 % p;
    var d := v % 256;
    assert v == 256 * (q * p + r) + d;
    assert v == q * (256 * p) + (256 * r + d);
    assert 256 * r + d < 256 * p;
    UniqueRemainder(v, 256 * p, q, 256 * r + d);
  }

  lemma UniqueRemainder(v: nat, m: nat, q: nat, r: nat)
    requires m > 0 && v == q * m + r && r < m
    ensures v % m == r
  {
    assert v / m * m + v % m == v;
    if v / m < q {
      assert (v / m + 1) * m <= q * m by {
        Scaled(v / m + 1, q, m);
      }
      assert false;
    } else if v / m > q {
      assert (q + 1) * m <= v / m * m by {
        Scaled(q + 1, v / m, m);
      }
      assert false;
    }
  }

  /** An int64 cut down to a width that has room for it still reads as itself. */
  lemma SignedIsRead(buf: seq<byte>, i: int, w: BitWidth, more: seq<byte>)
    requires -0x8000_0000_0000_0000 <= i < 0x8000_0000_0000_0000 && WidthI(i) <= w
    ensures ReadSigned(buf + Le(Image(i), ByteWidth(w)) + more, |buf|, ByteWidth(w)) == Got(i)
  {
    hide Le, UnLe;
    var n := ByteWidth(w);
    RoomIsPow256(w);
    WidthIIsSmallest(i, w);
    LeOfRemainder(Image(i), n);
    ImageRemainder(i, w);
    var u := FromSigned(i, n);
    WrittenIsRead(buf, u, w, more);
    SignedRoundTrip(i, n);
  }

  lemma ImageRemainder(i: int, w: BitWidth)
    requires -(Room(w) as int) <= 2 * i < Room(w) && -0x8000_0000_0000_0000 <= i < 0x8000_0000_0000_0000
    ensures Image(i) % Room(w) == if i < 0 then i + Room(w) else i
  {
    if i < 0 {
      var q := if w == 0 then 0xFF_FFFF_FFFF_FFFF else if w == 1 then 0xFFFF_FFFF_FFFF else if w == 2 then 0xFFFF_FFFF else 0;
      UniqueRemainder(Image(i), Room(w), q, (i + Room(w)) as nat);
    } else {
      UniqueRemainder(Image(i), Room(w), 0, i);
    }
  }

  /** How a slot may be written at the end of the buffer: its value, or its distance, fits the width. */
  predicate Fits(buf: seq<byte>, slot: Slot, w: BitWidth) {
    if IsInline(slot.type_) then slot.width <= w else slot.u <= |buf| && |buf| - slot.u < Room(w)
  }

  lemma PackedParts(w: BitWidth, t: nat)
    ensures PackedType(w, t) % 4 == w && PackedType(w, t) / 4 == t
  {}

  /** The reference to a slot written at a position of a vector. */
  function SlotReference(pos: nat, slot: Slot, w: BitWidth): Reference {
    FromPacked(pos, ByteWidth(w), StoredPackedType(slot, w))
  }

  /** Whatever is written by WriteAny is read back as the value of the slot. */
  lemma WriteAnyReads(buf: seq<byte>, slot: Slot, v: Value, w: BitWidth, parent: BitWidth, more: seq<byte>)
    requires Holds(buf, slot, v) && Fits(buf, slot, w)
    ensures Reads(WriteAny(buf, slot, ByteWidth(w)) + more, FromPacked(|buf|, ByteWidth(w), StoredPackedType(slot, parent)), v)
  {
    hide ReadUnsigned, ReadSigned, ReadBytes, Le, VectorReads, MapReads;
    PackedParts(StoredWidth(slot, parent), slot.type_);
    match v
    case Null =>
    case Bool(_) => WrittenIsRead(buf, slot.u, w, more);
    case Int(i) => SignedIsRead(buf, i, w, more);
    case UInt(u) =>
      WidthUIsSmallest(u, w);
      WrittenIsRead(buf, u, w, more);
    case _ =>
      assert !IsInline(slot.type_);
      var off := |buf| - slot.u;
      WrittenIsRead(buf, off, w, more);
      HoldsStays(buf, Le(off, ByteWidth(w)) + more, slot, v);
      assert buf + Le(off, ByteWidth(w)) + more == buf + (Le(off, ByteWidth(w)) + more);
  }

  // ----- writing all elements of a vector

  ghost predicate AllHold(buf: seq<byte>, slots: seq<Slot>, vals: seq<Value>) {
    |slots| == |vals| && forall i :: 0 <= i < |slots| ==> Holds(buf, slots[i], vals[i])
  }

  lemma AllStay(buf: seq<byte>, more: seq<byte>, slots: seq<Slot>, vals: seq<Value>)
    requires AllHold(buf, slots, vals)
    ensures AllHold(buf + more, slots, vals)
  {
    hide Holds;
    forall i | 0 <= i < |slots|
      ensures Holds(buf + more, slots[i], vals[i])
    {
      HoldsStays(buf, more, slots[i], vals[i]);
    }
  }

  /** Every element fits the width at its place. */
  predicate AllFit(size: nat, slots: seq<Slot>, w: BitWidth) {
    forall i :: 0 <= i < |slots| ==>
      if IsInline(slots[i].type_) then slots[i].width <= w
      else slots[i].u <= size && size + i * ByteWidth(w) - slots[i].u < Room(w)
  }

  lemma {:induction false} WriteAllLength(buf: seq<byte>, slots: seq<Slot>, byteWidth: nat)
    requires forall slot :: slot in slots ==> SlotOk(slot, |buf|)
    ensures |WriteAll(buf, slots, byteWidth)| == |buf| + |slots| * byteWidth
    decreases |slots|
  {
    if slots != [] {
      WriteAllLength(buf, slots[..|slots| - 1], byteWidth);
      assert (|slots| - 1) * byteWidth + byteWidth == |slots| * byteWidth;
    }
  }

  /** Each element of the vector is read back, whatever is written behind it. */
  lemma {:induction false} WriteAllReads(buf: seq<byte>, slots: seq<Slot>, vals: seq<Value>, w: BitWidth, more: seq<byte>, i: nat)
    requires AllHold(buf, slots, vals) && AllFit(|buf|, slots, w) && i < |slots|
    requires forall slot :: slot in slots ==> SlotOk(slot, |buf|)
    ensures Reads(WriteAll(buf, slots, ByteWidth(w)) + more, SlotReference(|buf| + i * ByteWidth(w), slots[i], w), vals[i])
    decreases |slots|
  {
    hide Holds, Reads, Le, Room;
    var n, bw := |slots| - 1, ByteWidth(w);
    var front := WriteAll(buf, slots[..n], bw);
    WriteAllLength(buf, slots[..n], bw);
    var last := slots[n];
    assert last in slots;
    assert WriteAll(buf, slots, bw) == WriteAny(front, last, bw);
    if i == n {
      assert front == buf + front[|buf|..];
      HoldsStays(buf, front[|buf|..], last, vals[n]);
      WriteAnyReads(front, last, vals[n], w, w, more);
    } else {
      var written := if IsInline(last.type_) then Le(last.u, bw) else Le(|front| - last.u, bw);
      assert WriteAny(front, last, bw) + more == front + (written + more);
      WriteAllReads(buf, slots[..n], vals[..n], w, written + more, i);
    }
  }

  lemma {:induction false} PackedTypeAt(slots: seq<Slot>, parent: BitWidth, i: nat)
    requires (forall slot :: slot in slots ==> slot.type_ < 37) && i < |slots|
    ensures PackedTypes(slots, parent)[i] == StoredPackedType(slots[i], parent) < 256
    decreases |slots|
  {
    assert slots[0] in slots;
    if i > 0 {
      PackedTypeAt(slots[1..], parent, i - 1);
    }
  }

  lemma ByteIsRead(buf: seq<byte>, pos: nat)
    requires pos < |buf|
    ensures ReadUnsigned(buf, pos, 1) == Got(buf[pos])
  {
    assert buf[pos..pos + 1] == [buf[pos]];
    assert UnLe([buf[pos]]) == buf[pos] + 256 * UnLe([]);
  }

  /**
   * A vector: its size, its elements and their types, in a buffer that may go on behind them. All of it can
   * be read, element by element.
   */
  lemma VectorIsRead(front: seq<byte>, slots: seq<Slot>, vals: seq<Value>, w: BitWidth)
    requires |slots| < Room(w) && AllHold(front, slots, vals)
    requires var b3 := front + Le(|slots|, ByteWidth(w)); SlotsOk(slots, |b3|) && AllFit(|b3|, slots, w)
    ensures var b3 := front + Le(|slots|, ByteWidth(w)); var bw := ByteWidth(w);
      var buf := WriteAll(b3, slots, bw) + PackedTypes(slots, w);
      && ReadSize(buf, |b3|, bw) == Got(|slots|)
      && forall i :: 0 <= i < |slots| ==>
           Elem(buf, |b3|, bw, i).Got? && Reads(buf, Elem(buf, |b3|, bw, i).value, vals[i])
  {
    assert |vals| == |slots|;
    hide Holds, AllHold, Reads, Le, Room, AllFit, WriteAll, PackedTypes, Elem, ReadUnsigned, SlotsOk;
    var bw, n := ByteWidth(w), |slots|;
    var b3 := front + Le(n, bw);
    SlotsForWriting(slots, |b3|);
    var buf := WriteAll(b3, slots, bw) + PackedTypes(slots, w);
    SizeIsRead(front, slots, w, PackedTypes(slots, w));
    AllStay(front, Le(n, bw), slots, vals);
    forall i | 0 <= i < n
      ensures Elem(buf, |b3|, bw, i).Got? && Reads(buf, Elem(buf, |b3|, bw, i).value, vals[i])
    {
      ElementIsRead(b3, slots, vals, w, i);
    }
  }

  /** The size in front of the elements. */
  lemma SizeIsRead(front: seq<byte>, slots: seq<Slot>, w: BitWidth, tail: seq<byte>)
    requires |slots| < Room(w)
    requires var b3 := front + Le(|slots|, ByteWidth(w)); forall slot :: slot in slots ==> SlotOk(slot, |b3|)
    ensures var b3 := front + Le(|slots|, ByteWidth(w));
      ReadSize(WriteAll(b3, slots, ByteWidth(w)) + tail, |b3|, ByteWidth(w)) == Got(|slots|)
  {
    hide Le, Room, WriteAll, ReadUnsigned, SlotOk;
    var bw, n := ByteWidth(w), |slots|;
    var b3 := front + Le(n, bw);
    var b4 := WriteAll(b3, slots, bw);
    assert b4 + tail == front + Le(n, bw) + (b4[|b3|..] + tail);
    WrittenIsRead(front, n, w, b4[|b3|..] + tail);
  }

  lemma SlotsForWriting(slots: seq<Slot>, size: nat)
    requires SlotsOk(slots, size)
    ensures (forall slot :: slot in slots ==> SlotOk(slot, size)) && (forall slot :: slot in slots ==> slot.type_ < 37)
  {}

  /** One element of a vector: the value, and behind the elements its type. */
  lemma ElementIsRead(b3: seq<byte>, slots: seq<Slot>, vals: seq<Value>, w: BitWidth, i: nat)
    requires AllHold(b3, slots, vals) && SlotsOk(slots, |b3|) && AllFit(|b3|, slots, w) && i < |slots|
    requires ReadSize(WriteAll(b3, slots, ByteWidth(w)) + PackedTypes(slots, w), |b3|, ByteWidth(w)) == Got(|slots|)
    ensures var buf := WriteAll(b3, slots, ByteWidth(w)) + PackedTypes(slots, w);
      Elem(buf, |b3|, ByteWidth(w), i).Got? && Reads(buf, Elem(buf, |b3|, ByteWidth(w), i).value, vals[i])
  {
    hide Holds, AllHold, Reads, Le, AllFit, WriteAll, PackedTypes, Elem, ReadUnsigned, SlotsOk;
    SlotsForWriting(slots, |b3|);
    var types := PackedTypes(slots, w);
    WriteAllReads(b3, slots, vals, w, types, i);
    TypeIsRead(b3, slots, w, i);
    ElemIs(WriteAll(b3, slots, ByteWidth(w)) + types, |b3|, w, |slots|, i, StoredPackedType(slots[i], w));
  }

  /** The types follow the elements. */
  lemma TypeIsRead(b3: seq<byte>, slots: seq<Slot>, w: BitWidth, i: nat)
    requires SlotsOk(slots, |b3|) && i < |slots|
    ensures (forall slot :: slot in slots ==> SlotOk(slot, |b3|)) && (forall slot :: slot in slots ==> slot.type_ < 37)
    ensures ReadUnsigned(WriteAll(b3, slots, ByteWidth(w)) + PackedTypes(slots, w), |b3| + |slots| * ByteWidth(w) + i, 1) ==
      Got(StoredPackedType(slots[i], w))
  {
    hide WriteAll, PackedTypes, ReadUnsigned, SlotsOk;
    SlotsForWriting(slots, |b3|);
    var b4, types := WriteAll(b3, slots, ByteWidth(w)), PackedTypes(slots, w);
    WriteAllLength(b3, slots, ByteWidth(w));
    PackedTypeAt(slots, w, i);
    assert (b4 + types)[|b4| + i] == types[i];
    ByteIsRead(b4 + types, |b4| + i);
  }

  lemma ElemIs(buf: seq<byte>, data: nat, w: BitWidth, n: nat, i: nat, packed: nat)
    requires ReadSize(buf, data, ByteWidth(w)) == Got(n) && i < n
    requires ReadUnsigned(buf, data + n * ByteWidth(w) + i, 1) == Got(packed)
    ensures Elem(buf, data, ByteWidth(w), i) == Got(FromPacked(data + i * ByteWidth(w), ByteWidth(w), packed))
  {
    hide ReadUnsigned;
  }

  // ----- the widths found are the widths needed

  /** The elements of a vector fit where they are written, for the width that was found for them. */
  lemma FoundWidthFits(size: nat, slots: seq<Slot>, w0: BitWidth, est: nat, step: nat, prefix: nat)
    requires (forall slot :: slot in slots ==> SlotOk(slot, size)) && 1 <= step <= 2 && 1 <= prefix <= est <= 3 && InMemory(size, |slots|)
    ensures var w := VectorWidth(slots, size, w0, est, step);
      AllFit(size + PaddingBytes(size, ByteWidth(w)) + prefix * ByteWidth(w), slots, w)
  {
    hide ElemWidth, OffsetFits, Room, PaddingBytes, VectorWidth;
    var w := VectorWidth(slots, size, w0, est, step);
    var bw := ByteWidth(w);
    VectorWidthCovers(slots, size, w0, est, step);
    forall i | 0 <= i < |slots|
      ensures if IsInline(slots[i].type_) then slots[i].width <= w
        else slots[i].u <= size && size + PaddingBytes(size, bw) + prefix * bw + i * bw - slots[i].u < Room(w)
    {
      assert slots[i] in slots;
      if IsInline(slots[i].type_) {
        InlineWidth(slots[i], size, est + i * step);
      } else {
        ElementFits(slots, size, w0, est, step, prefix, i);
        OffsetThere(size, slots[i].u, prefix, i, w);
      }
    }
  }

  lemma InlineWidth(slot: Slot, size: nat, index: nat)
    requires IsInline(slot.type_)
    ensures ElemWidth(slot, size, index) == slot.width
  {}

  lemma OffsetThere(size: nat, u: nat, prefix: nat, i: nat, w: BitWidth)
    requires OffsetFits(size, u, prefix + i, w)
    ensures size + PaddingBytes(size, ByteWidth(w)) + prefix * ByteWidth(w) + i * ByteWidth(w) - u < Room(w)
  {
    hide PaddingBytes;
    assert (prefix + i) * ByteWidth(w) == prefix * ByteWidth(w) + i * ByteWidth(w);
  }

  lemma AlignLength(s: State, w: BitWidth)
    ensures Align(s, w).buf == s.buf + Zeros(PaddingBytes(|s.buf|, ByteWidth(w)))
    ensures |Align(s, w).buf| == |s.buf| + PaddingBytes(|s.buf|, ByteWidth(w)) <= |s.buf| + 7
  {}

  /** The width of an untyped vector, and the buffer up to its first element. */
  function PlainWidth(s: State, slots: seq<Slot>): BitWidth
    requires SlotsOk(slots, |s.buf|)
  {
    VectorWidth(slots, |s.buf|, MaxWidth(s.forceMin, WidthU(|slots|)), 1, 1)
  }

  lemma CreateVectorIs(s: State, slots: seq<Slot>)
    requires SlotsOk(slots, |s.buf|)
    ensures var w := PlainWidth(s, slots); var b3 := Align(s, w).buf + Le(|slots|, ByteWidth(w));
      && SlotsOk(slots, |b3|)
      && CreateVector(s, slots, 1, None) ==
         (s.(buf := WriteAll(b3, slots, ByteWidth(w)) + PackedTypes(slots, w)), Slot(|b3|, FBT_VECTOR, w))
  {
    hide VectorWidth, PaddingBytes, WriteAll, PackedTypes;
    var w := PlainWidth(s, slots);
    SlotsOkLarger(slots, |s.buf|, |Align(s, w).buf + Le(|slots|, ByteWidth(w))|);
  }

  /** The size and the elements fit the width of the vector, where they are written. */
  lemma PlainVectorFits(s: State, slots: seq<Slot>)
    requires SlotsOk(slots, |s.buf|) && InMemory(|s.buf|, |slots|)
    ensures var w := PlainWidth(s, slots);
      |slots| < Room(w) && AllFit(|Align(s, w).buf + Le(|slots|, ByteWidth(w))|, slots, w)
  {
    hide PaddingBytes, VectorWidth, Room, AllFit, Align;
    var w0 := MaxWidth(s.forceMin, WidthU(|slots|));
    FoundWidthFits(|s.buf|, slots, w0, 1, 1, 1);
    VectorWidthAtLeast(slots, |s.buf|, w0, 1, 1);
    SizeFits(|slots|, PlainWidth(s, slots));
    AlignLength(s, PlainWidth(s, slots));
  }

  /** CreateVector without keys: an untyped vector of the values on the stack. */
  lemma VectorCreated(s: State, slots: seq<Slot>, vals: seq<Value>)
    requires AllHold(s.buf, slots, vals) && SlotsOk(slots, |s.buf|) && InMemory(|s.buf|, |slots|)
    ensures var (s', slot) := CreateVector(s, slots, 1, None);
      && |s.buf| <= |s'.buf| && s'.buf[..|s.buf|] == s.buf && s' == s.(buf := s'.buf)
      && Holds(s'.buf, slot, Vec(vals))
  {
    hide Holds, AllHold, PaddingBytes, PlainWidth, CreateVector, WriteAll, PackedTypes, Le, Room, AllFit, Align, SlotsOk, Elem, Reads, ReadSize;
    var w := PlainWidth(s, slots);
    CreateVectorIs(s, slots);
    PlainVectorFits(s, slots);
    AlignLength(s, w);
    var front := Align(s, w).buf;
    var b3 := front + Le(|slots|, ByteWidth(w));
    AllStay(s.buf, Zeros(PaddingBytes(|s.buf|, ByteWidth(w))), slots, vals);
    SameLength(front, slots, vals);
    VectorIsRead(front, slots, vals, w);
    var buf := CreateVector(s, slots, 1, None).0.buf;
    assert buf[..|s.buf|] == s.buf by {
      assert buf[..|b3|] == b3;
    }
    VectorHeld(buf, |b3|, w, vals);
  }

  lemma SameLength(buf: seq<byte>, slots: seq<Slot>, vals: seq<Value>)
    requires AllHold(buf, slots, vals)
    ensures |slots| == |vals|
  {}

  lemma VectorHeld(buf: seq<byte>, data: nat, w: BitWidth, vals: seq<Value>)
    requires VectorReads(buf, data, ByteWidth(w), Vec(vals)) && data <= |buf|
    ensures Holds(buf, Slot(data, FBT_VECTOR, w), Vec(vals))
  {
    hide VectorReads;
  }

  lemma VectorWidthAtLeast(slots: seq<Slot>, size: nat, w0: BitWidth, est: nat, step: nat)
    requires forall slot :: slot in slots ==> SlotOk(slot, size)
    ensures w0 <= VectorWidth(slots, size, w0, est, step)
  {
    VectorWidthCovers(slots, size, w0, est, step);
  }

  lemma SizeFits(n: nat, w: BitWidth)
    requires n < 0x1_0000_0000_0000_0000 && WidthU(n) <= w
    ensures n < Room(w)
  {}

  lemma SlotsOkLarger(slots: seq<Slot>, size: nat, size': nat)
    requires SlotsOk(slots, size) && size <= size'
    ensures SlotsOk(slots, size')
  {
    forall slot | slot in slots
      ensures SlotOk(slot, size') && slot.type_ < 37
    {
      assert SlotOk(slot, size);
    }
  }

  // ----- strings and keys

  lemma StringCreated(s: State, chars: seq<byte>)
    requires |chars| < 0x1_0000_0000_0000_0000
    ensures var (s', slot) := CreateString(s, chars);
      && |s.buf| <= |s'.buf| && s'.buf[..|s.buf|] == s.buf && s' == s.(buf := s'.buf)
      && Holds(s'.buf, slot, Str(chars)) && slot.u + |chars| <= |s'.buf| && slot.width == WidthU(|chars|)
      && s'.buf[slot.u..slot.u + |chars|] == chars
  {
    hide PaddingBytes, Align, ReadUnsigned, Le, Room;
    var w := WidthU(|chars|);
    AlignLength(s, w);
    var front := Align(s, w).buf;
    var (s', slot) := CreateString(s, chars);
    assert s'.buf == front + Le(|chars|, ByteWidth(w)) + (chars + [0]);
    SizeFits(|chars|, w);
    WrittenIsRead(front, |chars|, w, chars + [0]);
    assert s'.buf[slot.u..slot.u + |chars|] == chars;
    assert s'.buf[..|s.buf|] == s.buf;
  }

  lemma {:induction false} CStringIsRead(buf: seq<byte>, pos: nat, key: seq<byte>)
    requires KeyStands(buf, pos, key) && NoZero(key)
    ensures CString(buf, pos) == Got(key)
    decreases |key|
  {
    var t := buf[pos..pos + |key| + 1];
    assert t[0] == buf[pos] == (key + [0])[0];
    if key != [] {
      assert buf[pos + 1..pos + 1 + (|key| - 1) + 1] == t[1..] == key[1..] + [0];
      CStringIsRead(buf, pos + 1, key[1..]);
      assert key == [key[0]] + key[1..];
    }
  }

  ghost predicate KeysHold(buf: seq<byte>, slots: seq<Slot>, ks: seq<seq<byte>>) {
    |slots| == |ks| && forall i :: 0 <= i < |slots| ==> HoldsKey(buf, slots[i], ks[i])
  }

  lemma KeySlotsOk(buf: seq<byte>, slots: seq<Slot>, ks: seq<seq<byte>>)
    requires KeysHold(buf, slots, ks)
    ensures SlotsOk(slots, |buf|) && |slots| == |ks|
    ensures forall i :: 0 <= i < |slots| ==> !IsInline(slots[i].type_)
  {
    forall slot | slot in slots
      ensures SlotOk(slot, |buf|) && slot.type_ < 37
    {
      var i :| 0 <= i < |slots| && slots[i] == slot;
      assert HoldsKey(buf, slots[i], ks[i]);
    }
    forall i | 0 <= i < |slots|
      ensures !IsInline(slots[i].type_)
    {
      assert HoldsKey(buf, slots[i], ks[i]);
    }
  }

  lemma KeysStayHeld(buf: seq<byte>, more: seq<byte>, slots: seq<Slot>, ks: seq<seq<byte>>)
    requires KeysHold(buf, slots, ks)
    ensures KeysHold(buf + more, slots, ks)
  {
    hide HoldsKey;
    forall i | 0 <= i < |slots|
      ensures HoldsKey(buf + more, slots[i], ks[i])
    {
      KeyStays(buf, more, slots[i], ks[i]);
    }
  }

  // ----- key vectors

  function KeyWidth(s: State, slots: seq<Slot>): BitWidth
    requires SlotsOk(slots, |s.buf|)
  {
    VectorWidth(slots, |s.buf|, MaxWidth(s.forceMin, WidthU(|slots|)), 1, 2)
  }

  lemma CreateKeyVectorIs(s: State, slots: seq<Slot>)
    requires SlotsOk(slots, |s.buf|)
    ensures var w := KeyWidth(s, slots); var b3 := Align(s, w).buf + Le(|slots|, ByteWidth(w));
      && SlotsOk(slots, |b3|)
      && CreateKeyVector(s, slots) == (s.(buf := WriteAll(b3, slots, ByteWidth(w))), Slot(|b3|, FBT_VECTOR_KEY, w))
  {
    hide VectorWidth, PaddingBytes, WriteAll;
    var w := KeyWidth(s, slots);
    SlotsOkLarger(slots, |s.buf|, |Align(s, w).buf + Le(|slots|, ByteWidth(w))|);
  }

  lemma KeyVectorFits(s: State, slots: seq<Slot>)
    requires SlotsOk(slots, |s.buf|) && InMemory(|s.buf|, |slots|)
    ensures var w := KeyWidth(s, slots);
      |slots| < Room(w) && AllFit(|Align(s, w).buf + Le(|slots|, ByteWidth(w))|, slots, w)
  {
    hide PaddingBytes, VectorWidth, Room, AllFit, Align;
    var w0 := MaxWidth(s.forceMin, WidthU(|slots|));
    FoundWidthFits(|s.buf|, slots, w0, 1, 2, 1);
    VectorWidthAtLeast(slots, |s.buf|, w0, 1, 2);
    SizeFits(|slots|, KeyWidth(s, slots));
    AlignLength(s, KeyWidth(s, slots));
  }

  /** The offset at the i-th place of a vector of offsets leads to what the slot stands for. */
  lemma {:induction false} OffsetIsRead(buf: seq<byte>, slots: seq<Slot>, w: BitWidth, i: nat)
    requires AllFit(|buf|, slots, w) && i < |slots| && !IsInline(slots[i].type_)
    requires forall slot :: slot in slots ==> SlotOk(slot, |buf|)
    ensures var r := WriteAll(buf, slots, ByteWidth(w)); Indirect(r, |buf| + i * ByteWidth(w), ByteWidth(w)) == Got(slots[i].u)
    decreases |slots|
  {
    hide Le, Room, ReadUnsigned;
    var n, bw := |slots| - 1, ByteWidth(w);
    var front := WriteAll(buf, slots[..n], bw);
    WriteAllLength(buf, slots[..n], bw);
    var last := slots[n];
    assert last in slots;
    var written := if IsInline(last.type_) then Le(last.u, bw) else Le(|front| - last.u, bw);
    assert WriteAll(buf, slots, bw) == front + written;
    if i == n {
      WrittenIsRead(front, |front| - last.u, w, []);
      assert front + written + [] == front + written;
    } else {
      OffsetIsRead(buf, slots[..n], w, i);
      ReadStays(front, written, |buf| + i * bw, bw);
    }
  }

  /** A key vector reads back as the keys. */
  lemma KeyVectorIsRead(front: seq<byte>, slots: seq<Slot>, ks: seq<seq<byte>>, w: BitWidth)
    requires |slots| < Room(w) && KeysHold(front, slots, ks)
    requires var b3 := front + Le(|slots|, ByteWidth(w)); SlotsOk(slots, |b3|) && AllFit(|b3|, slots, w)
    ensures var b3 := front + Le(|slots|, ByteWidth(w)); KeysRead(WriteAll(b3, slots, ByteWidth(w)), |b3|, ByteWidth(w), ks)
  {
    hide HoldsKey, Le, Room, AllFit, WriteAny, CString, ReadUnsigned, KeysHold;
    var bw, n := ByteWidth(w), |slots|;
    var b3 := front + Le(n, bw);
    var buf := WriteAll(b3, slots, bw);
    assert buf == front + Le(n, bw) + buf[|b3|..];
    WrittenIsRead(front, n, w, buf[|b3|..]);
    KeySlotsOk(front, slots, ks);
    assert buf == front + (Le(n, bw) + buf[|b3|..]);
    KeysStayHeld(front, Le(n, bw) + buf[|b3|..], slots, ks);
    forall i | 0 <= i < n
      ensures KeyAt(buf, |b3|, bw, i) == Got(ks[i])
    {
      OffsetIsRead(b3, slots, w, i);
      OneKeyRead(buf, slots, ks, i);
    }
  }

  lemma OneKeyRead(buf: seq<byte>, slots: seq<Slot>, ks: seq<seq<byte>>, i: nat)
    requires KeysHold(buf, slots, ks) && i < |slots|
    ensures CString(buf, slots[i].u) == Got(ks[i])
  {
    assert HoldsKey(buf, slots[i], ks[i]);
    CStringIsRead(buf, slots[i].u, ks[i]);
  }

  lemma KeyVectorCreated(s: State, slots: seq<Slot>, ks: seq<seq<byte>>)
    requires KeysHold(s.buf, slots, ks) && SlotsOk(slots, |s.buf|) && InMemory(|s.buf|, |slots|)
    ensures var (s', slot) := CreateKeyVector(s, slots);
      && |s.buf| <= |s'.buf| && s'.buf[..|s.buf|] == s.buf && s' == s.(buf := s'.buf)
      && slot.type_ == FBT_VECTOR_KEY && slot.u <= |s'.buf|
      && KeysRead(s'.buf, slot.u, ByteWidth(slot.width), ks)
  {
    hide HoldsKey, KeysHold, PaddingBytes, KeyWidth, CreateKeyVector, WriteAll, Le, Room, AllFit, Align, SlotsOk, KeysRead;
    var w := KeyWidth(s, slots);
    CreateKeyVectorIs(s, slots);
    KeyVectorFits(s, slots);
    AlignLength(s, w);
    var front := Align(s, w).buf;
    var b3 := front + Le(|slots|, ByteWidth(w));
    KeysStayHeld(s.buf, Zeros(PaddingBytes(|s.buf|, ByteWidth(w))), slots, ks);
    KeyVectorIsRead(front, slots, ks, w);
    var buf := CreateKeyVector(s, slots).0.buf;
    assert buf[..|s.buf|] == s.buf by {
      assert buf[..|b3|] == b3;
    }
  }

  // ----- maps

  function MapWidth(s: State, values: seq<Slot>, keys: Slot): BitWidth
    requires SlotsOk(values, |s.buf|) && keys.u <= |s.buf|
  {
    VectorWidth(values, |s.buf|, MaxWidth(MaxWidth(s.forceMin, WidthU(|values|)), ElemWidth(keys, |s.buf|, 0)), 3, 2)
  }

  /** The three fields in front of a map's values: the offset to the keys, their width, and the size follows. */
  function MapPrefix(s: State, values: seq<Slot>, keys: Slot): seq<byte>
    requires SlotsOk(values, |s.buf|) && keys.u <= |s.buf|
  {
    var w := MapWidth(s, values, keys);
    var b1 := Align(s, w).buf;
    b1 + Le(|b1| - keys.u, ByteWidth(w)) + Le(ByteWidth(keys.width), ByteWidth(w))
  }

  lemma CreateMapIs(s: State, values: seq<Slot>, keys: Slot)
    requires SlotsOk(values, |s.buf|) && keys.u <= |s.buf|
    ensures var w := MapWidth(s, values, keys); var b3 := MapPrefix(s, values, keys) + Le(|values|, ByteWidth(w));
      && SlotsOk(values, |b3|)
      && CreateVector(s, values, 2, Some(keys)) ==
         (s.(buf := WriteAll(b3, values, ByteWidth(w)) + PackedTypes(values, w)), Slot(|b3|, FBT_MAP, w))
  {
    hide VectorWidth, PaddingBytes, WriteAll, PackedTypes, ElemWidth;
    var w := MapWidth(s, values, keys);
    SlotsOkLarger(values, |s.buf|, |MapPrefix(s, values, keys) + Le(|values|, ByteWidth(w))|);
  }

  lemma MapPrefixLength(s: State, values: seq<Slot>, keys: Slot)
    requires SlotsOk(values, |s.buf|) && keys.u <= |s.buf|
    ensures var w := MapWidth(s, values, keys);
      |MapPrefix(s, values, keys) + Le(|values|, ByteWidth(w))| == |s.buf| + PaddingBytes(|s.buf|, ByteWidth(w)) + 3 * ByteWidth(w)
  {
    hide MapWidth, PaddingBytes, Align;
    AlignLength(s, MapWidth(s, values, keys));
  }

  /** The offset to the keys fits the width of the map as well. */
  lemma KeysOffsetFits(s: State, values: seq<Slot>, keys: Slot)
    requires SlotsOk(values, |s.buf|) && keys.u <= |s.buf| && !IsInline(keys.type_) && InMemory(|s.buf|, |values|)
    ensures var w := MapWidth(s, values, keys); |s.buf| + PaddingBytes(|s.buf|, ByteWidth(w)) - keys.u < Room(w)
  {
    hide PaddingBytes, VectorWidth, Room, ElemWidth, OffsetFits, InMemory;
    var size := |s.buf|;
    var w := MapWidth(s, values, keys);
    VectorWidthAtLeast(values, size, MaxWidth(MaxWidth(s.forceMin, WidthU(|values|)), ElemWidth(keys, size, 0)), 3, 2);
    InMemoryFits(size, keys.u, 0, |values|);
    ElemWidthFits(keys, size, 0);
    WiderStillFits(size, keys.u, 0, ElemWidth(keys, size, 0), 0, w);
    OffsetThere(size, keys.u, 0, 0, w);
  }

  lemma MapFits(s: State, values: seq<Slot>, keys: Slot)
    requires SlotsOk(values, |s.buf|) && keys.u <= |s.buf| && !IsInline(keys.type_) && InMemory(|s.buf|, |values|)
    ensures var w := MapWidth(s, values, keys); var b1 := Align(s, w).buf;
      && |values| < Room(w)
      && |b1| >= |s.buf| && |b1| - keys.u < Room(w)
      && AllFit(|MapPrefix(s, values, keys) + Le(|values|, ByteWidth(w))|, values, w)
  {
    hide PaddingBytes, VectorWidth, Room, AllFit, Align, ElemWidth, MapPrefix, Le;
    var w0 := MaxWidth(MaxWidth(s.forceMin, WidthU(|values|)), ElemWidth(keys, |s.buf|, 0));
    var w := MapWidth(s, values, keys);
    FoundWidthFits(|s.buf|, values, w0, 3, 2, 3);
    VectorWidthAtLeast(values, |s.buf|, w0, 3, 2);
    SizeFits(|values|, w);
    AlignLength(s, w);
    MapPrefixLength(s, values, keys);
    KeysOffsetFits(s, values, keys);
  }

  /** The prefix of a map leads to its keys, and gives their width. */
  lemma PrefixIsRead(b1: seq<byte>, u: nat, keysWidth: BitWidth, w: BitWidth, n: nat, more: seq<byte>)
    requires u <= |b1| && |b1| - u < Room(w)
    ensures var bw := ByteWidth(w);
      var b3 := b1 + Le(|b1| - u, bw) + Le(ByteWidth(keysWidth), bw) + Le(n, bw);
      MapKeys(b3 + more, |b3|, bw) == Got((u as int, ByteWidth(keysWidth)))
  {
    hide Le, ReadUnsigned, Room;
    var bw := ByteWidth(w);
    var b2 := b1 + Le(|b1| - u, bw);
    var b3 := b2 + Le(ByteWidth(keysWidth), bw) + Le(n, bw);
    WidthHasRoom(keysWidth, w);
    WrittenIsRead(b1, |b1| - u, w, Le(ByteWidth(keysWidth), bw) + Le(n, bw) + more);
    WrittenIsRead(b2, ByteWidth(keysWidth), w, Le(n, bw) + more);
    assert b1 + Le(|b1| - u, bw) + (Le(ByteWidth(keysWidth), bw) + Le(n, bw) + more) == b3 + more;
    assert b2 + Le(ByteWidth(keysWidth), bw) + (Le(n, bw) + more) == b3 + more;
  }

  lemma WidthHasRoom(k: BitWidth, w: BitWidth)
    ensures ByteWidth(k) < Room(w)
  {}

  /** CreateVector with keys: the map of the keys and values given. */
  lemma MapCreated(s: State, values: seq<Slot>, vals: seq<Value>, keys: Slot, ks: seq<seq<byte>>)
    requires AllHold(s.buf, values, vals) && SlotsOk(values, |s.buf|) && InMemory(|s.buf|, |values|)
    requires keys.u <= |s.buf| && keys.type_ == FBT_VECTOR_KEY && KeysRead(s.buf, keys.u, ByteWidth(keys.width), ks)
    requires |ks| == |vals|
    ensures var (s', slot) := CreateVector(s, values, 2, Some(keys));
      && |s.buf| <= |s'.buf| && s'.buf[..|s.buf|] == s.buf && s' == s.(buf := s'.buf)
      && Holds(s'.buf, slot, Map(ks, vals))
  {
    hide Holds, AllHold, PaddingBytes, MapWidth, CreateVector, WriteAll, PackedTypes, Le, Room, AllFit, Align, SlotsOk, Elem, Reads, ReadSize, KeysRead, MapKeys;
    var w := MapWidth(s, values, keys);
    var bw := ByteWidth(w);
    CreateMapIs(s, values, keys);
    MapFits(s, values, keys);
    AlignLength(s, w);
    var b1 := Align(s, w).buf;
    var front := MapPrefix(s, values, keys);
    var b3 := front + Le(|values|, bw);
    var offset, width := Le(|b1| - keys.u, bw), Le(ByteWidth(keys.width), bw);
    AllStay(s.buf, Zeros(PaddingBytes(|s.buf|, bw)), values, vals);
    AllStay(b1, offset + width, values, vals);
    assert b1 + (offset + width) == front;
    SameLength(front, values, vals);
    VectorIsRead(front, values, vals, w);
    var buf := CreateVector(s, values, 2, Some(keys)).0.buf;
    assert buf[..|b3|] == b3;
    assert buf[..|s.buf|] == s.buf;
    PrefixIsRead(b1, keys.u, keys.width, w, |values|, buf[|b3|..]);
    assert b3 + buf[|b3|..] == buf;
    KeysStay(s.buf, buf[|s.buf|..], keys.u, ByteWidth(keys.width), ks);
    assert s.buf + buf[|s.buf|..] == buf;
    MapHeld(buf, |b3|, w, ks, vals);
  }

  lemma MapHeld(buf: seq<byte>, data: nat, w: BitWidth, ks: seq<seq<byte>>, vals: seq<Value>)
    requires MapReads(buf, data, ByteWidth(w), Map(ks, vals)) && data <= |buf|
    ensures Holds(buf, Slot(data, FBT_MAP, w), Map(ks, vals))
  {
    hide MapReads;
  }
}
