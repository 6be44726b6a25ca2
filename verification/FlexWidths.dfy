/** Why every offset FlexBuffers writes fits the width it is written in. */
module FlexWidths {
  import opened Bytes
  import opened Common
  import opened FlatReader
  import opened FlexFormat
  import opened FlexBuilder

  /** How many values a width has room for. */
  function Room(w: BitWidth): nat {
    if w == 0 then 0x100 else if w == 1 then 0x1_0000 else if w == 2 then 0x1_0000_0000 else 0x1_0000_0000_0000_0000
  }

  lemma RoomIsPow256(w: BitWidth)
    ensures Room(w) == Pow256(ByteWidth(w))
  {
    Pow256Values();
  }

  /** WidthU is the smallest width with room. */
  lemma WidthUIsSmallest(u: nat, w: BitWidth)
    requires u < Room(3)
    ensures u < Room(w) <==> WidthU(u) <= w
  {}

  lemma WidthIIsSmallest(i: int, w: BitWidth)
    requires -0x8000_0000_0000_0000 <= i < 0x8000_0000_0000_0000
    ensures -(Room(w) as int) <= 2 * i < Room(w) <==> WidthI(i) <= w
  {}

  /** An offset from this place, at this width, has room. */
  predicate OffsetFits(size: nat, u: nat, index: nat, w: BitWidth) {
    RelativeOffset(size, u, index, ByteWidth(w)) < Room(w)
  }

  lemma PaddingGrows(size: nat, w: BitWidth)
    requires w < 3
    ensures PaddingBytes(size, ByteWidth(w)) <= PaddingBytes(size, ByteWidth(w + 1))
  {
    var x := 0x1_0000_0000_0000_0000 - size;
    HalfModulus(x, ByteWidth(w));
  }

  lemma HalfModulus(x: int, n: nat)
    requires n == 1 || n == 2 || n == 4
    ensures x % n <= x % (2 * n)
  {}

  lemma OffsetGrows(size: nat, u: nat, index: nat, w: BitWidth)
    requires u <= size && w < 3
    ensures 0 <= RelativeOffset(size, u, index, ByteWidth(w)) <= RelativeOffset(size, u, index, ByteWidth(w + 1))
  {
    hide PaddingBytes;
    PaddingGrows(size, w);
    assert ByteWidth(w + 1) == 2 * ByteWidth(w);
    assert index * ByteWidth(w + 1) == 2 * (index * ByteWidth(w));
  }

  /**
   * The loop of ElemWidth always returns before its final assertion, and what it returns is the smallest
   * width in which the offset fits.
   */
  lemma {:induction false} FirstFitFits(size: nat, u: nat, index: nat, w: BitWidth)
    requires u <= size && OffsetFits(size, u, index, 3)
    requires w > 0 ==> !OffsetFits(size, u, index, w - 1)
    ensures FirstFit(size, u, index, w).Some?
    ensures var r := FirstFit(size, u, index, w).value;
      && w <= r && OffsetFits(size, u, index, r)
      && forall w' :: w <= w' < r ==> !OffsetFits(size, u, index, w')
    decreases 3 - w
  {
    hide RelativeOffset;
    var offset := RelativeOffset(size, u, index, ByteWidth(w));
    OffsetIsNat(size, u, index, w);
    if w > 0 {
      OffsetGrows(size, u, index, w - 1);
    }
    if w < 3 && !OffsetFits(size, u, index, w) {
      FirstFitFits(size, u, index, w + 1);
    }
  }

  lemma OffsetIsNat(size: nat, u: nat, index: nat, w: BitWidth)
    requires u <= size
    ensures 0 <= RelativeOffset(size, u, index, ByteWidth(w))
  {}

  /**
   * What fits at one width fits at every larger one, although padding and the elements before it grow with
   * the width; and it fits at any smaller index, so estimating the index too high does no harm.
   */
  lemma WiderStillFits(size: nat, u: nat, index: nat, w: BitWidth, index': nat, w': BitWidth)
    requires u <= size && OffsetFits(size, u, index, w) && w <= w' && index' <= index
    ensures OffsetFits(size, u, index', w')
  {
    var b, b' := ByteWidth(w), ByteWidth(w');
    assert index' * b <= index * b by {
      Scaled(index', index, b);
    }
    if w < w' {
      assert index' * b' <= 8 * (index' * b) by {
        WidthRatio(index', w, w');
      }
      assert RelativeOffset(size, u, index', b') < 8 * Room(w) + 8;
    }
  }

  lemma Scaled(x: nat, y: nat, n: nat)
    requires x <= y
    ensures x * n <= y * n
  {}

  lemma WidthRatio(x: nat, w: BitWidth, w': BitWidth)
    ensures x * ByteWidth(w') <= 8 * (x * ByteWidth(w))
  {
    Scaled(ByteWidth(w'), 8 * ByteWidth(w), x);
  }

  /** ElemWidth of an offset is the smallest width it fits. */
  lemma ElemWidthFits(slot: Slot, size: nat, index: nat)
    requires !IsInline(slot.type_) && slot.u <= size && OffsetFits(size, slot.u, index, 3)
    ensures OffsetFits(size, slot.u, index, ElemWidth(slot, size, index))
    ensures forall w: BitWidth :: OffsetFits(size, slot.u, index, w) ==> ElemWidth(slot, size, index) <= w
  {
    hide OffsetFits;
    FirstFitFits(size, slot.u, index, 0);
    forall w: BitWidth | OffsetFits(size, slot.u, index, w)
      ensures ElemWidth(slot, size, index) <= w
    {}
  }

  /** The width of a vector is at least that of each element at its estimated index. */
  lemma {:induction false} VectorWidthCovers(slots: seq<Slot>, size: nat, w: BitWidth, index: nat, step: nat)
    requires forall slot :: slot in slots ==> SlotOk(slot, size)
    ensures w <= VectorWidth(slots, size, w, index, step)
    ensures forall i :: 0 <= i < |slots| ==> ElemWidth(slots[i], size, index + i * step) <= VectorWidth(slots, size, w, index, step)
    decreases |slots|
  {
    hide ElemWidth;
    if slots != [] {
      assert slots[0] in slots;
      var w' := MaxWidth(w, ElemWidth(slots[0], size, index));
      VectorWidthCovers(slots[1..], size, w', index + step, step);
      forall i | 0 <= i < |slots|
        ensures ElemWidth(slots[i], size, index + i * step) <= VectorWidth(slots, size, w, index, step)
      {
        if i > 0 {
          assert slots[i] == slots[1..][i - 1];
          assert index + step + (i - 1) * step == index + i * step;
        }
      }
    }
  }

  /** The bound that holds of every buffer in memory: all offsets fit in 64 bits. */
  predicate InMemory(size: nat, elements: nat) {
    size + 32 * elements + 64 < 0x1000_0000_0000_0000
  }

  lemma InMemoryFits(size: nat, u: nat, index: nat, elements: nat)
    requires InMemory(size, elements) && u <= size && index <= 2 * elements + 3
    ensures OffsetFits(size, u, index, 3)
  {}

  /**
   * In a vector of the width VectorWidth gives, the offset of every element fits where it is really written:
   * index first + i of the vector, while its width was found for the index est + i * step.
   */
  lemma ElementFits(slots: seq<Slot>, size: nat, w0: BitWidth, est: nat, step: nat, first: nat, i: nat)
    requires forall slot :: slot in slots ==> SlotOk(slot, size)
    requires i < |slots| && !IsInline(slots[i].type_) && 1 <= step <= 2 && first <= est <= 3 && InMemory(size, |slots|)
    ensures OffsetFits(size, slots[i].u, first + i, VectorWidth(slots, size, w0, est, step))
  {
    hide OffsetFits, VectorWidth, ElemWidth, InMemory;
    VectorWidthCovers(slots, size, w0, est, step);
    assert slots[i] in slots;
    var index := est + i * step;
    assert first + i <= index <= 2 * |slots| + 3 by {
      Stepped(i, step);
    }
    InMemoryFits(size, slots[i].u, index, |slots|);
    ElemWidthFits(slots[i], size, index);
    WiderStillFits(size, slots[i].u, index, ElemWidth(slots[i], size, index), first + i, VectorWidth(slots, size, w0, est, step));
  }

  lemma Stepped(i: nat, step: nat)
    requires 1 <= step <= 2
    ensures i <= i * step <= 2 * i
  {}
}
