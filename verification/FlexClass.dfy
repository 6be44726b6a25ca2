/** flexbuffers::Builder as an object: its buffer grows at the end, and its stack and buffer change in loops. */
module FlexClass {
  import opened Bytes
  import opened Common
  import opened FlatReader
  import opened FlexFormat
  import opened FlexBuilder
  import opened FlexProofs
  import opened FlexSort
  import opened FlexRoundTrip

  /** The loop of ElemWidth. */
  method FindElemWidth(slot: Slot, size: nat, index: nat) returns (w: BitWidth)
    requires SlotOk(slot, size)
    ensures w == ElemWidth(slot, size, index)
  {
    if IsInline(slot.type_) {
      return slot.width;
    }
    w := 0;
    while true
      invariant FirstFit(size, slot.u, index, 0) == FirstFit(size, slot.u, index, w)
      decreases 3 - w
    {
      var width := WidthU(RelativeOffset(size, slot.u, index, ByteWidth(w)));
      if ByteWidth(width) == ByteWidth(w) {
        return width;
      }
      if w == 3 {
        return 3;
      }
      w := w + 1;
    }
  }

  /** The slots that the loops of CreateVector visit: every step-th from start on. */
  function Strided(stack: seq<Slot>, start: nat, n: nat, step: nat): (r: seq<Slot>)
    requires 1 <= step <= 2 && (n > 0 ==> start + (n - 1) * step < |stack|)
    ensures |r| == n
  {
    seq(n, j requires 0 <= j < n => (Before(j, n - 1, step); stack[start + j * step]))
  }

  lemma Before(j: nat, m: nat, step: nat)
    requires j <= m && 1 <= step <= 2
    ensures j * step <= m * step
  {}

  class Builder {
    var buf: seq<byte>
    var stack: seq<Slot>
    var shareKeys: bool
    var shareStrings: bool
    var forceMin: BitWidth
    var keyPool: seq<nat>
    var stringPool: seq<(nat, nat)>
    var hasDuplicateKeys: bool
    var finished: bool

    function Model(): State
      reads this
    {
      State(buf, stack, shareKeys, shareStrings, forceMin, keyPool, stringPool, hasDuplicateKeys, finished)
    }

    constructor (shareKeys: bool, shareStrings: bool)
      ensures Model() == Init(shareKeys, shareStrings)
    {
      this.shareKeys := shareKeys;
      this.shareStrings := shareStrings;
      buf, stack, forceMin, keyPool, stringPool, hasDuplicateKeys, finished := [], [], 0, [], [], false, false;
    }

    method ForceMinimumBitWidth(w: BitWidth)
      modifies this`forceMin
      ensures Model() == old(Model()).(forceMin := w)
    {
      forceMin := w;
    }

    method Align(w: BitWidth)
      modifies this`buf
      ensures Model() == FlexBuilder.Align(old(Model()), w)
    {
      buf := buf + Zeros(PaddingBytes(|buf|, ByteWidth(w)));
    }

    method Key(key: seq<byte>)
      modifies this
      ensures Model() == FlexBuilder.Key(old(Model()), key)
    {
      hide FindKey;
      var before := buf;
      var off := |buf|;
      buf := buf + (key + [0]);
      if shareKeys {
        match FindKey(before, keyPool, key)
        case Some(pooled) =>
          buf := buf[..off];
          assert buf == before;
          off := pooled;
        case None =>
          keyPool := keyPool + [off];
      }
      stack := stack + [Slot(off, FBT_KEY, 0)];
    }

    /** CreateBlob of a string, pushed. */
    method CreateBlob(chars: seq<byte>) returns (off: nat)
      modifies this`buf, this`stack
      ensures var (s, slot) := CreateString(old(Model()), chars); Model() == PushSlot(s, slot) && off == slot.u
    {
      hide PaddingBytes, Le;
      var w := WidthU(|chars|);
      Align(w);
      buf := buf + Le(|chars|, ByteWidth(w));
      off := |buf|;
      buf := buf + chars + [0];
      stack := stack + [Slot(off, FBT_STRING, w)];
    }

    method String(chars: seq<byte>)
      modifies this
      ensures Model() == FlexBuilder.String(old(Model()), chars)
    {
      ghost var s := Model();
      StringEnds(s, chars);
      hide CreateString, FindPooled;
      var resetTo := |buf|;
      var before := buf;
      var off := CreateBlob(chars);
      if shareStrings {
        match FindPooled(before, stringPool, chars)
        case Some(pooled) =>
          buf := buf[..resetTo];
          var top := stack[|stack| - 1].(u := pooled);
          stack := stack[..|stack| - 1] + [top];
        case None =>
          stringPool := stringPool + [(off, |chars|)];
      }
    }

    lemma StringEnds(s: State, chars: seq<byte>)
      ensures var (s1, slot) := CreateString(s, chars);
        && |s.buf| <= |s1.buf| && s1.buf[..|s.buf|] == s.buf && s1 == s.(buf := s1.buf)
    {
      hide PaddingBytes, Le;
    }

    /** The loop of CreateVector that finds the width, from the width that its size and keys need. */
    method FindVectorWidth(w0: BitWidth, start: nat, n: nat, step: nat, prefix: nat) returns (w: BitWidth)
      requires 1 <= step <= 2 && (n > 0 ==> start + (n - 1) * step < |stack|) && start + n * step >= |stack|
      requires SlotsOk(Strided(stack, start, n, step), |buf|)
      ensures w == VectorWidth(Strided(stack, start, n, step), |buf|, w0, prefix, step)
    {
      hide ElemWidth;
      ghost var slots := Strided(stack, start, n, step);
      w := w0;
      var i := start;
      ghost var j := 0;
      assert slots[0..] == slots;
      while i < |stack|
        invariant j <= n && i == start + j * step
        invariant forall slot :: slot in slots[j..] ==> SlotOk(slot, |buf|)
        invariant VectorWidth(slots, |buf|, w0, prefix, step) == VectorWidth(slots[j..], |buf|, w, prefix + j * step, step)
        decreases |stack| - i
      {
        InsideStride(start, n, step, |stack|, j);
        assert slots[j] == stack[i] && slots[j] in slots;
        assert slots[j..][1..] == slots[j + 1..] && slots[j..][0] == slots[j];
        var elemWidth := FindElemWidth(stack[i], |buf|, i - start + prefix);
        w := MaxWidth(w, elemWidth);
        i := i + step;
        j := j + 1;
      }
      StrideDone(start, n, step, |stack|, j);
    }

    lemma InsideStride(start: nat, n: nat, step: nat, size: nat, j: nat)
      requires 1 <= step <= 2 && start + n * step >= size && start + j * step < size
      ensures j < n && (j + 1) * step == j * step + step
    {}

    lemma StrideDone(start: nat, n: nat, step: nat, size: nat, j: nat)
      requires 1 <= step <= 2 && (n > 0 ==> start + (n - 1) * step < size) && start + j * step >= size && j <= n
      ensures j == n
    {}

    /** The loop of CreateVector that writes the elements. */
    method WriteElements(start: nat, n: nat, step: nat, byteWidth: nat)
      requires 1 <= step <= 2 && (n > 0 ==> start + (n - 1) * step < |stack|) && start + n * step >= |stack|
      requires SlotsOk(Strided(stack, start, n, step), |buf|)
      modifies this`buf
      ensures Model() == old(Model()).(buf := WriteAll(old(buf), Strided(stack, start, n, step), byteWidth))
    {
      ghost var slots := Strided(stack, start, n, step);
      ghost var buf0 := buf;
      var i := start;
      ghost var j := 0;
      while i < |stack|
        invariant j <= n && i == start + j * step
        invariant forall slot :: slot in slots[..j] ==> SlotOk(slot, |buf0|)
        invariant buf == WriteAll(buf0, slots[..j], byteWidth)
        decreases |stack| - i
      {
        InsideStride(start, n, step, |stack|, j);
        assert slots[j] == stack[i] && slots[j] in slots && SlotOk(slots[j], |buf0|);
        assert slots[..j + 1][..j] == slots[..j] && slots[..j + 1][j] == slots[j];
        buf := WriteAny(buf, stack[i], byteWidth);
        i := i + step;
        j := j + 1;
      }
      StrideDone(start, n, step, |stack|, j);
      assert slots[..n] == slots;
    }

    /** The loop of CreateVector that writes the types of an untyped vector. */
    method WriteTypes(start: nat, n: nat, step: nat, w: BitWidth)
      requires 1 <= step <= 2 && (n > 0 ==> start + (n - 1) * step < |stack|) && start + n * step >= |stack|
      requires forall slot :: slot in Strided(stack, start, n, step) ==> slot.type_ < 37
      modifies this`buf
      ensures Model() == old(Model()).(buf := old(buf) + PackedTypes(Strided(stack, start, n, step), w))
    {
      hide StoredPackedType;
      ghost var slots := Strided(stack, start, n, step);
      ghost var buf0 := buf;
      var i := start;
      ghost var j := 0;
      assert slots[0..] == slots;
      while i < |stack|
        invariant j <= n && i == start + j * step
        invariant forall slot :: slot in slots[j..] ==> slot.type_ < 37
        invariant buf + PackedTypes(slots[j..], w) == buf0 + PackedTypes(slots, w)
        decreases |stack| - i
      {
        InsideStride(start, n, step, |stack|, j);
        assert slots[j] == stack[i] && slots[j] in slots;
        assert slots[j..][1..] == slots[j + 1..] && slots[j..][0] == slots[j];
        TypeFits(stack[i], w);
        ghost var rest := PackedTypes(slots[j + 1..], w);
        var packed: byte := StoredPackedType(stack[i], w);
        assert buf + ([packed] + rest) == (buf + [packed]) + rest;
        buf := buf + [packed];
        i := i + step;
        j := j + 1;
      }
      StrideDone(start, n, step, |stack|, j);
      assert buf + [] == buf;
    }

    lemma TypeFits(slot: Slot, w: BitWidth)
      requires slot.type_ < 37
      ensures StoredPackedType(slot, w) < 256
    {}

    /** CreateVector of untyped elements, and of a map's values when there are keys. */
    method CreateVector(start: nat, n: nat, step: nat, keys: Option<Slot>) returns (slot: Slot)
      requires 1 <= step <= 2 && (n > 0 ==> start + (n - 1) * step < |stack|) && start + n * step >= |stack|
      requires SlotsOk(Strided(stack, start, n, step), |buf|) && (keys.Some? ==> keys.value.u <= |buf|)
      modifies this`buf
      ensures (Model(), slot) == FlexBuilder.CreateVector(old(Model()), Strided(stack, start, n, step), step, keys)
    {
      hide PaddingBytes, Le, VectorWidth, ElemWidth, WriteAll, PackedTypes, Strided, SlotsOk;
      ghost var slots := Strided(stack, start, n, step);
      ghost var size := |buf|;
      SlotsForWidth(slots, size);
      var w := MaxWidth(forceMin, WidthU(n));
      if keys.Some? {
        var keysWidth := FindElemWidth(keys.value, |buf|, 0);
        w := MaxWidth(w, keysWidth);
      }
      w := FindVectorWidth(w, start, n, step, if keys.Some? then 3 else 1);
      var bw := ByteWidth(w);
      Align(w);
      if keys.Some? {
        buf := WriteOffset(buf, keys.value.u, bw);
        buf := buf + Le(ByteWidth(keys.value.width), bw);
      }
      buf := buf + Le(n, bw);
      slot := Slot(|buf|, if keys.Some? then FBT_MAP else FBT_VECTOR, w);
      SlotsOkLarger(slots, size, |buf|);
      SlotsForWidth(slots, |buf|);
      WriteElements(start, n, step, bw);
      WriteTypes(start, n, step, w);
    }

    lemma SlotsForWidth(slots: seq<Slot>, size: nat)
      requires SlotsOk(slots, size)
      ensures forall slot :: slot in slots ==> SlotOk(slot, size)
      ensures forall slot :: slot in slots ==> slot.type_ < 37
    {}

    /** CreateVector of the keys of a map. */
    method CreateKeyVector(start: nat, n: nat) returns (slot: Slot)
      requires (n > 0 ==> start + (n - 1) * 2 < |stack|) && start + n * 2 >= |stack|
      requires SlotsOk(Strided(stack, start, n, 2), |buf|)
      modifies this`buf
      ensures (Model(), slot) == FlexBuilder.CreateKeyVector(old(Model()), Strided(stack, start, n, 2))
    {
      hide PaddingBytes, Le, VectorWidth, WriteAll, Strided, SlotsOk;
      ghost var slots := Strided(stack, start, n, 2);
      ghost var size := |buf|;
      SlotsForWidth(slots, size);
      var w := FindVectorWidth(MaxWidth(forceMin, WidthU(n)), start, n, 2, 1);
      Align(w);
      buf := buf + Le(n, ByteWidth(w));
      slot := Slot(|buf|, FBT_VECTOR_KEY, w);
      SlotsOkLarger(slots, size, |buf|);
      SlotsForWidth(slots, |buf|);
      WriteElements(start, n, 2, ByteWidth(w));
    }

    method EndVector(start: nat)
      requires start <= |stack| && SlotsOk(stack[start..], |buf|)
      modifies this
      ensures Model() == FlexBuilder.EndVector(old(Model()), start)
    {
      hide FlexBuilder.CreateVector, SlotsOk;
      var n := |stack| - start;
      assert Strided(stack, start, n, 1) == stack[start..];
      var vec := CreateVector(start, n, 1, None);
      stack := stack[..start] + [vec];
    }

    /** The second half of EndMap: the key vector, the values, and the map in their place on the stack. */
    method WriteSortedMap(start: nat, n: nat, ghost keys: seq<Slot>, ghost values: seq<Slot>)
      requires |stack| == start + 2 * n && |keys| == |values| == n && SlotsOk(keys, |buf|) && SlotsOk(values, |buf|)
      requires Strided(stack, start, n, 2) == keys && Strided(stack, start + 1, n, 2) == values
      modifies this
      ensures Model() == EndSortedMap(old(Model()), start, keys, values)
    {
      EndSortedMapIs(Model(), start, keys, values);
      hide FlexBuilder.CreateVector, FlexBuilder.CreateKeyVector, SlotsOk, EndSortedMap, Strided;
      var keyVector := CreateKeyVector(start, n);
      var vec := CreateVector(start + 1, n, 2, Some(keyVector));
      stack := stack[..start] + [vec];
    }

    /** The sort of EndMap: the pairs in the order of their keys, and a note when two keys are equal. */
    method SortPairs(start: nat, n: nat)
      requires |stack| == start + 2 * n && SlotsOk(stack, |buf|)
      modifies this`stack, this`hasDuplicateKeys
      ensures var keys := KeySlots(old(stack), start, n); var order := Order(KeysOf(buf, keys));
        Model() == old(Model()).(
          stack := old(stack)[..start] + Interleave(Permuted(keys, order), Permuted(ValueSlots(old(stack), start, n), order)),
          hasDuplicateKeys := old(hasDuplicateKeys) || !Distinct(KeysOf(buf, keys)))
    {
      hide KeySlots, ValueSlots, Order, KeysOf, Permuted, Distinct, Interleave;
      var keys, values := KeySlots(stack, start, n), ValueSlots(stack, start, n);
      var ks := KeysOf(buf, keys);
      var order := Order(ks);
      stack := stack[..start] + Interleave(Permuted(keys, order), Permuted(values, order));
      hasDuplicateKeys := hasDuplicateKeys || !Distinct(ks);
    }

    /** EndMap: the pairs are sorted on the stack, and then written as a key vector and a vector of values. */
    method EndMap(start: nat, n: nat)
      requires |stack| == start + 2 * n && SlotsOk(stack, |buf|)
      modifies this
      ensures Model() == FlexRoundTrip.EndMap(old(Model()), start, n)
    {
      ghost var s := Model();
      ghost var keys, values := KeySlots(stack, start, n), ValueSlots(stack, start, n);
      ghost var order := Order(KeysOf(buf, keys));
      ghost var sortedKeys, sortedValues := Permuted(keys, order), Permuted(values, order);
      PairsOk(s, start, n, order);
      EndMapIs(s, start, n, KeysOf(buf, keys));
      InterleaveStrides(stack[..start], sortedKeys, sortedValues);
      hide SlotsOk, KeySlots, ValueSlots, Order, KeysOf, Permuted, EndSortedMap, FlexRoundTrip.EndMap, Strided, Interleave, Distinct;
      SortPairs(start, n);
      SameBottom(s, Model(), start, sortedKeys, sortedValues);
      WriteSortedMap(start, n, sortedKeys, sortedValues);
    }

    lemma SameBottom(s: State, s': State, start: nat, keys: seq<Slot>, values: seq<Slot>)
      requires start <= |s.stack| && start <= |s'.stack| && s'.stack[..start] == s.stack[..start]
      requires s' == s.(stack := s'.stack, hasDuplicateKeys := s'.hasDuplicateKeys)
      requires |keys| == |values| && SlotsOk(keys, |s.buf|) && SlotsOk(values, |s.buf|)
      ensures EndSortedMap(s', start, keys, values) == EndSortedMap(s, start, keys, values).(hasDuplicateKeys := s'.hasDuplicateKeys)
    {
      hide VectorWidth, PaddingBytes, Le, WriteAll, PackedTypes, ElemWidth;
    }

    lemma EndSortedMapIs(s: State, start: nat, keys: seq<Slot>, values: seq<Slot>)
      requires start <= |s.stack| && |keys| == |values| && SlotsOk(keys, |s.buf|) && SlotsOk(values, |s.buf|)
      ensures var (s1, keySlot) := FlexBuilder.CreateKeyVector(s, keys);
        && |s.buf| <= |s1.buf| && keySlot.u <= |s1.buf| && SlotsOk(values, |s1.buf|)
        && var (s2, slot) := FlexBuilder.CreateVector(s1, values, 2, Some(keySlot));
        && s2 == s.(buf := s2.buf) && s1 == s.(buf := s1.buf)
        && EndSortedMap(s, start, keys, values) == s.(buf := s2.buf, stack := s.stack[..start] + [slot])
    {
      hide FlexBuilder.CreateVector, FlexBuilder.CreateKeyVector, SlotsOk;
      KeyVectorGrows(s, keys);
      KeyVectorSame(s, keys);
      var (s1, keySlot) := FlexBuilder.CreateKeyVector(s, keys);
      SlotsOkLarger(values, |s.buf|, |s1.buf|);
      CreateVectorGrows(s1, values, 2, Some(keySlot));
    }

    lemma InterleaveStrides(bottom: seq<Slot>, keys: seq<Slot>, values: seq<Slot>)
      requires |keys| == |values|
      ensures var stack := bottom + Interleave(keys, values); var n := |keys|; var start := |bottom|;
        && |stack| == start + 2 * n
        && Strided(stack, start, n, 2) == keys
        && Strided(stack, start + 1, n, 2) == values
    {
      var stack := bottom + Interleave(keys, values);
      var n, start := |keys|, |bottom|;
      forall j | 0 <= j < n
        ensures Strided(stack, start, n, 2)[j] == keys[j] && Strided(stack, start + 1, n, 2)[j] == values[j]
      {
        assert stack[start + j * 2] == Interleave(keys, values)[2 * j];
        assert stack[start + 1 + j * 2] == Interleave(keys, values)[2 * j + 1];
      }
    }

    method Finish()
      requires |stack| == 1 && SlotsOk(stack, |buf|)
      modifies this
      ensures Model() == FlexBuilder.Finish(old(Model()))
    {
      hide PaddingBytes, Le, ElemWidth;
      assert stack[0] in stack;
      var w := FindElemWidth(stack[0], |buf|, 0);
      Align(w);
      buf := WriteAny(buf, stack[0], ByteWidth(w));
      buf := buf + Le(StoredPackedType(stack[0], 0), 1);
      buf := buf + Le(ByteWidth(w), 1);
      finished := true;
    }

    /** The calls that put a value, with everything in it, on the stack. */
    method Add(v: Value)
      requires StackOk(Model()) && Buildable(v)
      modifies this
      ensures Model() == Build(old(Model()), v)
      decreases v
    {
      hide StackOk, FlexBuilder.String, FlexBuilder.Key, FlexBuilder.EndVector, FlexRoundTrip.EndMap, Inline, Buildable;
      match v
      case Str(chars) => String(chars);
      case Vec(_) => AddVector(v);
      case Map(_, _) => AddMap(v);
      case _ =>
        NotNested(v);
        stack := stack + [Inline(v)];
    }

    lemma NotNested(v: Value)
      requires Buildable(v) && !v.Str? && !v.Vec? && !v.Map?
      ensures InRange(v)
    {}

    /** StartVector, the elements, EndVector. */
    method AddVector(v: Value)
      requires StackOk(Model()) && v.Vec? && Buildable(v)
      modifies this
      ensures Model() == Build(old(Model()), v)
      decreases v, 0
    {
      ghost var s := Model();
      var start := |stack|;
      ghost var all := BuildElems(s, v, 0);
      VectorBuilt(s, v);
      var i := 0;
      while i < |v.elems|
        invariant i <= |v.elems| && StackOk(Model()) && BuildElems(Model(), v, i) == all
      {
        ElemBuildable(v, i);
        Add(v.elems[i]);
        i := i + 1;
      }
      EndVector(start);
    }

    lemma VectorBuilt(s: State, v: Value)
      requires StackOk(s) && v.Vec? && Buildable(v)
      ensures var s1 := BuildElems(s, v, 0);
        && |s.stack| <= |s1.stack| && SlotsOk(s1.stack[|s.stack|..], |s1.buf|) && Build(s, v) == FlexBuilder.EndVector(s1, |s.stack|)
    {
      EndVectorIsOneMore(s, BuildElems(s, v, 0));
    }

    /** StartMap, a key and a value by turns, EndMap. */
    method AddMap(v: Value)
      requires StackOk(Model()) && v.Map? && Buildable(v)
      modifies this
      ensures Model() == Build(old(Model()), v)
      decreases v, 1
    {
      ghost var s := Model();
      var start := |stack|;
      ghost var all := BuildMembers(s, v, 0);
      MapBuilt(s, v);
      hide StackOk, SlotsOk, FlexRoundTrip.EndMap, Buildable, Build, BuildMembers;
      var i := 0;
      while i < |v.values|
        invariant i <= |v.values| && StackOk(Model()) && BuildMembers(Model(), v, i) == all
      {
        AddMember(v, i);
        i := i + 1;
      }
      MembersDone(Model(), v);
      assert Model() == all;
      EndMap(start, |v.values|);
    }

    /** One key and its value. */
    method AddMember(v: Value, i: nat)
      requires StackOk(Model()) && v.Map? && Buildable(v) && i < |v.values|
      modifies this
      ensures StackOk(Model()) && BuildMembers(old(Model()), v, i) == BuildMembers(Model(), v, i + 1)
      decreases v, 0
    {
      MembersStep(Model(), v, i);
      hide FlexBuilder.Key, StackOk, SlotsOk, Buildable, Build, BuildMembers;
      Key(v.keys[i]);
      Add(v.values[i]);
    }
  }

  lemma MembersStep(s: State, v: Value, i: nat)
    requires StackOk(s) && v.Map? && Buildable(v) && i < |v.values|
    ensures |v.keys| == |v.values| && StackOk(FlexBuilder.Key(s, v.keys[i])) && Buildable(v.values[i])
    ensures var s2 := Build(FlexBuilder.Key(s, v.keys[i]), v.values[i]);
      StackOk(s2) && BuildMembers(s, v, i) == BuildMembers(s2, v, i + 1)
  {
    hide FlexBuilder.Key, Build;
    MemberBuildable(v, i);
    KeyIsOneMore(s, v.keys[i]);
  }

  lemma MembersDone(s: State, v: Value)
    requires StackOk(s) && v.Map? && Buildable(v)
    ensures BuildMembers(s, v, |v.values|) == s
  {}

  lemma MapBuilt(s: State, v: Value)
    requires StackOk(s) && v.Map? && Buildable(v)
    ensures var s1 := BuildMembers(s, v, 0);
      && |s1.stack| == |s.stack| + 2 * |v.values| && SlotsOk(s1.stack, |s1.buf|)
      && Build(s, v) == FlexRoundTrip.EndMap(s1, |s.stack|, |v.values|)
  {
    hide FlexRoundTrip.EndMap, SlotsOk;
  }

  /** Two lists by turns. */
  function Interleave(xs: seq<Slot>, ys: seq<Slot>): (r: seq<Slot>)
    requires |xs| == |ys|
    ensures |r| == 2 * |xs|
  {
    seq(2 * |xs|, k requires 0 <= k < 2 * |xs| => if k % 2 == 0 then xs[k / 2] else ys[k / 2])
  }

  lemma EncodeSteps(v: Value, shareKeys: bool, shareStrings: bool, forceMin: BitWidth)
    requires Buildable(v)
    ensures var s := Fresh(shareKeys, shareStrings, forceMin);
      && s == Init(shareKeys, shareStrings).(forceMin := forceMin) && |Build(s, v).stack| == 1 && SlotsOk(Build(s, v).stack, |Build(s, v).buf|)
      && Encode(v, shareKeys, shareStrings, forceMin) == FlexBuilder.Finish(Build(s, v)).buf
      && FlexBuilder.Finish(Build(s, v)).hasDuplicateKeys == Build(s, v).hasDuplicateKeys
  {
    hide Build, PaddingBytes, Le, ElemWidth;
  }

  /** Building a value with the object and reading the finished bytes gives the value back. */
  method Serialize(v: Value, shareKeys: bool, shareStrings: bool, forceMin: BitWidth) returns (buf: seq<byte>, duplicates: bool)
    requires Buildable(v) && Cost(v) + 64 < LIMIT
    ensures buf == Encode(v, shareKeys, shareStrings, forceMin)
    ensures RootReference(buf).Got? && Reads(buf, RootReference(buf).value, Canonical(v))
    ensures duplicates <==> HasDuplicates(v)
  {
    RoundTrip(v, shareKeys, shareStrings, forceMin);
    EncodeSteps(v, shareKeys, shareStrings, forceMin);
    hide Build, Buildable, Cost, Reads, Canonical, HasDuplicates, RootReference, FlexBuilder.Finish, Encode, StackOk, SlotsOk, Fresh, Init;
    var builder := new Builder(shareKeys, shareStrings);
    builder.ForceMinimumBitWidth(forceMin);
    builder.Add(v);
    builder.Finish();
    buf, duplicates := builder.buf, builder.hasDuplicateKeys;
  }
}
