/** Sharing of keys and strings in FlexBuffers: what is pooled is stored once, and used again. */
module FlexPools {
  import opened Bytes
  import opened Common
  import opened FlatReader
  import opened FlexFormat
  import opened FlexBuilder
  import opened FlexWidths
  import opened FlexProofs
  import opened FlexSort
  import opened FlexRoundTrip
  import opened FlexLayout

  // ----- keys

  /** Every pooled offset leads to a key, and no two to the same. */
  predicate KeysOnce(buf: seq<byte>, pool: seq<nat>) {
    && (forall i :: 0 <= i < |pool| ==> CString(buf, pool[i]).Got?)
    && (forall i, j :: 0 <= i < j < |pool| ==> CString(buf, pool[i]) != CString(buf, pool[j]))
  }

  predicate KeyPooled(buf: seq<byte>, pool: seq<nat>, key: seq<byte>) {
    exists i :: 0 <= i < |pool| && CString(buf, pool[i]) == Got(key)
  }

  lemma {:induction false} CStringStands(buf: seq<byte>, pos: nat, key: seq<byte>)
    requires CString(buf, pos) == Got(key)
    ensures KeyStands(buf, pos, key) && NoZero(key)
    decreases |key|
  {
    if buf[pos] == 0 {
      assert buf[pos..pos + 1] == [0];
      assert key + [0] == [0];
    } else {
      var rest := CString(buf, pos + 1).value;
      assert key == [buf[pos]] + rest;
      CStringStands(buf, pos + 1, rest);
      assert buf[pos..pos + |key| + 1] == [buf[pos]] + buf[pos + 1..pos + 1 + |rest| + 1];
      assert [buf[pos]] + (rest + [0]) == key + [0];
    }
  }

  lemma {:induction false} CStringStays(buf: seq<byte>, more: seq<byte>, pos: int)
    requires CString(buf, pos).Got?
    ensures CString(buf + more, pos) == CString(buf, pos)
    decreases |buf| - pos
  {
    if buf[pos] != 0 {
      CStringStays(buf, more, pos + 1);
    }
  }

  lemma KeysStay(buf: seq<byte>, more: seq<byte>, pool: seq<nat>)
    requires KeysOnce(buf, pool)
    ensures KeysOnce(buf + more, pool)
    ensures forall i :: 0 <= i < |pool| ==> CString(buf + more, pool[i]) == CString(buf, pool[i])
  {
    forall i | 0 <= i < |pool|
      ensures CString(buf + more, pool[i]) == CString(buf, pool[i])
    {
      CStringStays(buf, more, pool[i]);
    }
  }

  lemma FoundKey(buf: seq<byte>, pool: seq<nat>, key: seq<byte>)
    requires NoZero(key)
    ensures FindKey(buf, pool, key).Some? <==> KeyPooled(buf, pool, key)
    ensures FindKey(buf, pool, key).Some? ==> CString(buf, FindKey(buf, pool, key).value) == Got(key)
  {
    match FindKey(buf, pool, key)
    case Some(off) =>
      CStringIsRead(buf, off, key);
      var i :| 0 <= i < |pool| && pool[i] == off;
    case None =>
      if KeyPooled(buf, pool, key) {
        var i :| 0 <= i < |pool| && CString(buf, pool[i]) == Got(key);
        CStringStands(buf, pool[i], key);
      }
  }

  /**
   * Key: with keys shared, one that was used before leaves the buffer and the pool as they were, and the slot
   * is that of the key in the pool; otherwise the key and a zero byte are appended, and the key is pooled.
   */
  lemma KeyShares(s: State, key: seq<byte>)
    requires NoZero(key) && KeysOnce(s.buf, s.keyPool)
    ensures var s' := Key(s, key);
      && s' == s.(buf := s'.buf, keyPool := s'.keyPool, stack := s'.stack)
      && |s'.stack| == |s.stack| + 1 && s'.stack[..|s.stack|] == s.stack
      && var off := s'.stack[|s.stack|].u;
      && s'.stack[|s.stack|] == Slot(off, FBT_KEY, 0) && CString(s'.buf, off) == Got(key)
      && KeysOnce(s'.buf, s'.keyPool)
      && (if s.shareKeys && KeyPooled(s.buf, s.keyPool, key)
          then s'.buf == s.buf && s'.keyPool == s.keyPool && off in s.keyPool
          else s'.buf == s.buf + key + [0] && off == |s.buf| && s'.keyPool == if s.shareKeys then s.keyPool + [off] else s.keyPool)
  {
    hide FindKey, CString, KeysOnce;
    var off := |s.buf|;
    var buf := s.buf + (key + [0]);
    assert buf == s.buf + key + [0];
    assert buf[off..off + |key| + 1] == key + [0];
    CStringIsRead(buf, off, key);
    KeysStay(s.buf, key + [0], s.keyPool);
    FoundKey(s.buf, s.keyPool, key);
    if s.shareKeys && FindKey(s.buf, s.keyPool, key).None? {
      KeyAdded(s.buf, key + [0], s.keyPool, key, off);
    }
  }

  lemma KeyAdded(buf: seq<byte>, more: seq<byte>, pool: seq<nat>, key: seq<byte>, off: nat)
    requires KeysOnce(buf, pool) && !KeyPooled(buf, pool, key) && CString(buf + more, off) == Got(key)
    ensures KeysOnce(buf + more, pool + [off])
  {
    hide CString;
    KeysStay(buf, more, pool);
  }

  // ----- strings

  predicate TextAt(buf: seq<byte>, e: (nat, nat)) {
    e.0 + e.1 <= |buf|
  }

  /** Every pooled entry is a text in the buffer, and no two are the same text. */
  predicate TextsOnce(buf: seq<byte>, pool: seq<(nat, nat)>) {
    && (forall i :: 0 <= i < |pool| ==> TextAt(buf, pool[i]))
    && (forall i, j :: 0 <= i < j < |pool| ==> buf[pool[i].0..pool[i].0 + pool[i].1] != buf[pool[j].0..pool[j].0 + pool[j].1])
  }

  predicate TextPooled(buf: seq<byte>, pool: seq<(nat, nat)>, chars: seq<byte>) {
    exists e :: e in pool && StringStands(buf, e, chars)
  }

  lemma TextsStay(buf: seq<byte>, more: seq<byte>, pool: seq<(nat, nat)>)
    requires TextsOnce(buf, pool)
    ensures TextsOnce(buf + more, pool)
    ensures forall i :: 0 <= i < |pool| ==>
      (buf + more)[pool[i].0..pool[i].0 + pool[i].1] == buf[pool[i].0..pool[i].0 + pool[i].1]
  {
    forall i | 0 <= i < |pool|
      ensures TextAt(buf + more, pool[i])
      ensures (buf + more)[pool[i].0..pool[i].0 + pool[i].1] == buf[pool[i].0..pool[i].0 + pool[i].1]
    {
      assert TextAt(buf, pool[i]);
    }
  }

  lemma TextAdded(buf: seq<byte>, more: seq<byte>, pool: seq<(nat, nat)>, chars: seq<byte>, e: (nat, nat))
    requires TextsOnce(buf, pool) && !TextPooled(buf, pool, chars) && StringStands(buf + more, e, chars)
    ensures TextsOnce(buf + more, pool + [e])
  {
    TextsStay(buf, more, pool);
    forall i | 0 <= i < |pool|
      ensures buf[pool[i].0..pool[i].0 + pool[i].1] != chars
    {
      assert TextAt(buf, pool[i]) && pool[i] in pool;
      assert !StringStands(buf, pool[i], chars);
    }
  }

  /**
   * String: with strings shared, one that was used before leaves the buffer and the pool as they were, and
   * the slot leads to the string in the pool; otherwise it is created, and pooled.
   */
  lemma StringShares(s: State, chars: seq<byte>)
    requires |chars| < Room(3) && TextsOnce(s.buf, s.stringPool)
    ensures var s' := String(s, chars); var (s1, made) := CreateString(s, chars);
      && s' == s.(buf := s'.buf, stringPool := s'.stringPool, stack := s'.stack)
      && |s'.stack| == |s.stack| + 1 && s'.stack[..|s.stack|] == s.stack
      && var slot := s'.stack[|s.stack|];
      && slot == made.(u := slot.u) && StringStands(s'.buf, (slot.u, |chars|), chars)
      && TextsOnce(s'.buf, s'.stringPool)
      && (if s.shareStrings && TextPooled(s.buf, s.stringPool, chars)
          then s'.buf == s.buf && s'.stringPool == s.stringPool && (slot.u, |chars|) in s.stringPool
          else s'.buf == s1.buf && slot == made && s'.stringPool == if s.shareStrings then s.stringPool + [(slot.u, |chars|)] else s.stringPool)
  {
    StringLayout(s, chars, 0);
    hide CreateString, FindPooled, TextsOnce, VectorLaidOut;
    var (s1, made) := CreateString(s, chars);
    var more := s1.buf[|s.buf|..];
    assert s1.buf == s.buf + more by {
      CreatedBehind(s, chars);
    }
    assert StringStands(s1.buf, (made.u, |chars|), chars) by {
      var tail := s1.buf[made.u..];
      assert s1.buf[made.u..made.u + |chars|] == tail[..|chars|] == chars;
    }
    TextsStay(s.buf, more, s.stringPool);
    if s.shareStrings && FindPooled(s.buf, s.stringPool, chars).None? {
      TextAdded(s.buf, more, s.stringPool, chars, (made.u, |chars|));
    }
  }

  lemma CreatedBehind(s: State, chars: seq<byte>)
    requires |chars| < Room(3)
    ensures var b := CreateString(s, chars).0.buf; |s.buf| <= |b| && b == s.buf + b[|s.buf|..]
  {
    hide CreateString, PaddedTo;
    StringLayout(s, chars, 0);
  }

  // ----- whole values

  predicate PoolsOnce(s: State) {
    KeysOnce(s.buf, s.keyPool) && TextsOnce(s.buf, s.stringPool)
  }

  /** s' has bytes appended, and the same pools. */
  predicate OnlyAppended(s: State, s': State) {
    && |s.buf| <= |s'.buf| && s'.buf[..|s.buf|] == s.buf
    && s'.keyPool == s.keyPool && s'.stringPool == s.stringPool
  }

  lemma AppendedOnce(s: State, s': State)
    requires PoolsOnce(s) && OnlyAppended(s, s')
    ensures PoolsOnce(s')
  {
    hide KeysOnce, TextsOnce;
    var more := s'.buf[|s.buf|..];
    assert s'.buf == s.buf + more;
    KeysStay(s.buf, more, s.keyPool);
    TextsStay(s.buf, more, s.stringPool);
  }

  lemma EndVectorAppends(s: State, start: nat)
    requires start <= |s.stack| && SlotsOk(s.stack[start..], |s.buf|)
    ensures OnlyAppended(s, EndVector(s, start))
  {
    VectorLayout(s, s.stack[start..], 1, None);
    hide CreateVector, SlotsOk, PaddedTo, TypeByte;
  }

  lemma EndSortedMapAppends(s: State, start: nat, keys: seq<Slot>, values: seq<Slot>)
    requires start <= |s.stack| && |keys| == |values| && SlotsOk(keys, |s.buf|) && SlotsOk(values, |s.buf|)
    ensures OnlyAppended(s, EndSortedMap(s, start, keys, values))
  {
    KeyVectorGrows(s, keys);
    KeyVectorLayout(s, keys);
    var (s1, keySlot) := CreateKeyVector(s, keys);
    SlotsOkLarger(values, |s.buf|, |s1.buf|);
    VectorLayout(s1, values, 2, Some(keySlot));
    var s2 := CreateVector(s1, values, 2, Some(keySlot)).0;
    hide CreateVector, CreateKeyVector, SlotsOk, PaddedTo, TypeByte;
    assert s2.buf[..|s.buf|] == s1.buf[..|s.buf|];
  }

  lemma EndMapAppends(s: State, start: nat, n: nat)
    requires |s.stack| == start + 2 * n && SlotsOk(s.stack, |s.buf|)
    ensures OnlyAppended(s, EndMap(s, start, n))
  {
    hide SlotsOk, EndSortedMap, KeySlots, ValueSlots, Permuted, Order, KeysOf, Distinct;
    var keys, values := KeySlots(s.stack, start, n), ValueSlots(s.stack, start, n);
    var order := Order(KeysOf(s.buf, keys));
    PairsOk(s, start, n, order);
    EndSortedMapAppends(s, start, Permuted(keys, order), Permuted(values, order));
  }

  /** Building any value keeps every pooled key and string once in its pool. */
  lemma {:induction false} BuildPoolsOnce(s: State, v: Value)
    requires StackOk(s) && Buildable(v) && PoolsOnce(s) && Cost(v) < LIMIT
    ensures PoolsOnce(Build(s, v))
    decreases v, 1, 0
  {
    hide PoolsOnce, Key, String, EndVector, EndMap, SlotsOk;
    match v
    case Str(chars) => StringOnce(s, chars);
    case Vec(elems) =>
      ElemsOnce(s, v, 0);
      var s1 := BuildElems(s, v, 0);
      EndVectorIsOneMore(s, s1);
      EndVectorAppends(s1, |s.stack|);
      AppendedOnce(s1, EndVector(s1, |s.stack|));
    case Map(keys, values) =>
      MembersOnce(s, v, 0);
      var s1 := BuildMembers(s, v, 0);
      EndMapAppends(s1, |s.stack|, |values|);
      AppendedOnce(s1, EndMap(s1, |s.stack|, |values|));
    case _ =>
      InlineOnce(s, v);
  }

  lemma StringOnce(s: State, chars: seq<byte>)
    requires PoolsOnce(s) && |chars| + 64 < LIMIT
    ensures PoolsOnce(String(s, chars))
  {
    StringShares(s, chars);
    hide String, CreateString, TextsOnce, KeysOnce, StringStands, TextPooled;
    if String(s, chars).buf != s.buf {
      CreatedBehind(s, chars);
      var b := CreateString(s, chars).0.buf;
      KeysStay(s.buf, b[|s.buf|..], s.keyPool);
    }
  }

  lemma KeyOnce(s: State, key: seq<byte>)
    requires PoolsOnce(s) && NoZero(key)
    ensures PoolsOnce(Key(s, key))
  {
    KeyShares(s, key);
    hide Key, TextsOnce, KeysOnce, KeyPooled, CString;
    if Key(s, key).buf != s.buf {
      assert s.buf + key + [0] == s.buf + (key + [0]);
      TextsStay(s.buf, key + [0], s.stringPool);
    }
  }

  lemma InlineOnce(s: State, v: Value)
    requires InRange(v) && !v.Str? && !v.Vec? && !v.Map? && PoolsOnce(s)
    ensures PoolsOnce(PushSlot(s, Inline(v)))
  {
    hide KeysOnce, TextsOnce, Inline;
  }

  lemma {:induction false} ElemsOnce(s: State, v: Value, i: nat)
    requires StackOk(s) && v.Vec? && Buildable(v) && i <= |v.elems| && PoolsOnce(s) && CostFrom(v, i) < LIMIT
    ensures PoolsOnce(BuildElems(s, v, i))
    decreases v, 0, |v.elems| - i
  {
    hide PoolsOnce, Build, SlotsOk;
    if i < |v.elems| {
      ElemBuildable(v, i);
      BuildPoolsOnce(s, v.elems[i]);
      ElemsOnce(Build(s, v.elems[i]), v, i + 1);
    }
  }

  lemma {:induction false} MembersOnce(s: State, v: Value, i: nat)
    requires StackOk(s) && v.Map? && Buildable(v) && i <= |v.values| && PoolsOnce(s) && CostFrom(v, i) < LIMIT
    ensures PoolsOnce(BuildMembers(s, v, i))
    decreases v, 0, |v.values| - i
  {
    hide PoolsOnce, Build, Key, SlotsOk;
    if i < |v.values| {
      MemberBuildable(v, i);
      KeyOnce(s, v.keys[i]);
      KeyIsOneMore(s, v.keys[i]);
      var s1 := Key(s, v.keys[i]);
      BuildPoolsOnce(s1, v.values[i]);
      MembersOnce(Build(s1, v.values[i]), v, i + 1);
    }
  }
}
