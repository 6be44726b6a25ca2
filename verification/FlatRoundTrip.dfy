/** What is added to a table is read back from it, whatever the order of the adds and whether defaults are stored. */
module FlatRoundTrip {
  import opened Bytes
  import opened Common
  import opened FlatReader
  import opened FlatObjects
  import opened FlatAccess
  import opened FlatBuilder
  import opened FlatBuilderProofs
  import opened FlatRuns

  /** Each add decides what is stored under its id, and nothing else does. */
  lemma {:induction false} StoredLookup(adds: seq<Add>, vals: seq<Value>, force: bool, i: nat)
    requires DistinctIds(adds) && i < |adds|
    ensures var fields := Stored(adds, vals, force); var id := adds[i].id;
      && (id in fields <==> id in Store(map[], adds[i], vals, force))
      && (id in fields ==> fields[id] == Store(map[], adds[i], vals, force)[id])
  {
    var n := |adds| - 1;
    var id := adds[i].id;
    if i == n {
      StoredIds(adds[..n], vals, force);
      assert id !in Stored(adds[..n], vals, force);
    } else {
      assert adds[..n][i] == adds[i];
      StoredLookup(adds[..n], vals, force, i);
    }
  }

  /** GetField reads back the value a scalar was added with, stored or not. */
  lemma ReadsAddedScalar(buf: seq<byte>, off: nat, adds: seq<Add>, vals: seq<Value>, force: bool, i: nat, align: nat)
    requires ObjAt(buf, off, VTable(Stored(adds, vals, force)), align)
    requires DistinctIds(adds) && i < |adds| && adds[i].AddScalar? && IsFieldId(adds[i].id) && |adds[i].bytes| == |adds[i].default|
    ensures GetField(buf, |buf| - off, adds[i].id, |adds[i].bytes|, UnLe(adds[i].default)) == Got(UnLe(adds[i].bytes))
  {
    hide ObjAt, GetField, Stored;
    StoredLookup(adds, vals, force, i);
    ReadsScalar(buf, off, Stored(adds, vals, force), adds[i].id, |adds[i].bytes|, UnLe(adds[i].default), align);
  }

  lemma ReadsAddedSigned(buf: seq<byte>, off: nat, adds: seq<Add>, vals: seq<Value>, force: bool, i: nat, align: nat, value: int, n: nat)
    requires ObjAt(buf, off, VTable(Stored(adds, vals, force)), align)
    requires DistinctIds(adds) && i < |adds| && IsFieldId(adds[i].id) && n > 0
    requires -(Pow256(n) as int) <= 2 * value < Pow256(n)
    requires adds[i].AddScalar? && adds[i].bytes == Le(FromSigned(value, n), n) && adds[i].default == Le(FromSigned(0, n), n)
    ensures GetSignedField(buf, |buf| - off, adds[i].id, n, 0) == Got(value)
  {
    hide ObjAt, GetSignedField, Stored, Le, FromSigned, ToSigned;
    var fields := Stored(adds, vals, force);
    var id := adds[i].id;
    StoredLookup(adds, vals, force, i);
    ReadsSignedScalar(buf, off, fields, id, n, 0, align);
    LeRoundTrip(FromSigned(value, n), n);
    LeRoundTrip(FromSigned(0, n), n);
    SignedRoundTrip(value, n);
    SignedRoundTrip(0, n);
  }

  /** GetPointer leads to the object an offset was added with, or is null when none was. */
  lemma ReadsAddedRef(buf: seq<byte>, off: nat, adds: seq<Add>, vals: seq<Value>, force: bool, i: nat, align: nat) returns (target: nat)
    requires ObjAt(buf, off, VTable(Stored(adds, vals, force)), align)
    requires DistinctIds(adds) && i < |adds| && adds[i].AddRef? && IsFieldId(adds[i].id)
    requires adds[i].target.Some? ==> adds[i].target.value < |vals|
    ensures adds[i].target.None? ==> GetPointer(buf, |buf| - off, adds[i].id) == Got(None)
    ensures adds[i].target.Some? ==>
      && GetPointer(buf, |buf| - off, adds[i].id) == Got(Some(|buf| - target))
      && ObjAt(buf, target, vals[adds[i].target.value], align)
  {
    hide ObjAt, GetPointer, Stored, GetOptionalFieldOffset;
    StoredLookup(adds, vals, force, i);
    var fields := Stored(adds, vals, force);
    if adds[i].target.None? {
      target := 0;
      ReadsAbsent(buf, off, fields, adds[i].id, align);
      NullPointer(buf, |buf| - off, adds[i].id);
    } else {
      target := ReadsRef(buf, off, fields, adds[i].id, align);
    }
  }

  lemma NullPointer(buf: seq<byte>, table: int, id: nat)
    requires GetOptionalFieldOffset(buf, table, id) == Got(0)
    ensures GetPointer(buf, table, id) == Got(None)
  {}

  /** A string field reads back the characters of the string it refers to. */
  lemma ReadsAddedString(buf: seq<byte>, off: nat, adds: seq<Add>, vals: seq<Value>, force: bool, i: nat, align: nat)
    requires ObjAt(buf, off, VTable(Stored(adds, vals, force)), align)
    requires DistinctIds(adds) && i < |adds| && adds[i].AddRef? && IsFieldId(adds[i].id)
    requires adds[i].target.Some? ==> adds[i].target.value < |vals| && vals[adds[i].target.value].VString?
    ensures GetStringField(buf, |buf| - off, adds[i].id)
         == Got(if adds[i].target.Some? then Some(vals[adds[i].target.value].chars) else None)
  {
    hide ObjAt, GetPointer, Stored, ReadCString;
    var target := ReadsAddedRef(buf, off, adds, vals, force, i, align);
    if adds[i].target.Some? {
      var chars := vals[adds[i].target.value].chars;
      ReadsCString(buf, target, chars, align);
      assert (chars + [0])[..|chars|] == chars;
    }
  }

  // ----- when the assertions of the source hold

  predicate AddFits(add: Add, objects: nat, lastId: nat) {
    && IsFieldId(add.id) && add.id <= lastId < 0xFFFE
    && match add
       case AddScalar(_, bytes, _) => IsAlignment(|bytes|)
       case AddRef(_, target) => target.Some? ==> target.value < objects
  }

  /** What an add takes at most: its bytes, and the padding that aligns them. */
  function AddRoom(add: Add): nat
    requires add.AddScalar? ==> IsAlignment(|add.bytes|)
  {
    match add
    case AddScalar(_, bytes, _) => 2 * |bytes| - 1
    case AddRef(_, _) => 7
  }

  function AddsRoom(adds: seq<Add>): nat
    requires forall i :: 0 <= i < |adds| && adds[i].AddScalar? ==> IsAlignment(|adds[i].bytes|)
  {
    if adds == [] then 0 else AddRoom(adds[0]) + AddsRoom(adds[1..])
  }

  lemma {:induction false} RoomBound(adds: seq<Add>)
    requires forall i :: 0 <= i < |adds| && adds[i].AddScalar? ==> IsAlignment(|adds[i].bytes|)
    ensures AddsRoom(adds) <= 15 * |adds|
  {
    if adds != [] {
      RoomBound(adds[1..]);
    }
  }

  lemma RunAddFits(s: State, now: State, add: Add, offs: seq<nat>, vals: seq<Value>, fields: map<nat, Field>, lastId: nat)
    requires Building(s, now, offs, vals, fields) && AddFits(add, |offs|, lastId)
    requires |now.data| + AddRoom(add) < MAX_BUFFER_SIZE && now.maxVoffset <= lastId
    ensures AddOk(now, add, offs)
    ensures var r := RunAdd(now, add, offs); |now.data| <= |r.data| <= |now.data| + AddRoom(add) && r.maxVoffset <= lastId
  {
    hide PushElement, Align, ObjAt, OpenTable, Extends, Le;
    match add
    case AddScalar(id, bytes, default) =>
      PushElementIsShort(now, bytes);
      PushElementExtends(now, bytes);
      GrowsLarger(PushElement(now, bytes), now);
    case AddRef(id, target) =>
      if target.Some? {
        var off := offs[target.value];
        ObjInside(now.data, off, vals[target.value], now.minalign);
        AlignExtends(now, 4);
        var s1 := Align(now, 4);
        GrowsLarger(s1, now);
        var bytes := Le(ReferTo(s1, off), 4);
        PushElementIsShort(s1, bytes);
        PushElementExtends(s1, bytes);
        GrowsLarger(PushElement(s1, bytes), s1);
      }
  }

  lemma PushElementIsShort(s: State, bytes: seq<byte>)
    requires IsAlignment(|bytes|)
    ensures |PushElement(s, bytes).data| < |s.data| + 2 * |bytes|
    ensures Aligned(|s.data|, |bytes|) ==> |PushElement(s, bytes).data| == |s.data| + |bytes|
  {
    AlignExtends(s, |bytes|);
    hide Align, Aligned, Grows;
  }

  lemma GrowsLarger(s': State, s: State)
    requires Grows(s', s)
    ensures |s.data| <= |s'.data| && s' == s.(data := s'.data, minalign := s'.minalign)
  {}

  /** Every add of the list is well-formed and names an object there is. */
  predicate AddsFit(adds: seq<Add>, objects: nat, lastId: nat) {
    forall i :: 0 <= i < |adds| ==> AddFits(adds[i], objects, lastId)
  }

  lemma {:induction false} RunAddsFit(s: State, now: State, done: seq<Add>, adds: seq<Add>, offs: seq<nat>, vals: seq<Value>,
                                     lastId: nat)
    requires Building(s, now, offs, vals, Stored(done, vals, s.forceDefaults))
    requires DistinctIds(done + adds) && AddsFit(adds, |offs|, lastId)
    requires |now.data| + AddsRoom(adds) < MAX_BUFFER_SIZE && now.maxVoffset <= lastId
    ensures AddsOk(now, adds, offs)
    ensures var r := RunAdds(now, adds, offs);
      |now.data| <= |r.data| <= |now.data| + AddsRoom(adds) && r.maxVoffset <= lastId
    decreases |adds|
  {
    hide Building, RunAdd, AddOk, Store, AddRoom;
    if adds == [] {
    } else {
      var fields := Stored(done, vals, s.forceDefaults);
      var next := done + [adds[0]];
      assert AddFits(adds[0], |offs|, lastId);
      hide AddFits;
      RunAddFits(s, now, adds[0], offs, vals, fields, lastId);
      StoredIds(done, vals, s.forceDefaults);
      assert adds[0].id !in fields by {
        assert forall i :: 0 <= i < |done| ==> (done + adds)[i] == done[i];
        assert (done + adds)[|done|] == adds[0];
      }
      RunAddBuilds(s, now, adds[0], offs, vals, fields);
      StoredNext(done, adds[0], vals, s.forceDefaults);
      assert next + adds[1..] == done + adds;
      RunAddsFit(s, RunAdd(now, adds[0], offs), next, adds[1..], offs, vals, lastId);
    }
  }

  /** An upper bound on what a table takes: its fields with their padding, the offset to the vtable, and the vtable. */
  function TableRoom(adds: seq<Add>, lastId: nat): nat
    requires forall i :: 0 <= i < |adds| && adds[i].AddScalar? ==> IsAlignment(|adds[i].bytes|)
  {
    AddsRoom(adds) + lastId + 11
  }

  /**
   * A table whose fields, padded, and offset to the vtable stay below 2^16 bytes, in a buffer with room for
   * it, violates no assertion of the builder.
   */
  lemma TableFits(s: State, adds: seq<Add>, offs: seq<nat>, vals: seq<Value>, lastId: nat)
    requires Idle(s) && Holds(s, offs, vals)
    requires DistinctIds(adds) && AddsFit(adds, |offs|, lastId)
    requires lastId < 0xFFFE && AddsRoom(adds) + 7 < 0x1_0000
    requires |s.data| + TableRoom(adds, lastId) < MAX_BUFFER_SIZE
    ensures OpOk(s, MakeTable(adds), offs)
    ensures |RunOp(s, MakeTable(adds), offs).0.data| <= |s.data| + TableRoom(adds, lastId)
  {
    hide Idle, RunAdds, AddsOk, EndTable, AddFits, Holds, DistinctIds, Building, CanEndTable, VTableSize, AddsRoom;
    IdleIsBare(s);
    TableBegins(s, offs, vals);
    assert [] + adds == adds;
    RunAddsFit(s, StartTable(s), [], adds, offs, vals, lastId);
    RunAddsBuilds(s, StartTable(s), [], adds, offs, vals);
    BuiltTableFits(s, RunAdds(StartTable(s), adds, offs), offs, vals, Stored(adds, vals, s.forceDefaults), lastId);
  }

  lemma IdleIsBare(s: State)
    requires Idle(s)
    ensures !s.nested && s.fields == [] && s.maxVoffset == 0
  {}

  lemma BuiltTableFits(s: State, now: State, offs: seq<nat>, vals: seq<Value>, fields: map<nat, Field>, lastId: nat)
    requires Idle(s) && Building(s, now, offs, vals, fields)
    requires now.maxVoffset <= lastId < 0xFFFE && |now.data| - |s.data| + 7 < 0x1_0000 && |now.data| + lastId + 11 < MAX_BUFFER_SIZE
    ensures CanEndTable(now, |s.data|)
    ensures |EndTable(now, |s.data|).0.data| <= |now.data| + lastId + 11
  {
    assert VTableSize(now.maxVoffset) <= lastId + 4;
    hide OpenTable, CanEndTable, EndTable, PushElement, VTableSize, Le;
    PushElementIsShort(now, Le(0, 4));
    OpenTableCanEnd(now, |s.data|, fields);
    EndTableIsShort(now, |s.data|);
  }

  lemma EndTableIsShort(s: State, start: nat)
    requires CanEndTable(s, start)
    ensures |EndTable(s, start).0.data| <= |PushElement(s, Le(0, 4)).data| + VTableSize(s.maxVoffset)
  {
    hide PushElement, Le, VTableBytes, VTableSize, FindVTable;
  }

  lemma OpenTableCanEnd(s: State, start: nat, fields: map<nat, Field>)
    requires OpenTable(s, start, fields) && s.maxVoffset < 0xFFFE && |s.data| - start + 7 < 0x1_0000
    ensures CanEndTable(s, start) && VTableSize(s.maxVoffset) <= 0xFFFF
  {
    hide FieldAt, PushElement, Le;
    PushElementIsShort(s, Le(0, 4));
    forall i | 0 <= i < |s.fields|
      ensures IsFieldId(s.fields[i].id) && s.fields[i].id + 2 <= VTableSize(s.maxVoffset) && s.fields[i].off <= |s.data|
    {
      assert Tracked(s, start, fields, s.fields[i]);
    }
  }

  lemma StringFits(s: State, chars: seq<byte>, offs: seq<nat>)
    requires Idle(s) && |s.data| + |chars| + 8 < MAX_BUFFER_SIZE
    ensures OpOk(s, MakeString(chars), offs)
    ensures |RunOp(s, MakeString(chars), offs).0.data| <= |s.data| + |chars| + 8
  {
    hide CreateString, VTableAt, PoolHolds, ObjAt;
    CreateStringBuilds(s, chars);
  }
}
