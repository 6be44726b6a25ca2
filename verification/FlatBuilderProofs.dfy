/** What the builder's operations write: every finished object means what it was built from, and stays. */
module FlatBuilderProofs {
  import opened Bytes
  import opened Common
  import opened FlatReader
  import opened FlatObjects
  import opened FlatBuilder

  /** s' has only grown from s: the data of s is its tail, and no alignment was forgotten. */
  ghost predicate Extends(s': State, s: State) {
    && |s.data| <= |s'.data|
    && s'.data[|s'.data| - |s.data|..] == s.data
    && s.minalign <= s'.minalign
  }

  /** Only bytes were pushed, nothing else of the state changed. */
  ghost predicate Grows(s': State, s: State) {
    && Extends(s', s)
    && s' == s.(data := s'.data, minalign := s'.minalign)
    && (IsAlignment(s.minalign) ==> IsAlignment(s'.minalign))
  }

  lemma ExtendsTransitive(s: State, s': State, s'': State)
    requires Extends(s', s) && Extends(s'', s')
    ensures Extends(s'', s)
  {
    assert s.data == s''.data[|s''.data| - |s'.data|..][|s'.data| - |s.data|..];
  }

  lemma ObjStays(s: State, s': State, off: nat, v: Value)
    requires Extends(s', s) && ObjAt(s.data, off, v, s.minalign)
    ensures ObjAt(s'.data, off, v, s'.minalign)
  {
    var front := s'.data[..|s'.data| - |s.data|];
    assert s'.data == front + s.data;
    ObjGrows(front, s.data, off, v, s.minalign, s'.minalign);
  }

  lemma FieldStays(s: State, s': State, off: nat, f: Field)
    requires Extends(s', s) && FieldAt(s.data, off, f, s.minalign)
    ensures FieldAt(s'.data, off, f, s'.minalign)
  {
    var front := s'.data[..|s'.data| - |s.data|];
    assert s'.data == front + s.data;
    FieldGrows(front, s.data, off, f, s.minalign, s'.minalign);
  }

  lemma GrowsTransitive(s: State, s': State, s'': State)
    requires Grows(s', s) && Grows(s'', s')
    ensures Grows(s'', s)
  {
    ExtendsTransitive(s, s', s'');
  }

  lemma PushExtends(s: State, bytes: seq<byte>)
    ensures Grows(Push(s, bytes), s)
    ensures At(Push(s, bytes).data, |s.data| + |bytes|, bytes)
  {}

  lemma LargerAlignment(m: nat, n: nat)
    ensures m <= Max(m, n) && n <= Max(m, n)
    ensures IsAlignment(m) && IsAlignment(n) ==> IsAlignment(Max(m, n))
  {}

  /** Padding and a larger alignment are all that Align and PreAlign add. */
  lemma PaddedGrows(s: State, align: nat, padding: nat)
    requires IsAlignment(align)
    ensures var s' := Push(TrackMinAlign(s, align), Zeros(padding));
      Grows(s', s) && s'.minalign >= align && |s'.data| == |s.data| + padding
  {
    PushExtends(TrackMinAlign(s, align), Zeros(padding));
    LargerAlignment(s.minalign, align);
    hide IsAlignment, Max, Zeros;
  }

  lemma AlignExtends(s: State, size: nat)
    requires IsAlignment(size)
    ensures Grows(Align(s, size), s) && Align(s, size).minalign >= size
    ensures Aligned(|Align(s, size).data|, size)
    ensures |Align(s, size).data| < |s.data| + size
    ensures Aligned(|s.data|, size) ==> |Align(s, size).data| == |s.data|
  {
    PaddedGrows(s, size, PaddingBytes(|s.data|, size));
    hide PaddingBytes, Aligned, Push, Zeros, IsAlignment, Max;
    if Aligned(|s.data|, size) {
      AlreadyAligned(|s.data|, size);
    }
  }

  /** PushElement puts the scalar, aligned, at the offset it returns. */
  lemma PushElementExtends(s: State, bytes: seq<byte>)
    requires IsAlignment(|bytes|)
    ensures var s' := PushElement(s, bytes);
      && Grows(s', s) && s'.minalign >= |bytes|
      && |s.data| + |bytes| <= |s'.data| < |s.data| + 2 * |bytes|
      && Aligned(|s'.data|, |bytes|)
      && At(s'.data, |s'.data|, bytes)
      && (Aligned(|s.data|, |bytes|) ==> |s'.data| == |s.data| + |bytes|)
  {
    hide LowBits, Align, Aligned;
    AlignExtends(s, |bytes|);
    var s1 := Align(s, |bytes|);
    PushExtends(s1, bytes);
    GrowsTransitive(s, s1, Push(s1, bytes));
    AlignedNext(|s1.data|, |bytes|);
  }

  // ----- the vtable

  /** The vtable entry at byte id. */
  function Entry(vt: seq<byte>, id: nat): nat
    requires id + 2 <= |vt|
  {
    UnLe(vt[id..id + 2])
  }

  function Ids(fields: seq<FieldLoc>): set<nat> {
    if fields == [] then {} else Ids(fields[..|fields| - 1]) + {fields[|fields| - 1].id}
  }

  lemma {:induction false} IdsAreIds(fields: seq<FieldLoc>)
    ensures forall i :: 0 <= i < |fields| ==> fields[i].id in Ids(fields)
    ensures forall id :: id in Ids(fields) ==> exists i :: 0 <= i < |fields| && fields[i].id == id
  {
    if fields == [] {
    } else {
      var n := |fields| - 1;
      IdsAreIds(fields[..n]);
      forall id | id in Ids(fields)
        ensures exists i :: 0 <= i < |fields| && fields[i].id == id
      {
        if id == fields[n].id {
        } else {
          var i :| 0 <= i < n && fields[..n][i].id == id;
          assert fields[i].id == id;
        }
      }
    }
  }

  lemma IdsOfNext(fields: seq<FieldLoc>, next: FieldLoc)
    ensures Ids(fields + [next]) == Ids(fields) + {next.id}
  {
    assert (fields + [next])[..|fields|] == fields;
  }

  lemma PatchTouches(vt: seq<byte>, at: nat, value: nat)
    requires at % 2 == 0 && at + 2 <= |vt| && value < 0x1_0000
    ensures Entry(Patch(vt, at, Le(value, 2)), at) == value
    ensures forall id: nat | id % 2 == 0 && id != at && id + 2 <= |vt| ::
      Entry(Patch(vt, at, Le(value, 2)), id) == Entry(vt, id)
  {
    Pow256Values();
    LeRoundTrip(value, 2);
    var r := Patch(vt, at, Le(value, 2));
    assert r[at..at + 2] == Le(value, 2);
    forall id: nat | id % 2 == 0 && id != at && id + 2 <= |vt|
      ensures Entry(r, id) == Entry(vt, id)
    {
      assert r[id..id + 2] == vt[id..id + 2];
    }
  }

  /** The slots of a table's fields are distinct and each lies fewer than 2^16 bytes into the table. */
  predicate SlotsFit(vt: seq<byte>, fields: seq<FieldLoc>, table: nat) {
    && FieldsFit(fields, |vt|, table)
    && (forall i, j :: 0 <= i < j < |fields| ==> fields[i].id != fields[j].id)
    && (forall i :: 0 <= i < |fields| ==> table - fields[i].off < 0x1_0000)
  }

  ghost predicate SlotsHold(vt: seq<byte>, r: seq<byte>, fields: seq<FieldLoc>, table: nat)
    requires |r| == |vt| && FieldsFit(fields, |vt|, table)
  {
    && (forall i :: 0 <= i < |fields| ==> Entry(r, fields[i].id) == table - fields[i].off)
    && (forall id: nat | id % 2 == 0 && id + 2 <= |vt| && id !in Ids(fields) :: Entry(r, id) == Entry(vt, id))
  }

  lemma {:induction false} SlotsWritten(vt: seq<byte>, fields: seq<FieldLoc>, table: nat)
    requires SlotsFit(vt, fields, table)
    ensures SlotsHold(vt, WriteSlots(vt, fields, table), fields, table)
  {
    if fields == [] {
    } else {
      var n := |fields| - 1;
      SlotsWritten(vt, fields[..n], table);
      SlotWritten(vt, fields, table, WriteSlots(vt, fields[..n], table));
    }
  }

  lemma SlotWritten(vt: seq<byte>, fields: seq<FieldLoc>, table: nat, before: seq<byte>)
    requires fields != [] && SlotsFit(vt, fields, table) && |before| == |vt|
    requires SlotsHold(vt, before, fields[..|fields| - 1], table)
    ensures var last := fields[|fields| - 1];
      SlotsHold(vt, Patch(before, last.id, Le(table - last.off, 2)), fields, table)
  {
    hide Patch, Le;
    var n := |fields| - 1;
    var last := fields[n];
    PatchTouches(before, last.id, table - last.off);
    forall i | 0 <= i < n
      ensures Entry(before, fields[i].id) == table - fields[i].off && fields[i].id != last.id
    {
      assert fields[..n][i] == fields[i];
    }
  }

  /**
   * The vtable has a slot for its largest field id, unless that id is 0xFFFE: the assertion on field ids lets
   * it through, but the size of a vtable that lists it no longer fits in 16 bits and becomes 4.
   */
  lemma VTableHasRoom(id: nat)
    requires IsFieldId(id) && id < 0x1_0000
    ensures id + 2 <= VTableSize(id) <==> id < 0xFFFE
    ensures VTableSize(0xFFFE) == 4
  {
    assert id != 0xFFFF;
  }

  /** A vtable holds its size, the table's size and where each field lies; its other entries are 0. */
  lemma VTableMeaning(size: nat, objectSize: nat, fields: seq<FieldLoc>, table: nat)
    requires 4 <= size < 0x1_0000 && objectSize < 0x1_0000
    requires SlotsFit(Zeros(size), fields, table)
    ensures var vt := VTableBytes(size, objectSize, fields, table);
      && Entry(vt, 0) == size
      && Entry(vt, 2) == objectSize
      && (forall i :: 0 <= i < |fields| ==> Entry(vt, fields[i].id) == table - fields[i].off)
      && (forall id: nat | IsFieldId(id) && id + 2 <= size && id !in Ids(fields) :: Entry(vt, id) == 0)
  {
    var blank := Le(size, 2) + Le(objectSize, 2) + Zeros(size - 4);
    SlotsWritten(blank, fields, table);
    IdsAreIds(fields);
    BlankEntries(size, objectSize);
  }

  lemma BlankEntries(size: nat, objectSize: nat)
    requires 4 <= size < 0x1_0000 && objectSize < 0x1_0000
    ensures var blank := Le(size, 2) + Le(objectSize, 2) + Zeros(size - 4);
      && Entry(blank, 0) == size && Entry(blank, 2) == objectSize
      && (forall id: nat | IsFieldId(id) && id + 2 <= size :: Entry(blank, id) == 0)
  {
    Pow256Values();
    var blank := Le(size, 2) + Le(objectSize, 2) + Zeros(size - 4);
    assert blank[0..2] == Le(size, 2);
    assert blank[2..4] == Le(objectSize, 2);
    LeRoundTrip(size, 2);
    LeRoundTrip(objectSize, 2);
    forall id: nat | IsFieldId(id) && id + 2 <= size
      ensures Entry(blank, id) == 0
    {
      assert blank[id..id + 2] == Zeros(2);
      ZerosMeanZero(2);
    }
  }

  lemma {:induction false} ZerosMeanZero(n: nat)
    ensures UnLe(Zeros(n)) == 0
  {
    if n == 0 {
    } else {
      ZerosMeanZero(n - 1);
      assert Zeros(n)[1..] == Zeros(n - 1);
    }
  }

  lemma DataAtSlice(data: seq<byte>, off: nat, n: nat, i: nat, k: nat)
    requires i + k <= n <= off <= |data|
    ensures DataAt(data, off - i, k) == DataAt(data, off, n)[i..i + k]
  {
    var part := DataAt(data, off, n)[i..i + k];
    assert forall j :: 0 <= j < k ==> part[j] == data[|data| - off + i + j] == DataAt(data, off - i, k)[j];
  }

  /** Where a vtable's bytes stand in the data, its entries can be looked up. */
  lemma VTableFromBytes(data: seq<byte>, use: nat, vt: seq<byte>)
    requires At(data, use, vt) && Aligned(use, 2)
    requires |vt| >= 4 && |vt| % 2 == 0 && Entry(vt, 0) == |vt|
    ensures VTableAt(data, use)
    ensures forall id: nat | IsFieldId(id) ::
      SlotAt(data, use, id) == if id < |vt| then Entry(vt, id) else 0
  {
    DataAtSlice(data, use, |vt|, 0, 2);
    forall id: nat | IsFieldId(id) && id < |vt|
      ensures SlotAt(data, use, id) == Entry(vt, id)
    {
      DataAtSlice(data, use, |vt|, id, 2);
    }
  }

  // ----- tables

  ghost predicate Tracked(s: State, start: nat, fields: map<nat, Field>, loc: FieldLoc) {
    && loc.id in fields
    && IsFieldId(loc.id) && loc.id <= s.maxVoffset
    && start < loc.off <= |s.data|
    && FieldAt(s.data, loc.off, fields[loc.id], s.minalign)
  }

  /** A table is being built since start, and fields says what has been stored in it so far. */
  ghost predicate OpenTable(s: State, start: nat, fields: map<nat, Field>) {
    && s.nested && IsAlignment(s.minalign)
    && start <= |s.data|
    && (forall i, j :: 0 <= i < j < |s.fields| ==> s.fields[i].id != s.fields[j].id)
    && (forall i :: 0 <= i < |s.fields| ==> Tracked(s, start, fields, s.fields[i]))
    && fields.Keys == Ids(s.fields)
    && s.maxVoffset % 2 == 0
  }

  lemma TrackedStays(s: State, s1: State, start: nat, fields: map<nat, Field>, loc: FieldLoc, id: nat, f: Field, max: nat)
    requires Tracked(s, start, fields, loc) && Extends(s1, s) && id !in fields && max >= s.maxVoffset
    ensures Tracked(s1.(maxVoffset := max), start, fields[id := f], loc)
  {
    FieldStays(s, s1, loc.off, fields[loc.id]);
  }

  lemma TrackFieldKeepsOpen(s: State, s1: State, start: nat, fields: map<nat, Field>, id: nat, off: nat, f: Field)
    requires OpenTable(s, start, fields) && IsAlignment(s1.minalign) && Grows(s1, s)
    requires IsFieldId(id) && id !in fields
    requires start < off <= |s1.data| && FieldAt(s1.data, off, f, s1.minalign)
    ensures OpenTable(TrackField(s1, id, off), start, fields[id := f])
    ensures Extends(TrackField(s1, id, off), s)
  {
    hide FieldAt, LowBits, Aligned, Ids;
    var s2 := TrackField(s1, id, off);
    var fields2 := fields[id := f];
    IdsAreIds(s.fields);
    assert Ids(s2.fields) == Ids(s.fields) + {id} by {
      IdsOfNext(s.fields, s2.fields[|s.fields|]);
    }
    forall i | 0 <= i < |s2.fields|
      ensures Tracked(s2, start, fields2, s2.fields[i])
    {
      if i < |s.fields| {
        assert Tracked(s, start, fields, s.fields[i]);
        TrackedStays(s, s1, start, fields, s.fields[i], id, f, s2.maxVoffset);
      }
    }
  }

  /** A scalar that differs from its default is stored; any other leaves the table as it was. */
  lemma AddElementKeepsOpen(s: State, start: nat, fields: map<nat, Field>, id: nat, bytes: seq<byte>, default: seq<byte>)
    requires OpenTable(s, start, fields) && IsFieldId(id) && id !in fields && IsAlignment(|bytes|)
    ensures var s' := AddElement(s, id, bytes, default);
      && Extends(s', s)
      && OpenTable(s', start, if bytes == default && !s.forceDefaults then fields else fields[id := Scalar(bytes)])
  {
    hide PushElement;
    if bytes == default && !s.forceDefaults {
    } else {
      PushElementExtends(s, bytes);
      var s1 := PushElement(s, bytes);
      TrackFieldKeepsOpen(s, s1, start, fields, id, |s1.data|, Scalar(bytes));
    }
  }

  /** An offset pushed at an aligned place leads, from where it is stored, to the object it names. */
  lemma ReferencePushed(s: State, off: nat, v: Value) returns (s': State)
    requires Aligned(|s.data|, 4) && IsAlignment(s.minalign)
    requires ObjAt(s.data, off, v, s.minalign)
    requires |s.data| + 4 < 0x1_0000_0000
    ensures s' == PushElement(s, Le(ReferTo(s, off), 4))
    ensures Grows(s', s) && FieldAt(s'.data, |s'.data|, Ref(v), s'.minalign) && IsAlignment(s'.minalign)
    ensures |s'.data| == |s.data| + 4
    ensures Le(ReferTo(s, off), 4) != Le(0, 4)
  {
    ObjInside(s.data, off, v, s.minalign);
    hide PushElement, ObjAt, Aligned, Le, FieldAt, Extends, At;
    var distance := ReferTo(s, off);
    s' := PushElement(s, Le(distance, 4));
    PushElementExtends(s, Le(distance, 4));
    ObjStays(s, s', off, v);
    assert |s'.data| - distance == off;
    RefStored(s'.data, |s'.data|, distance, v, s'.minalign);
  }

  lemma RefStored(data: seq<byte>, at: nat, distance: nat, v: Value, align: nat)
    requires 0 < distance <= at <= |data| && distance < 0x1_0000_0000
    requires Aligned(at, 4) && At(data, at, Le(distance, 4))
    requires ObjAt(data, at - distance, v, align)
    ensures FieldAt(data, at, Ref(v), align)
    ensures Le(distance, 4) != Le(0, 4)
  {
    hide ObjAt, Aligned, Le, UnLe, Pow256;
    Pow256Values();
    LeRoundTrip(distance, 4);
    LeRoundTrip(0, 4);
  }

  /** An offset that is not null is stored, and leads to the object it names; a null one is not stored. */
  lemma AddOffsetKeepsOpen(s: State, start: nat, fields: map<nat, Field>, id: nat, off: nat, v: Value)
    requires OpenTable(s, start, fields) && IsFieldId(id) && id !in fields
    requires ObjAt(s.data, off, v, s.minalign)
    requires |s.data| + 8 < 0x1_0000_0000
    ensures var s' := AddOffset(s, id, off);
      && Extends(s', s)
      && OpenTable(s', start, fields[id := Ref(v)])
  {
    assert 0 < off <= |s.data|;
    hide Align, PushElement, ObjAt, FieldAt, OpenTable, Extends, Aligned, LowBits, Le, ReferTo, AddOffset, TrackField, IsFieldId;
    AlignExtends(s, 4);
    var s1 := Align(s, 4);
    assert IsAlignment(s.minalign) && start <= |s.data| by {
      OpenTableBounds(s, start, fields);
    }
    ObjStays(s, s1, off, v);
    var s2 := ReferencePushed(s1, off, v);
    GrowsTransitive(s, s1, s2);
    AddOffsetSteps(s, id, off);
    TrackFieldKeepsOpen(s, s2, start, fields, id, |s2.data|, Ref(v));
  }

  lemma AddOffsetSteps(s: State, id: nat, off: nat)
    requires 0 < off <= |s.data| && off <= |Align(s, 4).data|
    requires Le(ReferTo(Align(s, 4), off), 4) != Le(0, 4)
    ensures var s2 := PushElement(Align(s, 4), Le(ReferTo(Align(s, 4), off), 4));
      AddOffset(s, id, off) == TrackField(s2, id, |s2.data|)
  {
    hide Align, Le, ReferTo, PushElement;
  }

  lemma OpenTableBounds(s: State, start: nat, fields: map<nat, Field>)
    requires OpenTable(s, start, fields)
    ensures IsAlignment(s.minalign) && start <= |s.data|
  {}

  ghost predicate VTablesHold(s: State) {
    forall u :: u in s.vtables ==> VTableAt(s.data, u)
  }

  /** The vtable of the open table, as EndTable computes it. */
  function NewVTable(s: State, start: nat): (vt: seq<byte>)
    requires CanEndTable(s, start)
  {
    var table := |PushElement(s, Le(0, 4)).data|;
    VTableBytes(VTableSize(s.maxVoffset), table - start, s.fields, table)
  }

  /** The new vtable lists exactly the open table's fields. */
  lemma NewVTableMeaning(s: State, start: nat, fields: map<nat, Field>)
    requires OpenTable(s, start, fields) && CanEndTable(s, start)
    ensures var vt := NewVTable(s, start);
      && 4 <= |vt| < 0x1_0000 && |vt| % 2 == 0 && Entry(vt, 0) == |vt|
      && Entry(vt, 2) == |PushElement(s, Le(0, 4)).data| - start
      && (forall i :: 0 <= i < |s.fields| ==>
            s.fields[i].id + 2 <= |vt| && Entry(vt, s.fields[i].id) == |PushElement(s, Le(0, 4)).data| - s.fields[i].off > 0)
      && (forall id: nat | IsFieldId(id) && id + 2 <= |vt| && id !in fields :: Entry(vt, id) == 0)
  {
    hide PushElement, FieldAt, Extends, Le, UnLe, LowBits;
    PushElementExtends(s, Le(0, 4));
    var table := |PushElement(s, Le(0, 4)).data|;
    forall i | 0 <= i < |s.fields|
      ensures start < s.fields[i].off <= |s.data| && s.fields[i].id + 2 <= VTableSize(s.maxVoffset)
    {
      assert Tracked(s, start, fields, s.fields[i]);
    }
    VTableMeaning(VTableSize(s.maxVoffset), table - start, s.fields, table);
  }

  /** Patching the four bytes at table changes nothing that lies wholly before or after them. */
  lemma PatchLeavesRest(data: seq<byte>, table: nat, use: nat, off: nat, bytes: seq<byte>)
    requires 4 <= table <= |data| && At(data, off, bytes)
    requires off <= table - 4 || table + |bytes| <= off
    ensures At(PatchVTableOffset(data, table, use), off, bytes)
  {
    var r := PatchVTableOffset(data, table, use);
    var b := Le((use - table) % 0x1_0000_0000, 4);
    var i := |data| - table;
    assert forall k :: 0 <= k < |data| && !(i <= k < i + 4) ==> r[k] == data[k];
    forall k | 0 <= k < |bytes|
      ensures DataAt(r, off, |bytes|)[k] == DataAt(data, off, |bytes|)[k]
    {
      assert r[|r| - off + k] == data[|data| - off + k];
    }
  }

  /** After the patch, the table leads to its vtable. */
  lemma PatchLeadsToVTable(data: seq<byte>, table: nat, use: nat)
    requires 4 <= table <= |data| && table < 0x8000_0000 && use < table + 0x1_0000
    ensures VTableOf(PatchVTableOffset(data, table, use), table) == use
  {
    var distance := (use - table) % 0x1_0000_0000;
    var r := PatchVTableOffset(data, table, use);
    assert DataAt(r, table, 4) == Le(distance, 4);
    Pow256Values();
    LeRoundTrip(distance, 4);
    assert distance == if use >= table then use - table else use - table + 0x1_0000_0000;
  }

  lemma TailOfData(data: seq<byte>, tail: seq<byte>)
    ensures At(data, |tail|, tail) <==> |tail| <= |data| && data[|data| - |tail|..] == tail
  {
    if |tail| <= |data| {
      assert DataAt(data, |tail|, |tail|) == data[|data| - |tail|..];
    }
  }

  /** What EndTable has when it comes to choosing a vtable: the pushed soffset, and a place where the vtable stands. */
  ghost predicate VTableChosen(s: State, data: seq<byte>, table: nat, use: nat, vt: seq<byte>) {
    && |s.data| + 4 <= table <= |data| && table < 0x8000_0000
    && At(data, |s.data|, s.data)
    && At(data, use, vt)
    && Aligned(use, 2) && Aligned(table, 4)
    && (use <= |s.data| || table + |vt| <= use < table + 0x1_0000)
  }

  /** With the vtable offset patched in, the table is the object its fields make up. */
  lemma TableBecomesObject(s: State, start: nat, fields: map<nat, Field>, data: seq<byte>, table: nat, use: nat, vt: seq<byte>, align: nat)
    requires OpenTable(s, start, fields) && s.minalign <= align && 4 <= align
    requires VTableChosen(s, data, table, use, vt)
    requires 4 <= |vt| && |vt| % 2 == 0 && Entry(vt, 0) == |vt|
    requires forall i :: 0 <= i < |s.fields| ==>
      s.fields[i].id + 2 <= |vt| && Entry(vt, s.fields[i].id) == table - s.fields[i].off
    requires forall id: nat | IsFieldId(id) && id + 2 <= |vt| && id !in fields :: Entry(vt, id) == 0
    ensures var r := PatchVTableOffset(data, table, use);
      ObjAt(r, table, VTable(fields), align) && At(r, |s.data|, s.data) && VTableAt(r, use)
  {
    hide FieldAt, Aligned, Le, UnLe, PatchVTableOffset, OpenTable, ObjAt, VTableAt, SlotAt, Entry, VTableOf;
    var r := PatchVTableOffset(data, table, use);
    PatchLeavesRest(data, table, use, |s.data|, s.data);
    PatchLeavesRest(data, table, use, use, vt);
    PatchLeadsToVTable(data, table, use);
    VTableFromBytes(r, use, vt);
    TailOfData(r, s.data);
    forall id | id in fields
      ensures IsFieldId(id) && id + 2 <= |vt| && 0 < Entry(vt, id) < table
      ensures FieldAt(r, table - Entry(vt, id), fields[id], align)
    {
      FieldStands(s, start, fields, r, table, vt, align, id);
    }
    forall id: nat | IsFieldId(id) && id !in fields
      ensures SlotAt(r, use, id) == 0
    {
      if id < |vt| {
        assert id + 2 <= |vt|;
      }
    }
    hide At;
    TableObject(r, table, use, fields, align);
  }

  /** The entry of a field's id leads to the field, in any data that the open table's data is the tail of. */
  lemma FieldStands(s: State, start: nat, fields: map<nat, Field>, data: seq<byte>, table: nat, vt: seq<byte>, align: nat, id: nat)
    requires OpenTable(s, start, fields) && s.minalign <= align && id in fields
    requires |s.data| <= |data| && data[|data| - |s.data|..] == s.data && |s.data| < table
    requires forall i :: 0 <= i < |s.fields| ==>
      s.fields[i].id + 2 <= |vt| && Entry(vt, s.fields[i].id) == table - s.fields[i].off
    ensures IsFieldId(id) && id + 2 <= |vt| && 0 < Entry(vt, id) < table
    ensures FieldAt(data, table - Entry(vt, id), fields[id], align)
  {
    hide FieldAt, Ids, Entry;
    IdsAreIds(s.fields);
    var i :| 0 <= i < |s.fields| && s.fields[i].id == id;
    assert Tracked(s, start, fields, s.fields[i]);
    var front := data[..|data| - |s.data|];
    assert data == front + s.data;
    FieldGrows(front, s.data, s.fields[i].off, fields[id], s.minalign, align);
  }

  lemma TableObject(data: seq<byte>, table: nat, use: nat, fields: map<nat, Field>, align: nat)
    requires 4 <= align && 4 <= table <= |data| && Aligned(table, 4)
    requires VTableOf(data, table) == use && VTableAt(data, use)
    requires forall id :: id in fields ==> IsFieldId(id) && 0 < SlotAt(data, use, id) < table
    requires forall id :: id in fields ==> FieldAt(data, table - SlotAt(data, use, id), fields[id], align)
    requires forall id: nat :: IsFieldId(id) && id !in fields ==> SlotAt(data, use, id) == 0
    ensures ObjAt(data, table, VTable(fields), align)
  {
    hide FieldAt, Aligned, VTableAt, SlotAt, VTableOf;
  }

  /** Whether the vtable is a new one or one found in scratch, it stands where EndTable points the table to. */
  lemma EndTableChoosesVTable(s: State, start: nat, fields: map<nat, Field>) returns (data: seq<byte>, use: nat)
    requires OpenTable(s, start, fields) && CanEndTable(s, start) && VTablesHold(s)
    requires |PushElement(s, Le(0, 4)).data| < MAX_BUFFER_SIZE
    ensures var vt := NewVTable(s, start); var s1 := PushElement(s, Le(0, 4)); var r := EndTable(s, start);
      && VTableChosen(s, data, |s1.data|, use, vt)
      && 8 <= |data| <= |s1.data| + VTableSize(s.maxVoffset)
      && r.1 == |s1.data|
      && r.0.data == PatchVTableOffset(data, r.1, use)
      && (r.0.vtables == s.vtables || r.0.vtables == s.vtables + [use])
      && r.0 == s1.(data := r.0.data, vtables := r.0.vtables, fields := [], maxVoffset := 0, nested := false)
  {
    hide PushElement, OpenTable, VTableBytes, PatchVTableOffset, Le, Aligned, At, VTableChosen, Extends, VTableAt;
    PushElementExtends(s, Le(0, 4));
    NewVTableMeaning(s, start, fields);
    var vt := NewVTable(s, start);
    var s1 := PushElement(s, Le(0, 4));
    var existing := if s.dedupVtables then FindVTable(vt + s1.data, s.vtables, vt) else None;
    if existing.Some? {
      data, use := s1.data, existing.value;
      assert |s.data| >= 4 by {
        VTableInside(s.data, use);
      }
      ExistingVTableChosen(s, s1, vt, use);
    } else {
      data, use := vt + s1.data, |s1.data| + |vt|;
      NewVTableChosen(s, s1, vt);
    }
  }

  lemma VTableInside(data: seq<byte>, vt: int)
    requires VTableAt(data, vt)
    ensures 4 <= vt <= |data|
  {}

  lemma ExistingVTableChosen(s: State, s1: State, vt: seq<byte>, use: nat)
    requires Extends(s1, s) && |s.data| + 4 <= |s1.data| < 0x8000_0000 && Aligned(|s1.data|, 4)
    requires VTableAt(s.data, use) && At(vt + s1.data, use, vt)
    ensures VTableChosen(s, s1.data, |s1.data|, use, vt)
  {
    hide Aligned;
    TailOfData(s1.data, s.data);
    DataAtGrows(vt, s1.data, use, |vt|);
  }

  lemma NewVTableChosen(s: State, s1: State, vt: seq<byte>)
    requires Extends(s1, s) && |s.data| + 4 <= |s1.data| < 0x8000_0000 && Aligned(|s1.data|, 4)
    requires |vt| % 2 == 0 && |vt| < 0x1_0000
    ensures VTableChosen(s, vt + s1.data, |s1.data|, |s1.data| + |vt|, vt)
  {
    hide Aligned;
    TailOfData(s1.data, s.data);
    DataAtGrows(vt, s1.data, |s.data|, |s.data|);
    VTableIsAligned(|s1.data|, |vt|);
  }

  lemma VTableIsAligned(table: nat, size: nat)
    requires Aligned(table, 4) && size % 2 == 0
    ensures Aligned(table + size, 2)
  {
    AlignedWeaken(table, 4, 2);
    AlignedDifference(table, size, 2);
  }

  /**
   * EndTable makes the stored fields into a table object, with or without sharing of vtables, and
   * leaves every object written before as it was.
   */
  lemma EndTableBuilds(s: State, start: nat, fields: map<nat, Field>)
    requires OpenTable(s, start, fields) && CanEndTable(s, start) && VTablesHold(s)
    requires |PushElement(s, Le(0, 4)).data| < MAX_BUFFER_SIZE
    ensures var (s', table) := EndTable(s, start);
      && Extends(s', s) && IsAlignment(s'.minalign)
      && start < table <= |s'.data| && 8 <= |s'.data| <= |s.data| + 8 + VTableSize(s.maxVoffset)
      && ObjAt(s'.data, table, VTable(fields), s'.minalign)
      && VTablesHold(s')
      && s' == s.(data := s'.data, minalign := s'.minalign, vtables := s'.vtables, fields := [], maxVoffset := 0, nested := false)
  {
    hide PushElement, PatchVTableOffset, EndTable, FieldAt, ObjAt, Le, Aligned, VTableAt, NewVTable;
    PushElementExtends(s, Le(0, 4));
    NewVTableMeaning(s, start, fields);
    var data, use := EndTableChoosesVTable(s, start, fields);
    var vt := NewVTable(s, start);
    var (s', table) := EndTable(s, start);
    TableBecomesObject(s, start, fields, data, table, use, vt, s'.minalign);
    TailOfData(s'.data, s.data);
    var front := s'.data[..|s'.data| - |s.data|];
    assert s'.data == front + s.data;
    forall u | u in s'.vtables
      ensures VTableAt(s'.data, u)
    {
      if u in s.vtables {
        VTableGrows(front, s.data, u);
      }
    }
  }

  lemma EndTableIsLonger(s: State, start: nat)
    requires CanEndTable(s, start)
    ensures |PushElement(s, Le(0, 4)).data| <= |EndTable(s, start).0.data|
  {
    hide PushElement, Le, VTableBytes, VTableSize, FindVTable;
  }

  // ----- sharing of vtables

  function VTableContents(data: seq<byte>, vt: nat): seq<byte>
    requires VTableAt(data, vt)
  {
    DataAt(data, vt, UnLe(DataAt(data, vt, 2)))
  }

  /** No two of the vtables remembered in scratch are the same. */
  ghost predicate VTablesDistinct(s: State)
    requires VTablesHold(s)
  {
    forall i, j :: 0 <= i < j < |s.vtables| ==>
      VTableContents(s.data, s.vtables[i]) != VTableContents(s.data, s.vtables[j])
  }

  lemma VTableContentsStay(s: State, s': State, vt: nat)
    requires Extends(s', s) && VTableAt(s.data, vt)
    ensures VTableAt(s'.data, vt) && VTableContents(s'.data, vt) == VTableContents(s.data, vt)
  {
    hide Aligned;
    var front := s'.data[..|s'.data| - |s.data|];
    assert s'.data == front + s.data;
    DataAtGrows(front, s.data, vt, 2);
    DataAtGrows(front, s.data, vt, UnLe(DataAt(s.data, vt, 2)));
  }

  /** While vtables are shared, EndTable remembers a vtable only when it differs from all before it. */
  lemma EndTableKeepsDistinct(s: State, start: nat, fields: map<nat, Field>)
    requires OpenTable(s, start, fields) && CanEndTable(s, start) && VTablesHold(s) && VTablesDistinct(s)
    requires |PushElement(s, Le(0, 4)).data| < MAX_BUFFER_SIZE
    requires s.dedupVtables
    ensures VTablesHold(EndTable(s, start).0) && VTablesDistinct(EndTable(s, start).0)
  {
    hide PushElement, EndTable, FieldAt, ObjAt, Le, Aligned, VTableAt, NewVTable, Extends, OpenTable, VTableContents, CanEndTable;
    var s' := EndTable(s, start).0;
    EndTableBuilds(s, start, fields);
    forall u | u in s.vtables
      ensures VTableAt(s'.data, u) && VTableContents(s'.data, u) == VTableContents(s.data, u)
    {
      VTableContentsStay(s, s', u);
    }
    if s'.vtables == s.vtables {
      assert forall i :: 0 <= i < |s.vtables| ==> s.vtables[i] in s.vtables;
    } else {
      NewVTableDiffers(s, start, fields);
      assert forall i :: 0 <= i < |s.vtables| ==> s'.vtables[i] == s.vtables[i] && s.vtables[i] in s.vtables;
    }
  }

  lemma NewVTableDiffers(s: State, start: nat, fields: map<nat, Field>)
    requires OpenTable(s, start, fields) && CanEndTable(s, start) && VTablesHold(s) && s.dedupVtables
    requires |PushElement(s, Le(0, 4)).data| < MAX_BUFFER_SIZE
    requires EndTable(s, start).0.vtables != s.vtables
    ensures var s' := EndTable(s, start).0;
      && |s'.vtables| == |s.vtables| + 1 && s'.vtables[..|s.vtables|] == s.vtables
      && var u := s'.vtables[|s.vtables|];
      && VTableAt(s'.data, u) && VTableContents(s'.data, u) == NewVTable(s, start)
    ensures forall u :: u in s.vtables ==> VTableContents(s.data, u) != NewVTable(s, start)
  {
    hide EndTable, PushElement, FieldAt, ObjAt, Le, Aligned, NewVTable, OpenTable, PatchVTableOffset, VTableChosen, VTableAt, VTableContents, At;
    PushElementExtends(s, Le(0, 4));
    NewVTableMeaning(s, start, fields);
    EndTableRemembers(s, start);
    var vt := NewVTable(s, start);
    var s1 := PushElement(s, Le(0, 4));
    var table := |s1.data|;
    var use := table + |vt|;
    var data := vt + s1.data;
    NewVTableChosen(s, s1, vt);
    assert VTableContents(EndTable(s, start).0.data, use) == vt && VTableAt(EndTable(s, start).0.data, use) by {
      NewVTableStands(s, data, table, use, vt);
    }
    forall u | u in s.vtables
      ensures VTableContents(s.data, u) != vt
    {
      if VTableContents(s.data, u) == vt {
        ContentsStandAt(s, s1, u, vt);
      }
    }
  }

  /** When EndTable remembers a vtable, the search has found none, and the new one stays in front of the data. */
  lemma EndTableRemembers(s: State, start: nat)
    requires CanEndTable(s, start) && s.dedupVtables && EndTable(s, start).0.vtables != s.vtables
    ensures var vt := NewVTable(s, start); var s1 := PushElement(s, Le(0, 4)); var (s', table) := EndTable(s, start);
      && |vt| == VTableSize(s.maxVoffset)
      && table == |s1.data| && s'.vtables == s.vtables + [table + |vt|]
      && s'.data == PatchVTableOffset(vt + s1.data, table, table + |vt|)
      && forall u :: u in s.vtables ==> !At(vt + s1.data, u, vt)
  {
    assert |NewVTable(s, start)| == VTableSize(s.maxVoffset);
    hide PushElement, Le, VTableBytes, PatchVTableOffset, VTableSize, At;
  }

  lemma NewVTableStands(s: State, data: seq<byte>, table: nat, use: nat, vt: seq<byte>)
    requires VTableChosen(s, data, table, use, vt) && use == table + |vt|
    requires 4 <= |vt| && |vt| % 2 == 0 && Entry(vt, 0) == |vt|
    ensures var r := PatchVTableOffset(data, table, use); VTableAt(r, use) && VTableContents(r, use) == vt
  {
    hide PatchVTableOffset, Aligned;
    PatchLeavesRest(data, table, use, use, vt);
    var r := PatchVTableOffset(data, table, use);
    VTableFromBytes(r, use, vt);
    DataAtSlice(r, use, |vt|, 0, 2);
  }

  lemma ContentsStandAt(s: State, s1: State, u: nat, vt: seq<byte>)
    requires Extends(s1, s) && VTableAt(s.data, u) && VTableContents(s.data, u) == vt
    ensures At(vt + s1.data, u, vt)
  {
    hide Aligned;
    var front := s1.data[..|s1.data| - |s.data|];
    assert s1.data == front + s.data;
    DataAtGrows(front, s.data, u, |vt|);
    DataAtGrows(vt, s1.data, u, |vt|);
  }

  // ----- strings

  lemma PreAlignExtends(s: State, len: nat, alignment: nat)
    requires IsAlignment(alignment) && len > 0
    ensures var s' := PreAlign(s, len, alignment);
      Grows(s', s) && s'.minalign >= alignment && Aligned(|s'.data| + len, alignment)
      && |s.data| <= |s'.data| < |s.data| + alignment
  {
    hide PreAlign, Push, PaddingBytes, Aligned, Grows, LowBits, TrackMinAlign;
    var padding := PaddingBytes(|s.data| + len, alignment);
    PreAlignIs(s, len, alignment);
    PaddedGrows(s, alignment, padding);
    assert |s.data| + len + padding == |PreAlign(s, len, alignment).data| + len;
  }

  lemma PreAlignIs(s: State, len: nat, alignment: nat)
    requires IsAlignment(alignment) && len > 0
    ensures PreAlign(s, len, alignment) == Push(TrackMinAlign(s, alignment), Zeros(PaddingBytes(|s.data| + len, alignment)))
  {
    hide Push, TrackMinAlign, PaddingBytes, Zeros;
  }

  /** CreateString leaves, at the offset it returns, a string of exactly the given characters. */
  lemma CreateStringBuilds(s: State, chars: seq<byte>)
    requires IsAlignment(s.minalign) && |chars| < 0x1_0000_0000
    ensures var s' := CreateString(s, chars);
      && Grows(s', s)
      && ObjAt(s'.data, |s'.data|, VString(chars), s'.minalign)
      && |s.data| < |s'.data| <= |s.data| + |chars| + 8
  {
    hide PreAlign, PushElement, Aligned, ObjAt, Le, Grows;
    PreAlignExtends(s, |chars| + 1, 4);
    var s1 := PreAlign(s, |chars| + 1, 4);
    assert IsAlignment(s1.minalign) by {
      GrowsAlignment(s1, s);
    }
    CharactersPushed(s1, chars);
    GrowsTransitive(s, s1, CreateString(s, chars));
  }

  lemma GrowsAlignment(s': State, s: State)
    requires Grows(s', s) && IsAlignment(s.minalign)
    ensures IsAlignment(s'.minalign)
  {}

  lemma CharactersPushed(s: State, chars: seq<byte>)
    requires Aligned(|s.data| + (|chars| + 1), 4) && |chars| < 0x1_0000_0000
    ensures var s' := PushElement(Push(Push(s, Zeros(1)), chars), Le(|chars|, 4));
      && Grows(s', s)
      && ObjAt(s'.data, |s'.data|, VString(chars), s'.minalign)
      && |s'.data| == |s.data| + |chars| + 5
  {
    hide PushElement, Aligned, ObjAt, Le, Grows;
    var s2 := Push(s, Zeros(1));
    var s3 := Push(s2, chars);
    var s' := PushElement(s3, Le(|chars|, 4));
    PushExtends(s, Zeros(1));
    PushExtends(s2, chars);
    assert |s3.data| == |s.data| + (|chars| + 1);
    PushElementExtends(s3, Le(|chars|, 4));
    GrowsTransitive(s, s2, s3);
    GrowsTransitive(s, s3, s');
    ExtendsByHead(s', s3, Le(|chars|, 4));
    StringLayout(Le(|chars|, 4), chars, Zeros(1), s.data);
    StringWritten(s'.data, chars, s.data, s'.minalign);
  }

  lemma ExtendsByHead(s': State, s: State, head: seq<byte>)
    requires Grows(s', s) && |s'.data| == |s.data| + |head| && At(s'.data, |s'.data|, head)
    ensures s'.data == head + s.data
  {}

  lemma StringLayout(size: seq<byte>, chars: seq<byte>, terminator: seq<byte>, rest: seq<byte>)
    ensures size + (chars + (terminator + rest)) == (size + chars + terminator) + rest
  {}

  lemma StringWritten(data: seq<byte>, chars: seq<byte>, rest: seq<byte>, align: nat)
    requires data == (Le(|chars|, 4) + chars + Zeros(1)) + rest
    requires |chars| < 0x1_0000_0000 && 4 <= align && Aligned(|data|, 4)
    ensures ObjAt(data, |data|, VString(chars), align)
  {
    hide Aligned, Le;
    Pow256Values();
    assert Zeros(1) == [0];
  }

  /** The pool remembers strings of the buffer, and no two of them are equal. */
  ghost predicate PoolHolds(s: State) {
    && (forall p :: p in s.pool ==> StringAt(s.data, p) && ObjAt(s.data, p, VString(StringBytes(s.data, p)), s.minalign))
    && (forall i, j :: 0 <= i < j < |s.pool| ==> StringBytes(s.data, s.pool[i]) != StringBytes(s.data, s.pool[j]))
  }

  ghost predicate Pooled(s: State, chars: seq<byte>) {
    exists p :: p in s.pool && StringAt(s.data, p) && StringBytes(s.data, p) == chars
  }

  lemma StringStays(s: State, s': State, p: nat)
    requires Extends(s', s) && StringAt(s.data, p)
    ensures StringAt(s'.data, p) && StringBytes(s'.data, p) == StringBytes(s.data, p)
  {
    var front := s'.data[..|s'.data| - |s.data|];
    assert s'.data == front + s.data;
    DataAtGrows(front, s.data, p, 4);
    DataAtGrows(front, s.data, p - 4, UnLe(DataAt(s.data, p, 4)));
  }

  lemma StringObject(data: seq<byte>, off: nat, chars: seq<byte>, align: nat)
    requires ObjAt(data, off, VString(chars), align)
    ensures StringAt(data, off) && StringBytes(data, off) == chars
  {
    hide Aligned, Le, UnLe;
    var all := Le(|chars|, 4) + chars + [0];
    LeRoundTrip(|chars|, 4);
    DataAtSlice(data, off, |all|, 0, 4);
    DataAtSlice(data, off, |all|, 4, |chars|);
    assert all[0..4] == Le(|chars|, 4) && all[4..4 + |chars|] == chars;
  }

  lemma PoolStays(s: State, s': State)
    requires PoolHolds(s) && Extends(s', s) && s'.pool == s.pool
    ensures PoolHolds(s')
    ensures forall p :: p in s.pool ==> StringBytes(s'.data, p) == StringBytes(s.data, p)
  {
    hide Extends, ObjAt, StringAt, StringBytes;
    forall p | p in s.pool
      ensures StringAt(s'.data, p) && ObjAt(s'.data, p, VString(StringBytes(s'.data, p)), s'.minalign)
      ensures StringBytes(s'.data, p) == StringBytes(s.data, p)
    {
      StringStays(s, s', p);
      ObjStays(s, s', p, VString(StringBytes(s.data, p)));
    }
  }

  /**
   * CreateSharedString returns the offset of a string of exactly the given characters, like CreateString.
   * A string the pool already has leaves the bytes of the buffer as they were.
   */
  lemma CreateSharedStringBuilds(s: State, chars: seq<byte>)
    requires IsAlignment(s.minalign) && |chars| < 0x1_0000_0000 && PoolHolds(s)
    ensures var (s', off) := CreateSharedString(s, chars);
      && Extends(s', s) && IsAlignment(s'.minalign)
      && ObjAt(s'.data, off, VString(chars), s'.minalign)
      && PoolHolds(s')
      && |s'.data| <= |s.data| + |chars| + 8
      && s' == s.(data := s'.data, minalign := s'.minalign, pool := s'.pool)
      && (if Pooled(s, chars) then s'.data == s.data && off in s.pool && s'.pool == s.pool
          else s'.data == CreateString(s, chars).data && s'.pool == s.pool + [off])
  {
    hide ObjAt, StringAt, StringBytes, CreateString, Extends;
    CreateStringBuilds(s, chars);
    var s1 := CreateString(s, chars);
    assert s.minalign <= s1.minalign by {
      ExtendsAlignment(s1, s);
    }
    PoolStays(s, s1);
    var (s', off) := CreateSharedString(s, chars);
    match FindString(s1.data, s.pool, chars)
    case Some(p) =>
      SameDataExtends(s, s');
      ObjStays(s, s', p, VString(chars));
      PoolStays(s, s');
    case None =>
      SameDataExtends(s1, s');
      ExtendsTransitive(s, s1, s');
      PooledNext(s, s1, s', chars);
  }

  lemma ExtendsAlignment(s': State, s: State)
    requires Extends(s', s)
    ensures s.minalign <= s'.minalign
  {}

  lemma PooledNext(s: State, s1: State, s': State, chars: seq<byte>)
    requires PoolHolds(s1) && s1.pool == s.pool && s' == s1.(pool := s.pool + [|s1.data|])
    requires forall p :: p in s.pool ==> StringBytes(s1.data, p) != chars
    requires ObjAt(s1.data, |s1.data|, VString(chars), s1.minalign)
    ensures PoolHolds(s')
  {
    hide ObjAt, StringAt, StringBytes;
    StringObject(s1.data, |s1.data|, chars, s1.minalign);
    assert forall i :: 0 <= i < |s.pool| ==> s'.pool[i] == s.pool[i] && s.pool[i] in s.pool;
  }

  lemma ExtendsSplits(s: State, s': State)
    requires Extends(s', s)
    ensures |s.data| <= |s'.data| && s'.data == s'.data[..|s'.data| - |s.data|] + s.data
  {
    var n := |s'.data| - |s.data|;
    assert s'.data == s'.data[..n] + s'.data[n..];
  }

  lemma SameDataExtends(s: State, s': State)
    requires s'.data == s.data && s.minalign <= s'.minalign
    ensures Extends(s', s)
  {}

  // ----- Finish

  /** Where the room for an aligned header ends, a four-byte scalar needs no padding. */
  lemma HeaderIsAligned(size: nat, room: nat, align: nat)
    requires IsAlignment(align) && 4 <= align && room % 4 == 0 && Aligned(size + room, align)
    ensures Aligned(size, 4)
  {
    AlignedWeaken(size + room, align, 4);
    AlignedDifference(size + room, room, 4);
  }

  /** A four-byte scalar pushed at an aligned place is the first scalar of the data, and nothing else changes. */
  lemma HeaderPushed(s: State, value: nat)
    requires Aligned(|s.data|, 4) && IsAlignment(s.minalign) && 4 <= s.minalign && value < 0x1_0000_0000
    ensures var s' := PushElement(s, Le(value, 4));
      && s' == s.(data := Le(value, 4) + s.data) && Align(s, 4) == s
      && ReadUnsigned(s'.data, 0, 4) == Got(value)
  {
    hide Aligned, Le, Grows, UnLe;
    AlignDoesNothing(s);
    Pow256Values();
    LeRoundTrip(value, 4);
    var s' := PushElement(s, Le(value, 4));
    assert s'.data[0..4] == Le(value, 4);
  }

  lemma AlignDoesNothing(s: State)
    requires Aligned(|s.data|, 4) && 4 <= s.minalign
    ensures Align(s, 4) == s
  {
    AlreadyAligned(|s.data|, 4);
    assert Zeros(0) + s.data == s.data;
  }

  lemma BeforeHeaderExtends(s: State, prefixSize: nat, identifier: seq<byte>)
    requires IsAlignment(s.minalign) && 4 <= s.minalign && prefixSize <= 4 && |identifier| <= 4
    ensures var s' := BeforeHeader(s, prefixSize, identifier);
      && Extends(s', s) && s'.minalign == s.minalign
      && Aligned(|s'.data| + (prefixSize + 4), s.minalign)
      && |s'.data| < |s.data| + 12
      && s' == s.(data := s'.data, vtables := [])
  {
    hide BeforeHeader, Aligned, PreAlign, Grows, Push, LowBits, Extends;
    BeforeHeaderIs(s, prefixSize, identifier);
    var room := prefixSize + 4 + |identifier|;
    var s1 := s.(vtables := []);
    PreAlignExtends(s1, room, s.minalign);
    PreAlignKeepsAlignment(s1, room);
    var s2 := PreAlign(s1, room, s.minalign);
    PushExtends(s2, identifier);
    PushedLength(s2, identifier);
    var s' := Push(s2, identifier);
    assert |s2.data| + room == |s'.data| + (prefixSize + 4);
    GrowsTransitive(s1, s2, s');
    GrowsFromCleared(s, s');
  }

  lemma BeforeHeaderIs(s: State, prefixSize: nat, identifier: seq<byte>)
    requires IsAlignment(s.minalign) && 4 <= s.minalign && prefixSize <= 4
    ensures Max(s.minalign, prefixSize) == s.minalign <= 8
    ensures BeforeHeader(s, prefixSize, identifier) ==
      Push(PreAlign(s.(vtables := []), prefixSize + 4 + |identifier|, s.minalign), identifier)
  {
    assert TrackMinAlign(s.(vtables := []), prefixSize) == s.(vtables := []);
    hide PreAlign, Push;
  }

  lemma PushedLength(s: State, bytes: seq<byte>)
    ensures |Push(s, bytes).data| == |s.data| + |bytes| && Push(s, bytes).minalign == s.minalign
  {}

  lemma GrowsFromCleared(s: State, s': State)
    requires Grows(s', s.(vtables := []))
    ensures Extends(s', s) && s' == s.(data := s'.data, minalign := s'.minalign, vtables := [])
  {}

  lemma PreAlignKeepsAlignment(s: State, len: nat)
    requires IsAlignment(s.minalign)
    ensures PreAlign(s, len, s.minalign).minalign == s.minalign
  {}

  /** The root offset, and the size prefix when there is one, on top of an aligned body. */
  lemma HeaderBuilds(s: State, root: nat, sizePrefix: bool)
    requires IsAlignment(s.minalign) && 4 <= s.minalign && 0 < root <= |s.data| && |s.data| + 8 < 0x1_0000_0000
    requires Aligned(|s.data| + (if sizePrefix then 8 else 4), s.minalign)
    ensures var s3 := PushElement(Align(s, 4), Le(ReferTo(Align(s, 4), root), 4));
      var buf := if sizePrefix then PushElement(s3, Le(|s3.data|, 4)).data else s3.data;
      && Align(s, 4) == s && s3.minalign == s.minalign
      && buf[|buf| - |s.data|..] == s.data
      && (if sizePrefix
          then && PushElement(s3, Le(|s3.data|, 4)) == s3.(data := buf) && |buf| == |s.data| + 8
               && ReadUnsigned(buf, 0, 4) == Got(|buf| - 4) && GetSizePrefixedRoot(buf) == Got(|buf| - root)
          else GetRoot(buf) == Got(|buf| - root) && |buf| == |s.data| + 4)
  {
    hide Aligned, Align, PushElement, Le, UnLe;
    HeaderIsAligned(|s.data|, if sizePrefix then 8 else 4, s.minalign);
    HeaderPushed(s, ReferTo(s, root));
    var s3 := PushElement(s, Le(ReferTo(s, root), 4));
    if sizePrefix {
      HeaderIsAligned(|s3.data|, 4, s.minalign);
      HeaderPushed(s3, |s3.data|);
      var buf := PushElement(s3, Le(|s3.data|, 4)).data;
      assert buf[4..8] == s3.data[0..4];
    }
  }

  lemma FinishExtends(s: State, root: nat, identifier: Option<seq<byte>>, sizePrefix: bool)
    requires IsAlignment(s.minalign) && 4 <= s.minalign && 0 < root <= |s.data|
    requires identifier.Some? ==> |identifier.value| == 4
    requires |s.data| < MAX_BUFFER_SIZE
    ensures Extends(Finish(s, root, identifier, sizePrefix), s)
  {
    hide Aligned, PushElement, BeforeHeader, Le, Align, ReferTo, GetSizePrefixedRoot, GetRoot, ReadUnsigned;
    var prefixSize := if sizePrefix then 4 else 0;
    var id := if identifier.Some? then identifier.value else [];
    var s1 := BeforeHeader(s, prefixSize, id);
    BeforeHeaderExtends(s, prefixSize, id);
    HeaderBuilds(s1, root, sizePrefix);
    var s' := Finish(s, root, identifier, sizePrefix);
    assert Extends(s', s1);
    ExtendsTransitive(s, s1, s');
  }

  lemma FinishHeader(s: State, root: nat, identifier: Option<seq<byte>>, sizePrefix: bool)
    requires IsAlignment(s.minalign) && 4 <= s.minalign && 0 < root <= |s.data|
    requires identifier.Some? ==> |identifier.value| == 4
    requires |s.data| < MAX_BUFFER_SIZE
    ensures var s' := Finish(s, root, identifier, sizePrefix); var buf := s'.data;
      && s'.minalign == s.minalign && s'.finished
      && |s.data| + (if sizePrefix then 8 else 4) <= |buf| <= |s.data| + 24
      && (if sizePrefix
          then ReadUnsigned(buf, 0, 4) == Got(|buf| - 4) && GetSizePrefixedRoot(buf) == Got(|buf| - root)
          else GetRoot(buf) == Got(|buf| - root))
  {
    hide Aligned, PushElement, BeforeHeader, Le, Align, ReferTo, GetSizePrefixedRoot, GetRoot, ReadUnsigned;
    var prefixSize := if sizePrefix then 4 else 0;
    var id := if identifier.Some? then identifier.value else [];
    var s1 := BeforeHeader(s, prefixSize, id);
    BeforeHeaderExtends(s, prefixSize, id);
    HeaderBuilds(s1, root, sizePrefix);
  }

  /** The root offset, and the size prefix when there is one, are pushed last. */
  lemma FinishIsLonger(s: State, root: nat, identifier: Option<seq<byte>>, sizePrefix: bool)
    requires IsAlignment(s.minalign) && 0 < root <= |s.data|
    ensures |s.data| + 4 <= |Finish(s, root, identifier, sizePrefix).data|
  {
    hide PaddingBytes, Le, Zeros;
  }

  lemma FinishAligns(s: State, root: nat, identifier: Option<seq<byte>>, sizePrefix: bool)
    requires IsAlignment(s.minalign) && 4 <= s.minalign && 0 < root <= |s.data|
    requires identifier.Some? ==> |identifier.value| == 4
    requires |s.data| < MAX_BUFFER_SIZE
    ensures Aligned(|Finish(s, root, identifier, sizePrefix).data|, s.minalign)
  {
    hide Aligned, PushElement, BeforeHeader, Le, Align, ReferTo, GetSizePrefixedRoot, GetRoot, ReadUnsigned;
    var prefixSize := if sizePrefix then 4 else 0;
    var id := if identifier.Some? then identifier.value else [];
    var s1 := BeforeHeader(s, prefixSize, id);
    BeforeHeaderExtends(s, prefixSize, id);
    HeaderBuilds(s1, root, sizePrefix);
    if sizePrefix {
    } else {
    }
  }

  /**
   * Finish makes the whole buffer a multiple of the largest alignment in it, puts the distance to the
   * root first, and with a size prefix puts before that the number of bytes that follow the prefix.
   */
  lemma FinishBuilds(s: State, root: nat, v: Value, identifier: Option<seq<byte>>, sizePrefix: bool)
    requires ObjAt(s.data, root, v, s.minalign) && IsAlignment(s.minalign)
    requires identifier.Some? ==> |identifier.value| == 4
    requires |s.data| < MAX_BUFFER_SIZE
    ensures var s' := Finish(s, root, identifier, sizePrefix); var buf := s'.data;
      && Extends(s', s) && s'.minalign == s.minalign && s'.finished
      && |s.data| + (if sizePrefix then 8 else 4) <= |buf| <= |s.data| + 24
      && Aligned(|buf|, s.minalign)
      && ObjAt(buf, root, v, s.minalign)
      && (if sizePrefix
          then ReadUnsigned(buf, 0, 4) == Got(|buf| - 4) && GetSizePrefixedRoot(buf) == Got(|buf| - root)
          else GetRoot(buf) == Got(|buf| - root))
  {
    assert 4 <= root <= |s.data| && 4 <= s.minalign;
    hide ObjAt, Aligned, Finish, GetSizePrefixedRoot, GetRoot, ReadUnsigned, Extends;
    FinishExtends(s, root, identifier, sizePrefix);
    FinishHeader(s, root, identifier, sizePrefix);
    FinishAligns(s, root, identifier, sizePrefix);
    ObjStays(s, Finish(s, root, identifier, sizePrefix), root, v);
  }
}
