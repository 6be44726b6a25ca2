/**
 * FlatBufferBuilder as the source has it: an object whose methods change a two-ended buffer in place.
 * Every method is proved to take its model where the function of the same name in FlatBuilder takes it.
 */
module BuilderClass {
  import opened Bytes
  import opened Common
  import opened FlatReader
  import opened FlatObjects
  import opened FlatBuilder
  import opened FlatBuilderProofs

  // ----- what the scratch area holds

  /** The uoffset_t of each vtable, in the order they were pushed. */
  function OffsetBytes(vtables: seq<nat>): (s: seq<byte>)
    ensures |s| == 4 * |vtables|
  {
    if vtables == [] then [] else OffsetBytes(vtables[..|vtables| - 1]) + Le(vtables[|vtables| - 1], 4)
  }

  /** A FieldLoc takes eight bytes: its offset, its id and two bytes of padding. */
  function LocBytes(fields: seq<FieldLoc>): (s: seq<byte>)
    ensures |s| == 8 * |fields|
  {
    if fields == [] then [] else LocBytes(fields[..|fields| - 1]) + OneLoc(fields[|fields| - 1])
  }

  function OneLoc(loc: FieldLoc): (s: seq<byte>)
    ensures |s| == 8
  {
    Le(loc.off, 4) + Le(loc.id, 2) + Zeros(2)
  }

  /** What a scratch entry can hold. */
  predicate EntriesFit(vtables: seq<nat>, fields: seq<FieldLoc>) {
    && (forall u :: u in vtables ==> u < 0x1_0000_0000)
    && (forall loc :: loc in fields ==> loc.off < 0x1_0000_0000 && loc.id < 0x1_0000)
  }

  lemma LocNext(vtables: seq<nat>, fields: seq<FieldLoc>, loc: FieldLoc)
    ensures OffsetBytes(vtables) + LocBytes(fields + [loc]) == OffsetBytes(vtables) + LocBytes(fields) + OneLoc(loc)
    ensures EntriesFit(vtables, fields) && loc.off < 0x1_0000_0000 && loc.id < 0x1_0000 ==> EntriesFit(vtables, fields + [loc])
  {
    hide OffsetBytes, OneLoc;
    assert (fields + [loc])[..|fields|] == fields;
  }

  lemma {:induction false} OffsetAt(vtables: seq<nat>, k: nat)
    requires k < |vtables|
    ensures OffsetBytes(vtables)[4 * k..4 * k + 4] == Le(vtables[k], 4)
  {
    hide Le;
    var n := |vtables| - 1;
    var front, last := OffsetBytes(vtables[..n]), Le(vtables[n], 4);
    assert OffsetBytes(vtables) == front + last;
    hide OffsetBytes;
    if k < n {
      OffsetAt(vtables[..n], k);
      assert (front + last)[4 * k..4 * k + 4] == front[4 * k..4 * k + 4];
    } else {
      assert (front + last)[4 * n..4 * n + 4] == last;
    }
  }

  lemma {:induction false} LocAt(fields: seq<FieldLoc>, k: nat)
    requires k < |fields|
    ensures LocBytes(fields)[8 * k..8 * k + 8] == OneLoc(fields[k])
  {
    hide OneLoc;
    var n := |fields| - 1;
    var front, last := LocBytes(fields[..n]), OneLoc(fields[n]);
    assert LocBytes(fields) == front + last;
    hide LocBytes;
    if k < n {
      LocAt(fields[..n], k);
      assert (front + last)[8 * k..8 * k + 8] == front[8 * k..8 * k + 8];
    } else {
      assert (front + last)[8 * n..8 * n + 8] == last;
    }
  }

  lemma LocParts(loc: FieldLoc)
    requires loc.off < 0x1_0000_0000 && loc.id < 0x1_0000
    ensures UnLe(OneLoc(loc)[..4]) == loc.off && UnLe(OneLoc(loc)[4..6]) == loc.id
  {
    Pow256Values();
    LeRoundTrip(loc.off, 4);
    LeRoundTrip(loc.id, 2);
    assert OneLoc(loc)[..4] == Le(loc.off, 4) && OneLoc(loc)[4..6] == Le(loc.id, 2);
  }

  /** The fields of the table under construction lie in it, and none is set twice. */
  predicate FieldsPlaced(s: State, start: nat) {
    && (forall i :: 0 <= i < |s.fields| ==> start < s.fields[i].off <= |s.data|)
    && (forall i, j :: 0 <= i < j < |s.fields| ==> s.fields[i].id != s.fields[j].id)
  }

  // ----- the search for an equal vtable

  /** Equal sizes and equal bytes are what makes a vtable at u the same as vt. */
  lemma SameVTable(data: seq<byte>, u: nat, vt: seq<byte>)
    requires VTableAt(data, u) && 2 <= |vt| < 0x1_0000 && vt[..2] == Le(|vt|, 2)
    ensures At(data, u, vt) <==> UnLe(DataAt(data, u, 2)) == |vt| && |vt| <= u && DataAt(data, u, |vt|) == vt
  {
    hide Aligned, Le, UnLe;
    Pow256Values();
    LeRoundTrip(|vt|, 2);
    if At(data, u, vt) {
      DataAtSlice(data, u, |vt|, 0, 2);
    }
  }

  lemma ElementFits(s: State, bytes: seq<byte>)
    requires IsAlignment(|bytes|)
    ensures |FlatBuilder.PushElement(s, bytes).data| == |FlatBuilder.Align(s, |bytes|).data| + |bytes|
  {}

  lemma OffsetFits(s: State, id: nat, off: nat)
    requires 0 < off <= |s.data| && |FlatBuilder.AddOffset(s, id, off).data| < MAX_BUFFER_SIZE
    ensures var s1 := FlatBuilder.Align(s, 4);
      && |s1.data| >= |s.data|
      && |s1.data| < MAX_BUFFER_SIZE && |FlatBuilder.PushElement(s1, Le(ReferTo(s1, off), 4)).data| < MAX_BUFFER_SIZE
  {
    hide FlatBuilder.PushElement, Le;
    var s1 := FlatBuilder.Align(s, 4);
    Pow256Values();
    LeRoundTrip(0, 4);
    PushedLength(s1, Le(ReferTo(s1, off), 4));
    if |s1.data| < MAX_BUFFER_SIZE {
      LeRoundTrip(ReferTo(s1, off), 4);
    }
  }

  lemma PushedLength(s: State, bytes: seq<byte>)
    requires IsAlignment(|bytes|)
    ensures |s.data| <= |FlatBuilder.PushElement(s, bytes).data|
  {}

  lemma StringRoom(s: State, chars: seq<byte>)
    ensures var s1 := FlatBuilder.PreAlign(s, |chars| + 1, 4); var s2 := FlatBuilder.Push(FlatBuilder.Push(s1, Zeros(1)), chars);
      && |s.data| <= |s1.data| <= |s.data| + 3 && |s2.data| == |s1.data| + 1 + |chars|
      && |FlatBuilder.Align(s2, 4).data| == |s2.data|
      && |FlatBuilder.CreateString(s, chars).data| == |s2.data| + 4
  {
    var s1 := FlatBuilder.PreAlign(s, |chars| + 1, 4);
    AlreadyAligned(|s1.data| + |chars| + 1, 4);
  }

  lemma StringGrows(s: State, chars: seq<byte>)
    ensures var s1 := FlatBuilder.CreateString(s, chars);
      |s.data| <= |s1.data| && s1.data[|s1.data| - |s.data|..] == s.data
  {
    hide FlatBuilder.PushElement, FlatBuilder.PreAlign;
    var s1 := FlatBuilder.PreAlign(s, |chars| + 1, 4);
    PreAlignEnds(s, |chars| + 1);
    var s2 := FlatBuilder.Push(FlatBuilder.Push(s1, Zeros(1)), chars);
    ElementEnds(s2, Le(|chars|, 4));
    EndsWithin(s2.data, chars + Zeros(1), s1.data);
    EndsTransitive(FlatBuilder.CreateString(s, chars).data, s2.data, s1.data);
    EndsTransitive(FlatBuilder.CreateString(s, chars).data, s1.data, s.data);
  }

  ghost predicate EndsWith(long: seq<byte>, short: seq<byte>) {
    |short| <= |long| && long[|long| - |short|..] == short
  }

  lemma EndsWithin(long: seq<byte>, front: seq<byte>, short: seq<byte>)
    requires long == front + short
    ensures EndsWith(long, short)
  {}

  lemma EndsTransitive(a: seq<byte>, b: seq<byte>, c: seq<byte>)
    requires EndsWith(a, b) && EndsWith(b, c)
    ensures EndsWith(a, c)
  {}

  lemma PreAlignEnds(s: State, len: nat)
    ensures EndsWith(FlatBuilder.PreAlign(s, len, 4).data, s.data)
  {}

  lemma ElementEnds(s: State, bytes: seq<byte>)
    requires IsAlignment(|bytes|)
    ensures EndsWith(FlatBuilder.PushElement(s, bytes).data, s.data)
  {
    EndsWithin(FlatBuilder.Align(s, |bytes|).data, Zeros(PaddingBytes(|s.data|, |bytes|)), s.data);
    EndsTransitive(FlatBuilder.PushElement(s, bytes).data, FlatBuilder.Align(s, |bytes|).data, s.data);
  }

  lemma PaddingRoom(s: State, len: nat)
    requires IsAlignment(s.minalign) && len > 0
    ensures |FlatBuilder.PreAlign(s, len, s.minalign).data| < |s.data| + 8
  {}

  lemma ElementRoom(s: State, bytes: seq<byte>)
    requires |bytes| == 4
    ensures |s.data| <= |FlatBuilder.Align(s, 4).data| <= |s.data| + 3
    ensures |FlatBuilder.PushElement(s, bytes).data| == |FlatBuilder.Align(s, 4).data| + 4
  {}

  lemma HeaderRoom(s: State, prefixSize: nat, id: seq<byte>)
    requires IsAlignment(s.minalign) && (prefixSize == 0 || prefixSize == 4) && |id| <= 4
    ensures |s.data| <= |BeforeHeader(s, prefixSize, id).data| <= |s.data| + 11
  {
    hide FlatBuilder.PreAlign;
    PaddingRoom(FlatBuilder.TrackMinAlign(s.(vtables := []), prefixSize), prefixSize + 4 + |id|);
    PreAlignGrows(FlatBuilder.TrackMinAlign(s.(vtables := []), prefixSize), prefixSize + 4 + |id|);
  }

  lemma HeaderSteps(s: State, prefixSize: nat, id: seq<byte>)
    requires IsAlignment(s.minalign) && (prefixSize == 0 || prefixSize == 4)
    ensures var s1 := FlatBuilder.TrackMinAlign(s.(vtables := []), prefixSize);
      |s.data| <= |FlatBuilder.PreAlign(s1, prefixSize + 4 + |id|, s1.minalign).data| <= |BeforeHeader(s, prefixSize, id).data|
  {
    hide FlatBuilder.PreAlign;
    PreAlignGrows(FlatBuilder.TrackMinAlign(s.(vtables := []), prefixSize), prefixSize + 4 + |id|);
  }

  lemma PreAlignGrows(s: State, len: nat)
    requires IsAlignment(s.minalign)
    ensures |s.data| <= |FlatBuilder.PreAlign(s, len, s.minalign).data|
  {}

  /** The sizes while a buffer is finished. */
  lemma FinishRoom(s: State, root: nat, id: seq<byte>, sizePrefix: bool)
    requires IsAlignment(s.minalign) && 0 < root <= |s.data| && |id| <= 4
    requires |FlatBuilder.Finish(s, root, if id == [] then None else Some(id), sizePrefix).data| < MAX_BUFFER_SIZE + 4
    ensures var prefixSize := if sizePrefix then 4 else 0; var s1 := BeforeHeader(s, prefixSize, id);
      var s2 := FlatBuilder.Align(s1, 4);
      && |s.data| <= |s1.data| <= |s2.data| < MAX_BUFFER_SIZE && |FlatBuilder.Align(s2, 4).data| < MAX_BUFFER_SIZE
      && var s3 := FlatBuilder.PushElement(s2, Le(ReferTo(s2, root), 4));
      && (sizePrefix ==> |s3.data| < MAX_BUFFER_SIZE && |FlatBuilder.Align(s3, 4).data| < MAX_BUFFER_SIZE)
      && FlatBuilder.Finish(s, root, if id == [] then None else Some(id), sizePrefix) ==
         (if sizePrefix then FlatBuilder.PushElement(s3, Le(|s3.data|, 4)) else s3).(finished := true)
  {
    hide BeforeHeader, FlatBuilder.Align, FlatBuilder.PushElement, Le;
    HeaderRoom(s, if sizePrefix then 4 else 0, id);
    var s1 := BeforeHeader(s, if sizePrefix then 4 else 0, id);
    ElementRoom(s1, Le(0, 4));
    var s2 := FlatBuilder.Align(s1, 4);
    ElementRoom(s2, Le(ReferTo(s2, root), 4));
    var s3 := FlatBuilder.PushElement(s2, Le(ReferTo(s2, root), 4));
    ElementRoom(s3, Le(|s3.data|, 4));
  }

  // ----- writing a vtable in place

  ghost predicate SlotsBlank(blank: seq<byte>) {
    forall id: nat | IsFieldId(id) && id + 2 <= |blank| :: Entry(blank, id) == 0
  }

  lemma NoSlots(blank: seq<byte>, fields: seq<FieldLoc>, table: nat)
    ensures FieldsFit(fields[..0], |blank|, table) && WriteSlots(blank, fields[..0], table) == blank
  {}

  lemma BlankVTable(size: nat, objectSize: nat, rest: seq<byte>, fields: seq<FieldLoc>, table: nat)
    requires 4 <= size < 0x1_0000 && objectSize < 0x1_0000 && SlotsFit(Zeros(size), fields, table)
    ensures var blank := Le(size, 2) + Le(objectSize, 2) + Zeros(size - 4);
      && Patch(Patch(Zeros(size) + rest, 2, Le(objectSize, 2)), 0, Le(size, 2)) == blank + rest
      && SlotsFit(blank, fields, table) && SlotsBlank(blank)
      && VTableBytes(size, objectSize, fields, table) == WriteSlots(blank, fields, table)
  {
    BlankEntries(size, objectSize);
  }

  lemma NoFields(vtables: seq<nat>, fields: seq<FieldLoc>)
    ensures (OffsetBytes(vtables) + LocBytes(fields))[..4 * |vtables|] == OffsetBytes(vtables) + LocBytes([])
    ensures EntriesFit(vtables, fields) ==> EntriesFit(vtables, [])
  {}

  lemma OffsetNext(vtables: seq<nat>, fields: seq<FieldLoc>, u: nat)
    requires fields == []
    ensures OffsetBytes(vtables + [u]) + LocBytes(fields) == OffsetBytes(vtables) + LocBytes(fields) + Le(u, 4)
    ensures EntriesFit(vtables, fields) && u < 0x1_0000_0000 ==> EntriesFit(vtables + [u], fields)
  {
    hide Le;
    assert (vtables + [u])[..|vtables|] == vtables;
  }

  lemma VTablePushed(s: State)
    ensures var s1 := FlatBuilder.PushElement(s, Le(0, 4));
      && |s.data| <= |FlatBuilder.Align(s, 4).data| == |s1.data| - 4
      && s1 == s.(data := s1.data, minalign := s1.minalign)
      && exists front :: s1.data == front + s.data
  {
    var front := Le(0, 4) + Zeros(PaddingBytes(|s.data|, 4));
    assert FlatBuilder.PushElement(s, Le(0, 4)).data == front + s.data;
  }

  lemma VTablesGrow(front: seq<byte>, s: State)
    requires VTablesHold(s)
    ensures forall u :: u in s.vtables ==> VTableAt(front + s.data, u) && u <= |s.data|
  {
    forall u | u in s.vtables
      ensures VTableAt(front + s.data, u)
    {
      VTableGrows(front, s.data, u);
    }
  }

  /** Every field has a slot in a vtable of this size, and the sizes fit in 16 bits. */
  predicate VTableFits(s: State, objectSize: nat, table: nat, size: nat) {
    && 4 <= size < 0x1_0000 && objectSize < 0x1_0000 && |s.data| < MAX_BUFFER_SIZE
    && FieldsFit(s.fields, size, table) && SlotsFit(Zeros(size), s.fields, table)
  }

  /** What EndTable's assertions give for the steps it takes. */
  lemma TableRoom(s: State, start: nat)
    requires EndTableOk(s, start)
    ensures var s1 := FlatBuilder.PushElement(s, Le(0, 4)); var table := |s1.data|; var size := VTableSize(s.maxVoffset);
      && start <= table < MAX_BUFFER_SIZE && VTableFits(s1, table - start, table, size) && s1.maxVoffset == s.maxVoffset
      && WithVTable(s, start) == Cleared(AfterVTable(s1, table - start, table, size))
    ensures var vt := NewVTable(s, start); 4 <= |vt| < 0x1_0000 && |vt| == VTableSize(s.maxVoffset) && vt[..2] == Le(|vt|, 2)
  {
    hide FlatBuilder.PushElement, Le, UnLe, FlatBuilder.Align, FlatBuilder.EndTable, VTableBytes, SlotsFit;
    EndTableIsLonger(s, start);
    VTablePushed(s);
    var table := |FlatBuilder.PushElement(s, Le(0, 4)).data|;
    var size := VTableSize(s.maxVoffset);
    OpenSlotsFit(s, start, table, size);
    VTableMeaning(size, table - start, s.fields, table);
    hide CanEndTable;
    var vt := NewVTable(s, start);
    UnLeRoundTrip(vt[0..2]);
  }

  /** The fields of a table that can be ended have distinct slots in a vtable of its size. */
  lemma OpenSlotsFit(s: State, start: nat, table: nat, size: nat)
    requires CanEndTable(s, start) && FieldsPlaced(s, start)
    requires |s.data| <= table < start + 0x1_0000 && size == VTableSize(s.maxVoffset)
    ensures 4 <= size < 0x1_0000 && FieldsFit(s.fields, size, table) && SlotsFit(Zeros(size), s.fields, table)
  {
    hide FlatBuilder.PushElement, Le;
  }

  lemma VTablesBelow(s: State, start: nat)
    requires EndTableOk(s, start)
    ensures var s1 := FlatBuilder.PushElement(s, Le(0, 4)); var vt := NewVTable(s, start);
      forall u :: u in s.vtables ==> VTableAt(vt + s1.data, u) && u < |s1.data|
  {
    hide FlatBuilder.PushElement, FlatBuilder.Align, VTablesHold, NewVTable, CanEndTable, VTableAt;
    VTablePushed(s);
    var s1 := FlatBuilder.PushElement(s, Le(0, 4));
    var vt := NewVTable(s, start);
    var front :| s1.data == front + s.data;
    VTablesGrow(vt + front, s);
    assert vt + s1.data == (vt + front) + s.data;
  }

  /** The state once the vtable is written and the fields are cleared. */
  function WithVTable(s: State, start: nat): State
    requires CanEndTable(s, start)
  {
    var s1 := FlatBuilder.PushElement(s, Le(0, 4));
    s1.(data := NewVTable(s, start) + s1.data, fields := [], maxVoffset := 0)
  }

  /** A vtable stands at the front of the data, behind a table and the vtables before it. */
  predicate VTableInFront(s: State, table: nat, vt: seq<byte>) {
    && s.fields == []
    && 4 <= |vt| < 0x1_0000 && vt <= s.data && vt[..2] == Le(|vt|, 2) && |s.data| == table + |vt| && table < MAX_BUFFER_SIZE
    && (|s.data| < MAX_BUFFER_SIZE || (s.dedupVtables && FindVTable(s.data, s.vtables, vt).Some?))
    && (forall u :: u in s.vtables ==> VTableAt(s.data, u) && u < table)
  }

  /** The state once it is settled which vtable is used, and that vtable. */
  function Chosen(s: State, table: nat, vt: seq<byte>): (State, nat)
    requires |vt| <= |s.data|
  {
    var existing := if s.dedupVtables then FindVTable(s.data, s.vtables, vt) else None;
    match existing
    case Some(u) => (s.(data := s.data[|vt|..]), u)
    case None => (s.(vtables := s.vtables + [table + |vt|]), table + |vt|)
  }

  /** EndTable, step by step: what each step finds, and what the last one leaves. */
  lemma EndTableSteps(s: State, start: nat)
    requires EndTableOk(s, start)
    ensures var s2 := WithVTable(s, start); var vt := NewVTable(s, start); var table := |FlatBuilder.PushElement(s, Le(0, 4)).data|;
      && VTableInFront(s2, table, vt)
      && var (s3, use) := Chosen(s2, table, vt);
      && 4 <= table <= |s3.data|
      && FlatBuilder.EndTable(s, start) == (s3.(data := PatchVTableOffset(s3.data, table, use), nested := false), table)
  {
    hide FlatBuilder.PushElement, FlatBuilder.Align, FindVTable, VTableBytes, PatchVTableOffset, VTablesHold, FieldsPlaced, VTableAt;
    TableRoom(s, start);
    VTablesBelow(s, start);
    VTablePushed(s);
    var s1 := FlatBuilder.PushElement(s, Le(0, 4));
    var vt := NewVTable(s, start);
    assert (vt + s1.data)[|vt|..] == s1.data;
  }

  lemma SlotsStart(s: State, objectSize: nat, table: nat, size: nat)
    requires VTableFits(s, objectSize, table, size)
    ensures var blank := Le(size, 2) + Le(objectSize, 2) + Zeros(size - 4); var s0 := s.(data := blank + s.data);
      && SlotsDone(s0, s0, table, blank, s.data, 0)
      && forall s' :: SlotsDone(s0, s', table, blank, s.data, |s.fields|) ==> s' == AfterVTable(s, objectSize, table, size)
  {
    hide WriteSlots;
    NoSlots(Le(size, 2) + Le(objectSize, 2) + Zeros(size - 4), s.fields, table);
    assert s.fields[..|s.fields|] == s.fields;
  }

  /** The slot of the next field is inside the vtable and still 0, and writing it takes WriteSlots one field further. */
  lemma NextSlot(blank: seq<byte>, fields: seq<FieldLoc>, table: nat, k: nat)
    requires SlotsFit(blank, fields, table) && SlotsBlank(blank) && k < |fields|
    ensures FieldsFit(fields[..k], |blank|, table) && FieldsFit(fields[..k + 1], |blank|, table)
    ensures var vt := WriteSlots(blank, fields[..k], table); var loc := fields[k];
      && loc.id + 2 <= |vt| && loc.off <= table && Entry(vt, loc.id) == 0
      && WriteSlots(blank, fields[..k + 1], table) == Patch(vt, loc.id, Le(table - loc.off, 2))
  {
    hide WriteSlots, SlotsFit, Patch, Le, UnLe, Entry, Ids;
    FirstSlotsFit(blank, fields, table, k);
    FirstSlotsFit(blank, fields, table, k + 1);
    SlotsWritten(blank, fields[..k], table);
    FreshId(blank, fields, table, k);
    LastSlot(blank, fields[..k + 1], table);
    assert fields[..k + 1][..k] == fields[..k];
  }

  lemma FirstSlotsFit(blank: seq<byte>, fields: seq<FieldLoc>, table: nat, k: nat)
    requires SlotsFit(blank, fields, table) && k <= |fields|
    ensures SlotsFit(blank, fields[..k], table) && FieldsFit(fields[..k], |blank|, table)
  {}

  lemma LastSlot(blank: seq<byte>, fields: seq<FieldLoc>, table: nat)
    requires fields != [] && FieldsFit(fields, |blank|, table)
    ensures var n := |fields| - 1; var loc := fields[n];
      && FieldsFit(fields[..n], |blank|, table) && loc.id + 2 <= |blank| && loc.off <= table
      && WriteSlots(blank, fields, table) == Patch(WriteSlots(blank, fields[..n], table), loc.id, Le(table - loc.off, 2))
  {
    hide Patch, Le;
  }

  /** The next field has an id that none of the fields before it has. */
  lemma FreshId(blank: seq<byte>, fields: seq<FieldLoc>, table: nat, k: nat)
    requires SlotsFit(blank, fields, table) && k < |fields|
    ensures IsFieldId(fields[k].id) && fields[k].id + 2 <= |blank| && fields[k].id !in Ids(fields[..k])
  {
    IdsAreIds(fields[..k]);
    hide Ids;
    if fields[k].id in Ids(fields[..k]) {
      assert false;
    }
  }

  lemma PatchFront(vt: seq<byte>, rest: seq<byte>, i: nat, b: seq<byte>)
    requires i + |b| <= |vt|
    ensures Patch(vt + rest, i, b) == Patch(vt, i, b) + rest
  {}

  lemma SlotInFront(vt: seq<byte>, rest: seq<byte>, i: nat)
    requires i + 2 <= |vt|
    ensures DataAt(vt + rest, |vt + rest| - i, 2) == vt[i..i + 2]
  {}

  lemma FrontOfData(data: seq<byte>, vt: seq<byte>)
    requires vt <= data
    ensures DataAt(data, |data|, |vt|) == vt
  {}

  lemma {:induction false} FirstMatch(data: seq<byte>, vtables: seq<nat>, vt: seq<byte>, k: nat)
    requires k <= |vtables| && forall j :: 0 <= j < k ==> !At(data, vtables[j], vt)
    requires k < |vtables| ==> At(data, vtables[k], vt)
    ensures FindVTable(data, vtables, vt) == if k < |vtables| then Some(vtables[k]) else None
    decreases k
  {
    hide At;
    if 0 < k {
      FirstMatch(data, vtables[1..], vt, k - 1);
    }
  }

  /**
   * The assertions of EndTable: a table was started, its fields lie in it and are distinct, and neither the
   * table nor the buffer is too large. Vtables are remembered only where there is one.
   */
  ghost predicate EndTableOk(s: State, start: nat) {
    && CanEndTable(s, start) && FieldsPlaced(s, start) && VTablesHold(s)
    && |FlatBuilder.EndTable(s, start).0.data| < MAX_BUFFER_SIZE
  }

  /** A vtable written in front of the data. */
  function AfterVTable(s: State, objectSize: nat, table: nat, size: nat): State
    requires VTableFits(s, objectSize, table, size)
  {
    s.(data := VTableBytes(size, objectSize, s.fields, table) + s.data)
  }

  function Cleared(s: State): State {
    s.(fields := [], maxVoffset := 0)
  }

  /** The first k of the tracked fields have been written into the vtable in front. */
  ghost predicate SlotsDone(s0: State, s: State, table: nat, blank: seq<byte>, rest: seq<byte>, k: nat) {
    && k <= |s0.fields| && FieldsFit(s0.fields[..k], |blank|, table)
    && s == s0.(data := WriteSlots(blank, s0.fields[..k], table) + rest)
  }

  lemma ChosenIs(s: State, table: nat, vt: seq<byte>, existing: Option<nat>)
    requires |vt| <= |s.data| && existing == (if s.dedupVtables then FindVTable(s.data, s.vtables, vt) else None)
    ensures existing.Some? ==> Chosen(s, table, vt) == (s.(data := s.data[|vt|..]), existing.value)
    ensures existing.None? ==> Chosen(s, table, vt) == (s.(vtables := s.vtables + [table + |vt|]), table + |vt|)
  {}

  /** One more field: its slot is in the vtable and still 0, and writing it is the next step. */
  lemma SlotsNext(s0: State, s: State, table: nat, blank: seq<byte>, rest: seq<byte>, k: nat)
    requires SlotsDone(s0, s, table, blank, rest, k) && k < |s0.fields|
    requires SlotsFit(blank, s0.fields, table) && SlotsBlank(blank)
    ensures s.fields == s0.fields
    ensures var loc := s0.fields[k];
      && loc.id + 2 <= |s.data| && loc.off <= table
      && UnLe(DataAt(s.data, |s.data| - loc.id, 2)) == 0
      && SlotsDone(s0, s.(data := Patch(s.data, loc.id, Le(table - loc.off, 2))), table, blank, rest, k + 1)
  {
    hide WriteSlots, SlotsFit, SlotsBlank, FieldsFit, Patch, Le, UnLe, DataAt;
    NextSlot(blank, s0.fields, table, k);
    var vt := WriteSlots(blank, s0.fields[..k], table);
    SlotInFront(vt, rest, s0.fields[k].id);
    PatchFront(vt, rest, s0.fields[k].id, Le(table - s0.fields[k].off, 2));
  }

  class Builder {
    var data: seq<byte>
    var scratch: seq<byte>
    var numFieldLoc: nat
    var maxVoffset: nat
    var nested: bool
    var finished: bool
    var minalign: nat
    var forceDefaults: bool
    var dedupVtables: bool
    var stringPool: seq<nat>
    ghost var model: State

    /** The real fields, and the bytes in both ends of the buffer, are what the model says. */
    ghost predicate Valid()
      reads this
    {
      && data == model.data
      && scratch == OffsetBytes(model.vtables) + LocBytes(model.fields)
      && EntriesFit(model.vtables, model.fields)
      && numFieldLoc == |model.fields|
      && maxVoffset == model.maxVoffset && minalign == model.minalign
      && nested == model.nested && finished == model.finished
      && forceDefaults == model.forceDefaults && dedupVtables == model.dedupVtables
      && stringPool == model.pool
    }

    constructor ()
      ensures Valid() && model == Init()
    {
      data, scratch := [], [];
      numFieldLoc, maxVoffset, minalign := 0, 0, 1;
      nested, finished, forceDefaults, dedupVtables := false, false, false, true;
      stringPool := [];
      model := Init();
    }

    method TrackMinAlign(size: nat)
      requires Valid()
      modifies this
      ensures Valid() && model == FlatBuilder.TrackMinAlign(old(model), size)
    {
      if size > minalign {
        minalign := size;
      }
      model := FlatBuilder.TrackMinAlign(model, size);
    }

    /** PushBytes. */
    method PushBytes(bytes: seq<byte>)
      requires Valid() && |model.data| < MAX_BUFFER_SIZE && |bytes| < 0x8000_0000
      modifies this
      ensures Valid() && model == FlatBuilder.Push(old(model), bytes)
    {
      hide OffsetBytes, LocBytes, EntriesFit;
      data := bytes + data;
      model := FlatBuilder.Push(model, bytes);
    }

    /** Pad. */
    method Pad(n: nat)
      requires Valid() && |model.data| < MAX_BUFFER_SIZE && n < 0x1_0000
      modifies this
      ensures Valid() && model == FlatBuilder.Push(old(model), Zeros(n))
    {
      hide OffsetBytes, LocBytes, EntriesFit;
      data := Zeros(n) + data;
      model := FlatBuilder.Push(model, Zeros(n));
    }

    function GetSize(): nat
      reads this
      requires Valid()
      ensures GetSize() == |model.data|
    {
      |data|
    }

    method Align(size: nat)
      requires Valid() && IsAlignment(size) && |model.data| < MAX_BUFFER_SIZE
      modifies this
      ensures Valid() && model == FlatBuilder.Align(old(model), size)
    {
      hide Valid;
      TrackMinAlign(size);
      Pad(PaddingBytes(GetSize(), size));
    }

    method PreAlign(len: nat, alignment: nat)
      requires Valid() && IsAlignment(alignment) && |model.data| < MAX_BUFFER_SIZE
      modifies this
      ensures Valid() && model == FlatBuilder.PreAlign(old(model), len, alignment)
    {
      hide Valid;
      if len == 0 {
        return;
      }
      TrackMinAlign(alignment);
      Pad(PaddingBytes(GetSize() + len, alignment));
    }

    /** PushElement of the scalar whose little-endian bytes are given. */
    method PushElement(bytes: seq<byte>) returns (off: nat)
      requires Valid() && IsAlignment(|bytes|)
      requires |model.data| < MAX_BUFFER_SIZE && |FlatBuilder.Align(model, |bytes|).data| < MAX_BUFFER_SIZE
      modifies this
      ensures Valid() && model == FlatBuilder.PushElement(old(model), bytes) && off == |model.data|
    {
      hide Valid, FlatBuilder.Align;
      Align(|bytes|);
      PushBytes(bytes);
      off := GetSize();
    }

    method TrackField(id: nat, off: nat)
      requires Valid() && |model.data| < MAX_BUFFER_SIZE
      requires id < 0x1_0000 && off < 0x1_0000_0000
      modifies this
      ensures Valid() && model == FlatBuilder.TrackField(old(model), id, off)
    {
      hide OffsetBytes, LocBytes, OneLoc, EntriesFit;
      LocNext(model.vtables, model.fields, FieldLoc(off, id));
      scratch := scratch + OneLoc(FieldLoc(off, id));
      numFieldLoc := numFieldLoc + 1;
      if id > maxVoffset {
        maxVoffset := id;
      }
      model := FlatBuilder.TrackField(model, id, off);
    }

    /** AddElement: a value equal to its default is not stored. */
    method AddElement(id: nat, bytes: seq<byte>, default: seq<byte>)
      requires Valid() && IsAlignment(|bytes|) && id < 0x1_0000
      requires bytes != default || model.forceDefaults ==>
        |model.data| < MAX_BUFFER_SIZE && |FlatBuilder.PushElement(model, bytes).data| < MAX_BUFFER_SIZE
      modifies this
      ensures Valid() && model == FlatBuilder.AddElement(old(model), id, bytes, default)
    {
      if bytes == default && !forceDefaults {
        return;
      }
      assert !(bytes == default && !model.forceDefaults);
      ElementFits(model, bytes);
      hide Valid, FlatBuilder.PushElement, FlatBuilder.Align;
      var off := PushElement(bytes);
      TrackField(id, off);
    }

    /** AddOffset; a null offset is not stored. */
    method AddOffset(id: nat, off: nat)
      requires Valid() && id < 0x1_0000 && off <= |model.data|
      requires off > 0 ==> |model.data| < MAX_BUFFER_SIZE && |FlatBuilder.AddOffset(model, id, off).data| < MAX_BUFFER_SIZE
      modifies this
      ensures Valid() && model == FlatBuilder.AddOffset(old(model), id, off)
    {
      hide Valid, FlatBuilder.Align, FlatBuilder.PushElement, FlatBuilder.AddElement, Le;
      if off == 0 {
        return;
      }
      OffsetFits(model, id, off);
      Align(4);
      var distance := GetSize() - off + 4;
      AddElement(id, Le(distance, 4), Le(0, 4));
    }

    method StartTable() returns (start: nat)
      requires Valid() && !model.nested && model.fields == []
      modifies this
      ensures Valid() && model == FlatBuilder.StartTable(old(model)) && start == |model.data|
    {
      nested := true;
      start := |data|;
      model := FlatBuilder.StartTable(model);
    }

    // ----- EndTable

    method ReadLoc(k: nat) returns (loc: FieldLoc)
      requires Valid() && k < numFieldLoc
      ensures loc == model.fields[k]
    {
      hide OneLoc;
      var at := |scratch| - 8 * numFieldLoc + 8 * k;
      var bytes := scratch[at..at + 8];
      LocAt(model.fields, k);
      assert bytes == OneLoc(model.fields[k]);
      LocParts(model.fields[k]);
      loc := FieldLoc(UnLe(bytes[..4]), UnLe(bytes[4..6]));
    }

    method ReadAt(off: nat, n: nat) returns (bytes: seq<byte>)
      requires Valid() && 0 < n <= off <= |model.data|
      ensures bytes == DataAt(model.data, off, n)
    {
      hide OffsetBytes, LocBytes, EntriesFit;
      bytes := DataAt(data, off, n);
    }

    /** WriteScalar at data() + i. */
    method Write(i: nat, bytes: seq<byte>)
      requires Valid() && i + |bytes| <= |model.data| && |bytes| > 0
      modifies this
      ensures Valid() && model == old(model).(data := Patch(old(model.data), i, bytes))
    {
      hide OffsetBytes, LocBytes, EntriesFit;
      data := Patch(data, i, bytes);
      model := model.(data := Patch(model.data, i, bytes));
    }

    /** One round of the loop over the tracked fields; no field is set twice, so its slot is still 0. */
    method WriteFieldSlot(k: nat, table: nat, ghost s0: State, ghost blank: seq<byte>, ghost rest: seq<byte>)
      requires Valid() && SlotsDone(s0, model, table, blank, rest, k) && k < |s0.fields|
      requires SlotsFit(blank, s0.fields, table) && SlotsBlank(blank)
      modifies this
      ensures Valid() && SlotsDone(s0, model, table, blank, rest, k + 1)
    {
      SlotsNext(s0, model, table, blank, rest, k);
      FieldCount();
      hide Valid, SlotsDone, SlotsFit, SlotsBlank, Patch, Le, DataAt, UnLe;
      var loc := ReadLoc(k);
      WriteSlot(loc, table);
    }

    /** Writes where a field lies into its slot, once it has looked that the slot is still 0. */
    method WriteSlot(loc: FieldLoc, table: nat)
      requires Valid() && loc.id + 2 <= |model.data| && loc.off <= table
      requires UnLe(DataAt(model.data, |model.data| - loc.id, 2)) == 0
      modifies this
      ensures Valid() && model == old(model).(data := Patch(old(model.data), loc.id, Le(table - loc.off, 2)))
    {
      hide Valid, Patch, Le, DataAt, UnLe;
      var slot := ReadAt(GetSize() - loc.id, 2);
      assert UnLe(slot) == 0;
      Write(loc.id, Le(table - loc.off, 2));
    }

    /** The loop over the tracked fields: writes where each lies into the vtable at the front of the data. */
    method WriteFieldSlots(table: nat, ghost blank: seq<byte>, ghost rest: seq<byte>)
      requires Valid() && SlotsDone(model, model, table, blank, rest, 0)
      requires SlotsFit(blank, model.fields, table) && SlotsBlank(blank)
      modifies this
      ensures Valid() && SlotsDone(old(model), model, table, blank, rest, |old(model).fields|)
    {
      ghost var s0 := model;
      FieldCount();
      hide Valid, SlotsDone, SlotsFit, SlotsBlank;
      var n := numFieldLoc;
      for k := 0 to n
        invariant Valid() && SlotsDone(s0, model, table, blank, rest, k)
      {
        WriteFieldSlot(k, table, s0, blank, rest);
      }
    }

    lemma FieldCount()
      requires Valid()
      ensures numFieldLoc == |model.fields|
    {}

    /** The zeroed vtable, its two sizes, and where each field lies. */
    method WriteVTable(objectSize: nat, table: nat, size: nat)
      requires Valid() && VTableFits(model, objectSize, table, size)
      modifies this
      ensures Valid() && model == AfterVTable(old(model), objectSize, table, size)
    {
      ghost var s := model;
      ghost var blank := Le(size, 2) + Le(objectSize, 2) + Zeros(size - 4);
      BlankVTable(size, objectSize, s.data, s.fields, table);
      SlotsStart(s, objectSize, table, size);
      assert |s.data| < MAX_BUFFER_SIZE && size < 0x1_0000;
      hide Valid, VTableFits, SlotsFit, SlotsBlank, Patch, SlotsDone, AfterVTable;
      Pad(size);
      Write(2, Le(objectSize, 2));
      Write(0, Le(size, 2));
      WriteFieldSlots(table, blank, s.data);
    }

    method ClearOffsets()
      requires Valid()
      modifies this
      ensures Valid() && model == Cleared(old(model))
    {
      hide OffsetBytes, LocBytes, OneLoc, EntriesFit;
      NoFields(model.vtables, model.fields);
      scratch := scratch[..|scratch| - 8 * numFieldLoc];
      numFieldLoc := 0;
      maxVoffset := 0;
      model := model.(fields := [], maxVoffset := 0);
    }

    method ReadVTableOffset(k: nat) returns (u: nat)
      requires Valid() && k < |model.vtables|
      ensures u == model.vtables[k]
    {
      hide Le, UnLe, LocBytes, OffsetBytes;
      var bytes := scratch[4 * k..4 * k + 4];
      OffsetAt(model.vtables, k);
      assert bytes == OffsetBytes(model.vtables)[4 * k..4 * k + 4];
      assert model.vtables[k] in model.vtables;
      Pow256Values();
      LeRoundTrip(model.vtables[k], 4);
      u := UnLe(bytes);
    }

    /** vt1_size: what the vtable at the front of the data says its size is. */
    method CurrentVTableSize(ghost vt: seq<byte>) returns (size: nat)
      requires Valid() && 4 <= |vt| < 0x1_0000 && vt <= model.data && vt[..2] == Le(|vt|, 2)
      ensures size == |vt|
    {
      hide Valid, Le, UnLe;
      var bytes := ReadAt(GetSize(), 2);
      assert bytes == vt[..2];
      Pow256Values();
      LeRoundTrip(|vt|, 2);
      size := UnLe(bytes);
    }

    /** Whether the vtable at u has the same size and the same bytes. */
    method SameAt(u: nat, mine: seq<byte>) returns (same: bool)
      requires Valid() && VTableAt(model.data, u)
      requires 4 <= |mine| < 0x1_0000 && mine[..2] == Le(|mine|, 2)
      ensures same == At(model.data, u, mine)
    {
      hide Valid, Le, UnLe, Aligned;
      SameVTable(model.data, u, mine);
      var theirs := ReadAt(u, 2);
      if UnLe(theirs) != |mine| {
        return false;
      }
      var bytes := ReadAt(u, |mine|);
      same := bytes == mine;
    }

    /** The search of EndTable: the offset of the first remembered vtable equal to the one just written. */
    method FindDuplicate(ghost vt: seq<byte>) returns (r: Option<nat>)
      requires Valid() && model.fields == []
      requires 4 <= |vt| < 0x1_0000 && vt <= model.data && vt[..2] == Le(|vt|, 2)
      requires forall u :: u in model.vtables ==> VTableAt(model.data, u)
      ensures r == FindVTable(model.data, model.vtables, vt)
    {
      var bound := |scratch|;
      assert bound == 4 * |model.vtables|;
      hide Valid, VTableAt, At, DataAt, FindVTable;
      var size := CurrentVTableSize(vt);
      var mine := ReadAt(GetSize(), size);
      assert mine == vt by {
        FrontOfData(model.data, vt);
      }
      var k := 0;
      r := None;
      while 4 * k < bound
        invariant k <= |model.vtables|
        invariant forall j :: 0 <= j < k ==> !At(model.data, model.vtables[j], vt)
      {
        var u := ReadVTableOffset(k);
        var same := SameAt(u, mine);
        if same {
          r := Some(u);
          break;
        }
        k := k + 1;
      }
      FirstMatch(model.data, model.vtables, vt, k);
    }

    /** PopBytes. */
    method PopBytes(n: nat)
      requires Valid() && n <= |model.data|
      modifies this
      ensures Valid() && model == old(model).(data := old(model.data)[n..])
    {
      hide OffsetBytes, LocBytes, EntriesFit;
      data := data[n..];
      model := model.(data := model.data[n..]);
    }

    /** Remembers a vtable in scratch. */
    method RememberVTable(u: nat)
      requires Valid() && model.fields == [] && |model.data| < MAX_BUFFER_SIZE && u < 0x1_0000_0000
      modifies this
      ensures Valid() && model == old(model).(vtables := old(model.vtables) + [u])
    {
      hide OffsetBytes, LocBytes, EntriesFit;
      OffsetNext(model.vtables, model.fields, u);
      scratch := scratch + Le(u, 4);
      model := model.(vtables := model.vtables + [u]);
    }

    /** The end of the search: an equal vtable is reused and the new one popped, otherwise the new one is remembered. */
    method ChooseVTable(table: nat, ghost vt: seq<byte>) returns (use: nat)
      requires Valid() && VTableInFront(model, table, vt)
      modifies this
      ensures Valid()
      ensures (model, use) == Chosen(old(model), table, vt)
    {
      ghost var s := model;
      assert dedupVtables == model.dedupVtables;
      hide Valid, VTableAt, At, FindVTable, Chosen;
      use := GetSize();
      var existing: Option<nat> := None;
      if dedupVtables {
        existing := FindDuplicate(vt);
      }
      ChosenIs(s, table, vt, existing);
      if existing.Some? {
        use := existing.value;
        PopBytes(GetSize() - table);
      }
      if use == GetSize() {
        RememberVTable(use);
      }
    }

    /** EndTable up to the search: the space for the vtable's distance, the vtable, and the scratch entries popped. */
    method WriteTableStart(start: nat) returns (table: nat)
      requires Valid() && EndTableOk(model, start)
      modifies this
      ensures Valid()
      ensures model == WithVTable(old(model), start) && table == |FlatBuilder.PushElement(old(model), Le(0, 4)).data|
    {
      ghost var s := model;
      TableRoom(s, start);
      VTablePushed(s);
      VOffsetStays();
      hide Valid, EndTableOk, WithVTable, AfterVTable, Cleared, FlatBuilder.PushElement, FlatBuilder.Align, VTableFits, VTableSize;
      var size := VTableSize(maxVoffset);
      table := PushElement(Le(0, 4));
      WriteVTable(table - start, table, size);
      ClearOffsets();
    }

    lemma VOffsetStays()
      requires Valid()
      ensures maxVoffset == model.maxVoffset
    {}

    method EndTable(start: nat) returns (table: nat)
      requires Valid() && EndTableOk(model, start)
      modifies this
      ensures Valid() && (model, table) == FlatBuilder.EndTable(old(model), start)
    {
      EndTableSteps(model, start);
      ghost var vt := NewVTable(model, start);
      hide Valid, EndTableOk, FlatBuilder.PushElement, Le, NewVTable, VTableInFront, WithVTable, Chosen, FlatBuilder.EndTable, PatchVTableOffset;
      table := WriteTableStart(start);
      var use := ChooseVTable(table, vt);
      PatchTable(table, use);
    }

    /** Fills in where the table's vtable is. */
    method PatchTable(table: nat, use: nat)
      requires Valid() && 4 <= table <= |model.data|
      modifies this
      ensures Valid() && model == old(model).(data := PatchVTableOffset(old(model.data), table, use), nested := false)
    {
      hide OffsetBytes, LocBytes, EntriesFit, Le;
      Write(GetSize() - table, Le((use - table) % 0x1_0000_0000, 4));
      nested := false;
      model := model.(nested := false);
    }

    // ----- strings

    /** CreateString; a string is not created while a table is being built. */
    method CreateString(chars: seq<byte>) returns (off: nat)
      requires Valid() && !model.nested && model.fields == []
      requires |FlatBuilder.CreateString(model, chars).data| < MAX_BUFFER_SIZE + 4
      modifies this
      ensures Valid() && model == FlatBuilder.CreateString(old(model), chars) && off == |model.data|
    {
      StringRoom(model, chars);
      hide Valid, FlatBuilder.PreAlign, FlatBuilder.PushElement, FlatBuilder.Align;
      PreAlign(|chars| + 1, 4);
      Pad(1);
      PushBytes(chars);
      off := PushElement(Le(|chars|, 4));
    }

    /**
     * CreateSharedString. The pool is searched with the order of StringLessThan, under which two strings are
     * equivalent exactly when they are equal.
     */
    method CreateSharedString(chars: seq<byte>) returns (off: nat)
      requires Valid() && !model.nested && model.fields == []
      requires |FlatBuilder.CreateString(model, chars).data| < MAX_BUFFER_SIZE + 4
      modifies this
      ensures Valid() && (model, off) == FlatBuilder.CreateSharedString(old(model), chars)
    {
      ghost var s := model;
      assert FlatBuilder.CreateString(s, chars).pool == s.pool;
      StringGrows(s, chars);
      hide FlatBuilder.CreateString, OffsetBytes, LocBytes, EntriesFit, FindString;
      var sizeBeforeString := GetSize();
      off := CreateString(chars);
      var existing := FindString(data, stringPool, chars);
      match existing
      case Some(p) =>
        PopBytes(GetSize() - sizeBeforeString);
        off := p;
      case None =>
        stringPool := stringPool + [off];
        model := model.(pool := model.pool + [off]);
    }

    // ----- Finish

    /** ClearScratch, before the header is written. */
    method ClearScratch()
      requires Valid() && model.fields == []
      modifies this
      ensures Valid() && model == old(model).(vtables := [])
    {
      scratch := [];
      model := model.(vtables := []);
    }

    method Finish(root: nat, identifier: Option<seq<byte>>, sizePrefix: bool)
      requires Valid() && CanFinish(model, root, identifier, sizePrefix)
      modifies this
      ensures Valid() && model == FlatBuilder.Finish(old(model), root, identifier, sizePrefix)
    {
      ghost var s := model;
      var prefixSize := if sizePrefix then 4 else 0;
      var id := if identifier.Some? then identifier.value else [];
      FinishRoom(s, root, id, sizePrefix);
      WriteHeader(prefixSize, id);
      ghost var s1 := model;
      hide Valid, BeforeHeader, FlatBuilder.Align, FlatBuilder.PushElement, FlatBuilder.Finish, Le;
      Align(4);
      var off := PushElement(Le(GetSize() - root + 4, 4));
      if sizePrefix {
        off := PushElement(Le(GetSize(), 4));
      }
      MarkFinished();
    }

    method WriteHeader(prefixSize: nat, id: seq<byte>)
      requires Valid() && model.fields == []
      requires IsAlignment(model.minalign) && (prefixSize == 0 || prefixSize == 4) && (|id| == 0 || |id| == 4)
      requires |BeforeHeader(model, prefixSize, id).data| < MAX_BUFFER_SIZE
      modifies this
      ensures Valid() && model == BeforeHeader(old(model), prefixSize, id)
    {
      hide Valid, FlatBuilder.PreAlign;
      HeaderSteps(model, prefixSize, id);
      ClearScratch();
      TrackMinAlign(prefixSize);
      PreAlign(prefixSize + 4 + |id|, TrackedAlignment());
      PushBytes(id);
    }

    function TrackedAlignment(): nat
      requires Valid()
      reads this
      ensures TrackedAlignment() == model.minalign
    {
      minalign
    }

    method MarkFinished()
      requires Valid()
      modifies this
      ensures Valid() && model == old(model).(finished := true)
    {
      finished := true;
      model := model.(finished := true);
    }
  }
}
