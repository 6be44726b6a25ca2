/** Where each byte of what the builder writes goes: padding is zero and as little as can be, and vtables are as short. */
module FlatLayout {
  import opened Bytes
  import opened Common
  import opened FlatReader
  import opened FlatObjects
  import opened FlatBuilder
  import opened FlatBuilderProofs
  import opened FlatRuns

  /** The data grew by some bytes and by zeros behind them, fewer than it takes to align it. */
  ghost predicate PushedOn(after: seq<byte>, bytes: seq<byte>, before: seq<byte>, align: nat) {
    exists p: nat :: p < align && |after| % align == 0 && after == bytes + Zeros(p) + before
  }

  lemma PushedBy(bytes: seq<byte>, p: nat, before: seq<byte>, align: nat)
    requires IsAlignment(align) && p < align && Aligned(|bytes| + p + |before|, align)
    ensures PushedOn(bytes + Zeros(p) + before, bytes, before, align)
  {
    AlignedIsMultiple(|bytes| + p + |before|, align);
    hide IsAlignment, Aligned, Zeros;
  }

  lemma AlignLayout(s: State, size: nat)
    requires IsAlignment(size)
    ensures var s' := Align(s, size);
      s' == s.(data := s'.data, minalign := Max(s.minalign, size)) && PushedOn(s'.data, [], s.data, size)
  {
    hide PaddingBytes, Zeros, IsAlignment;
    var p := PaddingBytes(|s.data|, size);
    assert [] + Zeros(p) == Zeros(p);
    PushedBy([], p, s.data, size);
  }

  lemma PushElementLayout(s: State, bytes: seq<byte>)
    requires IsAlignment(|bytes|)
    ensures var s' := PushElement(s, bytes);
      s' == s.(data := s'.data, minalign := Max(s.minalign, |bytes|)) && PushedOn(s'.data, bytes, s.data, |bytes|)
  {
    hide PaddingBytes, Zeros, Aligned;
    var p := PaddingBytes(|s.data|, |bytes|);
    assert bytes + (Zeros(p) + s.data) == bytes + Zeros(p) + s.data;
    AlignedNext(|s.data| + p, |bytes|);
    assert |bytes| + p + |s.data| == |s.data| + p + |bytes|;
    PushedBy(bytes, p, s.data, |bytes|);
  }

  // ----- fields

  /** The largest field id, or 0 when there is none. */
  function LargestId(fields: seq<FieldLoc>): nat {
    if fields == [] then 0
    else Max(LargestId(fields[..|fields| - 1]), fields[|fields| - 1].id)
  }

  /** max_voffset_ is the largest id of the open table's fields. */
  predicate LargestKnown(s: State) {
    s.maxVoffset == LargestId(s.fields)
  }

  lemma TrackFieldKnows(s: State, id: nat, off: nat)
    requires LargestKnown(s)
    ensures LargestKnown(TrackField(s, id, off))
  {
    assert (s.fields + [FieldLoc(off, id)])[..|s.fields|] == s.fields;
  }

  /** A field that is stored is one scalar in front of the data, and the last one remembered; any other leaves the state alone. */
  lemma AddElementLayout(s: State, id: nat, bytes: seq<byte>, default: seq<byte>)
    requires IsAlignment(|bytes|)
    ensures var s' := AddElement(s, id, bytes, default);
      if bytes == default && !s.forceDefaults then s' == s
      else && s' == s.(data := s'.data, minalign := Max(s.minalign, |bytes|),
                       fields := s.fields + [FieldLoc(|s'.data|, id)], maxVoffset := Max(s.maxVoffset, id))
           && PushedOn(s'.data, bytes, s.data, |bytes|)
    ensures LargestKnown(s) ==> LargestKnown(AddElement(s, id, bytes, default))
  {
    PushElementLayout(s, bytes);
    var s1 := PushElement(s, bytes);
    if LargestKnown(s) {
      TrackFieldKnows(s1, id, |s1.data|);
    }
    hide PushElement, PushedOn, LargestId;
  }

  /** An offset is aligned before it is computed, so pushing it needs no padding of its own. */
  lemma AddOffsetLayout(s: State, id: nat, off: nat)
    requires off <= |s.data| && |s.data| + 8 < 0x1_0000_0000
    ensures var s' := AddOffset(s, id, off);
      if off == 0 then s' == s
      else && off < |s'.data|
           && s' == s.(data := s'.data, minalign := Max(s.minalign, 4),
                       fields := s.fields + [FieldLoc(|s'.data|, id)], maxVoffset := Max(s.maxVoffset, id))
           && PushedOn(s'.data, Le(|s'.data| - off, 4), s.data, 4)
    ensures LargestKnown(s) ==> LargestKnown(AddOffset(s, id, off))
  {
    if off != 0 {
      var s1 := Align(s, 4);
      AlignExtends(s, 4);
      AlignLayout(s, 4);
      OffsetIsStored(s1, off);
      var bytes := Le(ReferTo(s1, off), 4);
      PushElementExtends(s1, bytes);
      AddElementLayout(s1, id, bytes, Le(0, 4));
      hide Align, PushElement, Le, Aligned, LargestId, PushedOn, AddElement;
      var s2 := PushElement(s1, bytes);
      assert |s2.data| - off == ReferTo(s1, off);
      OnlyOnce(s2.data, bytes, s1.data, s.data);
    }
  }

  lemma OffsetIsStored(s: State, off: nat)
    requires 0 < off <= |s.data| && |s.data| + 4 < 0x1_0000_0000
    ensures Le(ReferTo(s, off), 4) != Le(0, 4)
  {
    Pow256Values();
    LeRoundTrip(ReferTo(s, off), 4);
    LeRoundTrip(0, 4);
  }

  /** Padding once is enough. */
  lemma OnlyOnce(after: seq<byte>, bytes: seq<byte>, middle: seq<byte>, before: seq<byte>)
    requires PushedOn(after, bytes, middle, 4) && PushedOn(middle, [], before, 4) && |bytes| == 4
    ensures PushedOn(after, bytes, before, 4)
  {
    hide Zeros;
    var p: nat :| p < 4 && |middle| % 4 == 0 && middle == [] + Zeros(p) + before;
    var q: nat :| q < 4 && |after| % 4 == 0 && after == bytes + Zeros(q) + middle;
    assert q == 0;
    assert after == bytes + Zeros(p) + before;
  }

  // ----- strings

  lemma PreAlignLayout(s: State, len: nat, align: nat)
    requires IsAlignment(align) && len > 0
    ensures var p := PaddingBytes(|s.data| + len, align);
      PreAlign(s, len, align) == s.(data := Zeros(p) + s.data, minalign := Max(s.minalign, align))
  {
    hide PaddingBytes, Zeros, IsAlignment;
  }

  lemma CreateStringIs(s: State, chars: seq<byte>)
    ensures var p := PaddingBytes(|s.data| + (|chars| + 1), 4);
      CreateString(s, chars) == s.(data := Le(|chars|, 4) + chars + [0] + Zeros(p) + s.data, minalign := Max(s.minalign, 4))
  {
    hide PaddingBytes, Zeros, Aligned, Le, PreAlign, PushElement;
    var n := |chars| + 1;
    var p := PaddingBytes(|s.data| + n, 4);
    PreAlignLayout(s, n, 4);
    OneZero();
    var s2 := s.(data := chars + ([0] + (Zeros(p) + s.data)), minalign := Max(s.minalign, 4));
    assert |s2.data| == |s.data| + n + p;
    SizePushed(s2, |chars|);
    StringPadded(Le(|chars|, 4), chars, p, s.data);
  }

  /** A string: its size, its characters, a zero byte, and as little padding behind it as aligns its size. */
  lemma CreateStringLayout(s: State, chars: seq<byte>)
    ensures var s' := CreateString(s, chars);
      && s' == s.(data := s'.data, minalign := Max(s.minalign, 4))
      && PushedOn(s'.data, Le(|chars|, 4) + chars + [0], s.data, 4)
  {
    CreateStringIs(s, chars);
    hide PaddingBytes, Zeros, Aligned, Le, CreateString, PushedOn;
    var n := |chars| + 1;
    var p := PaddingBytes(|s.data| + n, 4);
    AlignedNext(|s.data| + n + p, 4);
    var bytes := Le(|chars|, 4) + chars + [0];
    assert |bytes| == n + 4;
    PushedBy(bytes, p, s.data, 4);
  }

  lemma OneZero()
    ensures Zeros(1) == [0]
  {}

  lemma SizePushed(s: State, n: nat)
    requires Aligned(|s.data|, 4) && s.minalign >= 4
    ensures PushElement(s, Le(n, 4)) == s.(data := Le(n, 4) + s.data)
  {
    hide Aligned, Le;
    AlignDoesNothing(s);
  }

  lemma StringPadded(size: seq<byte>, chars: seq<byte>, p: nat, rest: seq<byte>)
    ensures size + (chars + ([0] + (Zeros(p) + rest))) == (size + chars + [0]) + Zeros(p) + rest
  {
    hide Zeros;
  }

  // ----- vtables

  /** As long as the largest field id needs, and at least the two fixed entries. */
  lemma VTableSizeExact(id: nat)
    requires id % 2 == 0 && id < 0xFFFE
    ensures VTableSize(id) == if id <= 2 then 4 else id + 2
  {}

  lemma {:induction false} LargestOfIds(fields: seq<FieldLoc>)
    ensures forall id :: id in Ids(fields) ==> id <= LargestId(fields)
    ensures LargestId(fields) == 0 || LargestId(fields) in Ids(fields)
  {
    if fields != [] {
      LargestOfIds(fields[..|fields| - 1]);
    }
  }

  /** The vtable of the fields: each has a slot, and the last slot is the largest's. */
  predicate AsLongAs(size: nat, fields: map<nat, Field>) {
    && (forall id :: id in fields ==> id + 2 <= size)
    && (size == 4 || size - 2 in fields)
  }

  lemma NewVTableLayout(s: State, start: nat, fields: map<nat, Field>)
    requires OpenTable(s, start, fields) && CanEndTable(s, start) && LargestKnown(s)
    ensures AsLongAs(|NewVTable(s, start)|, fields)
  {
    LargestOfIds(s.fields);
    VTableSizeExact(s.maxVoffset);
    IdsAreStored(s, start, fields);
    assert |NewVTable(s, start)| == VTableSize(s.maxVoffset);
    hide PushElement, Le, VTableSize, OpenTable, NewVTable, Ids, LargestId, FieldsFit;
  }

  lemma IdsAreStored(s: State, start: nat, fields: map<nat, Field>)
    requires OpenTable(s, start, fields)
    ensures fields.Keys == Ids(s.fields) && s.maxVoffset % 2 == 0 && forall id :: id in fields ==> IsFieldId(id)
  {
    IdsAreIds(s.fields);
    forall id | id in fields
      ensures IsFieldId(id)
    {
      var i :| 0 <= i < |s.fields| && s.fields[i].id == id;
      assert Tracked(s, start, fields, s.fields[i]);
    }
  }

  /** A vtable with these bytes is remembered, and vtables are shared. */
  predicate SharesVTable(s: State, vt: seq<byte>)
    requires VTablesHold(s)
  {
    s.dedupVtables && exists u :: u in s.vtables && VTableContents(s.data, u) == vt
  }

  /**
   * EndTable: the table's own four bytes, which lead to its vtable; the vtable lists the table's size and as
   * many slots as the largest field needs. A vtable that was written before is used again, and the data is
   * no longer than with the table's bytes alone; otherwise the new one stands in front of the table.
   */
  lemma EndTableLayout(s: State, start: nat, fields: map<nat, Field>)
    requires OpenTable(s, start, fields) && CanEndTable(s, start) && VTablesHold(s) && LargestKnown(s)
    requires |PushElement(s, Le(0, 4)).data| < MAX_BUFFER_SIZE
    ensures var (s', table) := EndTable(s, start); var vt := NewVTable(s, start);
      && PushedOn(PushElement(s, Le(0, 4)).data, Le(0, 4), s.data, 4) && table == |PushElement(s, Le(0, 4)).data|
      && AsLongAs(|vt|, fields) && Entry(vt, 0) == |vt| && Entry(vt, 2) == table - start
      && 4 <= table <= |s'.data| && VTableAt(s'.data, VTableOf(s'.data, table)) && VTableContents(s'.data, VTableOf(s'.data, table)) == vt
      && s'.minalign == Max(s.minalign, 4) && LargestKnown(s')
      && (if SharesVTable(s, vt)
          then |s'.data| == table && s'.vtables == s.vtables && VTableOf(s'.data, table) in s.vtables
          else |s'.data| == table + |vt| && s'.vtables == s.vtables + [table + |vt|] && VTableOf(s'.data, table) == table + |vt|)
  {
    PushElementLayout(s, Le(0, 4));
    NewVTableLayout(s, start, fields);
    NewVTableMeaning(s, start, fields);
    var vt := NewVTable(s, start);
    var data, use := EndTableUses(s, start, fields);
    hide PushElement, Le, EndTable, OpenTable, NewVTable, PatchVTableOffset, VTableChosen, VTableAt, VTableOf, VTableContents, AsLongAs, PushedOn, Entry, CanEndTable;
    var (s', table) := EndTable(s, start);
    VTableFollowed(s, data, table, use, vt);
  }

  /** The steps of EndTable, once the search for the vtable has given an answer. */
  lemma EndTableSteps(s: State, start: nat) returns (existing: Option<nat>)
    requires CanEndTable(s, start)
    ensures var vt := NewVTable(s, start); var s1 := PushElement(s, Le(0, 4)); var (s', table) := EndTable(s, start);
      var use := if existing.Some? then existing.value else table + |vt|;
      var data := if existing.Some? then s1.data else vt + s1.data;
      && 4 <= table <= |data| && table == |s1.data| && s'.data == PatchVTableOffset(data, table, use)
      && s'.vtables == (if existing.Some? then s.vtables else s.vtables + [use])
      && s'.minalign == s1.minalign && s'.fields == [] && s'.maxVoffset == 0
      && (existing.Some? ==> s.dedupVtables && existing.value in s.vtables && At(vt + s1.data, existing.value, vt))
      && (existing.None? && s.dedupVtables ==> forall u :: u in s.vtables ==> !At(vt + s1.data, u, vt))
  {
    assert |NewVTable(s, start)| == VTableSize(s.maxVoffset);
    hide PushElement, Le, VTableBytes, PatchVTableOffset, At, FieldsFit, VTableSize;
    var vt := NewVTable(s, start);
    existing := if s.dedupVtables then FindVTable(vt + PushElement(s, Le(0, 4)).data, s.vtables, vt) else None;
  }

  lemma EndTableUses(s: State, start: nat, fields: map<nat, Field>) returns (data: seq<byte>, use: nat)
    requires OpenTable(s, start, fields) && CanEndTable(s, start) && VTablesHold(s)
    requires |PushElement(s, Le(0, 4)).data| < MAX_BUFFER_SIZE
    ensures var vt := NewVTable(s, start); var s1 := PushElement(s, Le(0, 4)); var (s', table) := EndTable(s, start);
      && table == |s1.data| && VTableChosen(s, data, table, use, vt) && |s'.data| == |data|
      && s'.data == PatchVTableOffset(data, table, use) && s'.minalign == s1.minalign && s'.fields == [] && s'.maxVoffset == 0
      && (if SharesVTable(s, vt) then data == s1.data && use in s.vtables && s'.vtables == s.vtables
          else data == vt + s1.data && use == table + |vt| && s'.vtables == s.vtables + [use])
  {
    PushElementExtends(s, Le(0, 4));
    NewVTableMeaning(s, start, fields);
    var existing := EndTableSteps(s, start);
    hide PushElement, Le, OpenTable, PatchVTableOffset, VTableChosen, VTableAt, VTableContents, Entry, Extends, At, NewVTable, EndTable, CanEndTable;
    var vt := NewVTable(s, start);
    var s1 := PushElement(s, Le(0, 4));
    if existing.Some? {
      data, use := s1.data, existing.value;
      ExistingVTableChosen(s, s1, vt, use);
      StandsAreContents(s, s1, use, vt);
    } else {
      data, use := vt + s1.data, |s1.data| + |vt|;
      NewVTableChosen(s, s1, vt);
      if SharesVTable(s, vt) {
        var u :| u in s.vtables && VTableContents(s.data, u) == vt;
        ContentsStandAt(s, s1, u, vt);
      }
    }
  }

  lemma StandsAreContents(s: State, s1: State, u: nat, vt: seq<byte>)
    requires Extends(s1, s) && VTableAt(s.data, u) && At(vt + s1.data, u, vt)
    requires 4 <= |vt| && Entry(vt, 0) == |vt|
    ensures VTableContents(s.data, u) == vt
  {
    hide Aligned, UnLe;
    var front := s1.data[..|s1.data| - |s.data|];
    assert s1.data == front + s.data;
    DataAtGrows(vt, s1.data, u, |vt|);
    DataAtGrows(front, s.data, u, |vt|);
    DataAtSlice(s.data, u, |vt|, 0, 2);
  }

  lemma VTableFollowed(s: State, data: seq<byte>, table: nat, use: nat, vt: seq<byte>)
    requires VTableChosen(s, data, table, use, vt) && 4 <= |vt| < 0x1_0000 && |vt| % 2 == 0 && Entry(vt, 0) == |vt|
    ensures var r := PatchVTableOffset(data, table, use);
      4 <= table <= |r| && VTableOf(r, table) == use && VTableAt(r, use) && VTableContents(r, use) == vt
  {
    hide PatchVTableOffset, Aligned, Entry;
    PatchLeavesRest(data, table, use, use, vt);
    PatchLeadsToVTable(data, table, use);
    var r := PatchVTableOffset(data, table, use);
    VTableFromBytes(r, use, vt);
    ContentsFromBytes(r, use, vt);
  }

  lemma ContentsFromBytes(data: seq<byte>, use: nat, vt: seq<byte>)
    requires At(data, use, vt) && VTableAt(data, use) && 4 <= |vt| && Entry(vt, 0) == |vt|
    ensures VTableContents(data, use) == vt
  {
    hide Aligned, UnLe;
    DataAtSlice(data, use, |vt|, 0, 2);
  }

  // ----- Finish

  /** Bytes, zeros behind them, and the data there was. */
  function Padded(bytes: seq<byte>, p: nat, data: seq<byte>): (r: seq<byte>)
    ensures |r| == |bytes| + p + |data|
  {
    bytes + Zeros(p) + data
  }

  lemma PaddedBy(bytes: seq<byte>, p: nat, data: seq<byte>, align: nat)
    requires IsAlignment(align) && p < align && Aligned(|bytes| + p + |data|, align)
    ensures PushedOn(Padded(bytes, p, data), bytes, data, align)
  {
    hide IsAlignment, Aligned, Zeros, PushedOn;
    PushedBy(bytes, p, data, align);
  }

  /** The root offset, and the size if asked for, in front of the rest. */
  function Headed(front: seq<byte>, root: nat, sizePrefix: bool): seq<byte>
    requires root <= |front|
  {
    var offset := Le(|front| - root + 4, 4);
    if sizePrefix then Le(|front| + 4, 4) + offset + front else offset + front
  }

  lemma BeforeHeaderLayout(s: State, prefixSize: nat, identifier: seq<byte>)
    requires IsAlignment(s.minalign) && 4 <= s.minalign && prefixSize <= 4
    ensures var p := PaddingBytes(|s.data| + (prefixSize + 4 + |identifier|), s.minalign);
      BeforeHeader(s, prefixSize, identifier) == s.(data := Padded(identifier, p, s.data), vtables := [])
  {
    hide PaddingBytes, Zeros, PreAlign, BeforeHeader, IsAlignment;
    BeforeHeaderIs(s, prefixSize, identifier);
    var len := prefixSize + 4 + |identifier|;
    PreAlignLayout(s.(vtables := []), len, s.minalign);
    var p := PaddingBytes(|s.data| + len, s.minalign);
    assert identifier + (Zeros(p) + s.data) == identifier + Zeros(p) + s.data;
  }

  /** What is in front of the padding: the size, if asked for, the distance to the root, and the identifier, if any. */
  function Header(size: nat, root: nat, identifier: Option<seq<byte>>, sizePrefix: bool): seq<byte>
    requires size >= root + if sizePrefix then 4 else 0
  {
    (if sizePrefix then Le(size - 4, 4) else [])
    + Le(size - root - (if sizePrefix then 4 else 0), 4)
    + (if identifier.Some? then identifier.value else [])
  }

  lemma HeaderJoined(prefix: seq<byte>, offset: seq<byte>, id: seq<byte>, zeros: seq<byte>, data: seq<byte>)
    ensures prefix + offset + (id + zeros + data) == (prefix + offset + id) + zeros + data
    ensures [] + offset == offset
  {}

  /** How many zeros Finish needs, and how long the buffer gets. */
  function FinishPadding(s: State, identifier: Option<seq<byte>>, sizePrefix: bool): (p: nat)
    requires IsAlignment(s.minalign)
    ensures p < s.minalign && Aligned(|s.data| + HeaderSize(identifier, sizePrefix) + p, s.minalign)
  {
    PaddingBytes(|s.data| + HeaderSize(identifier, sizePrefix), s.minalign)
  }

  function HeaderSize(identifier: Option<seq<byte>>, sizePrefix: bool): nat {
    (if sizePrefix then 4 else 0) + 4 + (if identifier.Some? then |identifier.value| else 0)
  }

  lemma FinishIs(s: State, root: nat, identifier: Option<seq<byte>>, sizePrefix: bool)
    requires IsAlignment(s.minalign) && 4 <= s.minalign && 0 < root <= |s.data| < MAX_BUFFER_SIZE
    requires identifier.Some? ==> |identifier.value| == 4
    ensures var p := FinishPadding(s, identifier, sizePrefix);
      var size := |s.data| + HeaderSize(identifier, sizePrefix) + p;
      Finish(s, root, identifier, sizePrefix) ==
      s.(data := Padded(Header(size, root, identifier, sizePrefix), p, s.data), vtables := [], finished := true)
  {
    hide BeforeHeader, PaddingBytes, Zeros, Finish, Le, Aligned, IsAlignment, Header, Padded, Headed;
    var prefixSize := if sizePrefix then 4 else 0;
    var id := if identifier.Some? then identifier.value else [];
    assert prefixSize + 4 + |id| == HeaderSize(identifier, sizePrefix);
    hide HeaderSize;
    BeforeHeaderLayout(s, prefixSize, id);
    FinishSteps(s, root, identifier, sizePrefix);
    HeaderOn(BeforeHeader(s, prefixSize, id).data, s.data, root, identifier, sizePrefix, FinishPadding(s, identifier, sizePrefix));
  }

  lemma HeaderOn(front: seq<byte>, data: seq<byte>, root: nat, identifier: Option<seq<byte>>, sizePrefix: bool, p: nat)
    requires front == Padded(if identifier.Some? then identifier.value else [], p, data) && root <= |data|
    ensures var size := |data| + HeaderSize(identifier, sizePrefix) + p;
      root <= |front| && Headed(front, root, sizePrefix) == Padded(Header(size, root, identifier, sizePrefix), p, data)
  {
    hide Zeros, Le;
    var id := if identifier.Some? then identifier.value else [];
    var offset := Le(|front| - root + 4, 4);
    if sizePrefix {
      HeaderJoined(Le(|front| + 4, 4), offset, id, Zeros(p), data);
    } else {
      HeaderJoined([], offset, id, Zeros(p), data);
    }
  }

  /**
   * Finish: the header, as few zeros as make the whole a multiple of the largest alignment, and the data; the
   * vtables are forgotten, and nothing else changes.
   */
  lemma FinishLayout(s: State, root: nat, identifier: Option<seq<byte>>, sizePrefix: bool)
    requires IsAlignment(s.minalign) && 4 <= s.minalign && 0 < root <= |s.data| < MAX_BUFFER_SIZE
    requires identifier.Some? ==> |identifier.value| == 4
    ensures var s' := Finish(s, root, identifier, sizePrefix); var buf := s'.data;
      && s' == s.(data := buf, vtables := [], finished := true)
      && |buf| >= root + (if sizePrefix then 4 else 0)
      && PushedOn(buf, Header(|buf|, root, identifier, sizePrefix), s.data, s.minalign)
  {
    hide Zeros, Finish, Aligned, IsAlignment, PushedOn, Padded, Le;
    FinishIs(s, root, identifier, sizePrefix);
    var p := FinishPadding(s, identifier, sizePrefix);
    var size := |s.data| + HeaderSize(identifier, sizePrefix) + p;
    var header := Header(size, root, identifier, sizePrefix);
    assert |header| == HeaderSize(identifier, sizePrefix);
    hide Header, HeaderSize, FinishPadding;
    assert |header| + p + |s.data| == size;
    PaddedBy(header, p, s.data, s.minalign);
  }

  lemma FinishSteps(s: State, root: nat, identifier: Option<seq<byte>>, sizePrefix: bool)
    requires IsAlignment(s.minalign) && 4 <= s.minalign && 0 < root <= |s.data| < MAX_BUFFER_SIZE
    requires identifier.Some? ==> |identifier.value| == 4
    ensures var s1 := BeforeHeader(s, if sizePrefix then 4 else 0, if identifier.Some? then identifier.value else []);
      && |s.data| <= |s1.data|
      && Finish(s, root, identifier, sizePrefix) == s1.(data := Headed(s1.data, root, sizePrefix), finished := true)
  {
    hide Aligned, PushElement, BeforeHeader, Le, Align, Extends;
    var prefixSize := if sizePrefix then 4 else 0;
    var id := if identifier.Some? then identifier.value else [];
    BeforeHeaderExtends(s, prefixSize, id);
    var s1 := BeforeHeader(s, prefixSize, id);
    assert |s.data| <= |s1.data| by {
      ExtendsLength(s1, s);
    }
    HeaderIsAligned(|s1.data|, prefixSize + 4, s.minalign);
    HeaderPushed(s1, ReferTo(s1, root));
    var s3 := PushElement(s1, Le(ReferTo(s1, root), 4));
    if sizePrefix {
      HeaderIsAligned(|s3.data|, 4, s.minalign);
      HeaderPushed(s3, |s3.data|);
      assert Le(|s3.data|, 4) + s3.data == Le(|s1.data| + 4, 4) + Le(ReferTo(s1, root), 4) + s1.data;
    }
  }

  lemma ExtendsLength(s': State, s: State)
    requires Extends(s', s)
    ensures |s.data| <= |s'.data|
  {}

  // ----- runs

  lemma {:induction false} RunAddsKnow(s: State, adds: seq<Add>, offs: seq<nat>)
    requires AddsOk(s, adds, offs) && LargestKnown(s) && |s.data| < MAX_BUFFER_SIZE
    ensures LargestKnown(RunAdds(s, adds, offs))
    decreases |adds|
  {
    hide LargestKnown;
    if adds != [] {
      RunAddKnows(s, adds[0], offs);
      RunAddsKnow(RunAdd(s, adds[0], offs), adds[1..], offs);
    }
  }

  lemma RunAddKnows(s: State, add: Add, offs: seq<nat>)
    requires AddOk(s, add, offs) && LargestKnown(s) && |s.data| < MAX_BUFFER_SIZE
    ensures LargestKnown(RunAdd(s, add, offs)) && |RunAdd(s, add, offs).data| < MAX_BUFFER_SIZE
  {
    hide LargestKnown, AddElement, AddOffset;
    match add
    case AddScalar(id, bytes, default) => AddElementLayout(s, id, bytes, default);
    case AddRef(id, target) =>
      if target.Some? {
        AddOffsetLayout(s, id, offs[target.value]);
      } else {
        NullOffset(s, id);
      }
  }

  lemma NullOffset(s: State, id: nat)
    ensures AddOffset(s, id, 0) == s
  {}

  /**
   * Any table of any run: its vtable, shared or not, has a slot for each field that was stored and no more
   * than the largest needs.
   */
  lemma TableVTableIsShort(s: State, adds: seq<Add>, offs: seq<nat>, vals: seq<Value>)
    requires Idle(s) && Holds(s, offs, vals) && OpOk(s, MakeTable(adds), offs) && |s.data| < MAX_BUFFER_SIZE
    ensures var (s', table) := RunOp(s, MakeTable(adds), offs);
      && 4 <= table <= |s'.data| && VTableAt(s'.data, VTableOf(s'.data, table))
      && AsLongAs(|VTableContents(s'.data, VTableOf(s'.data, table))|, Stored(adds, vals, s.forceDefaults))
  {
    var begun := StartTable(s);
    TableBegins(s, offs, vals);
    assert [] + adds == adds;
    RunAddsBuilds(s, begun, [], adds, offs, vals);
    RunAddsKnow(begun, adds, offs);
    var now := RunAdds(begun, adds, offs);
    var fields := Stored(adds, vals, s.forceDefaults);
    VTablesStay(s, now);
    EndTableIsLonger(now, |s.data|);
    hide Idle, Holds, RunAdds, AddsOk, EndTable, OpenTable, CanEndTable, Extends, VTableAt, VTableOf, VTableContents, AsLongAs, LargestKnown, NewVTable, PushElement, PushedOn;
    EndTableLayout(now, |s.data|, fields);
  }

  // ----- an example

  lemma SmallNumbers(n: nat)
    requires n < 256
    ensures Le(n, 2) == [n as byte, 0] && Le(n, 4) == [n as byte, 0, 0, 0]
  {
    assert Le(0, 1) == [0] && Le(0, 2) == [0, 0] && Le(0, 3) == [0, 0, 0];
  }

  lemma EmptyTableBegins() returns (s: State)
    ensures s == StartTable(Init()) && PushElement(s, Le(0, 4)) == s.(data := [0, 0, 0, 0], minalign := 4)
    ensures CanEndTable(s, 0) && NewVTable(s, 0) == [4, 0, 4, 0]
  {
    s := StartTable(Init());
    SmallNumbers(0);
    SmallNumbers(4);
    hide Le;
    assert [0, 0, 0, 0] + (Zeros(0) + []) == [0, 0, 0, 0];
    assert VTableBytes(4, 4, [], 4) == [4, 0, 4, 0];
  }

  lemma EmptyTableEnds() returns (s: State)
    ensures CanEndTable(StartTable(Init()), 0) && EndTable(StartTable(Init()), 0) == (s, 4)
    ensures s.data == [4, 0, 4, 0, 4, 0, 0, 0] && s.minalign == 4
  {
    var begun := EmptyTableBegins();
    var existing := EndTableSteps(begun, 0);
    hide Le, PushElement, NewVTable, CanEndTable, EndTable, PatchVTableOffset;
    s := EndTable(begun, 0).0;
    ExamplePatched();
  }

  const EXAMPLE_VTABLE: seq<byte> := [4, 0, 4, 0]

  lemma ExamplePatched()
    ensures PatchVTableOffset(EXAMPLE_VTABLE + [0, 0, 0, 0], 4, 8) == [4, 0, 4, 0, 4, 0, 0, 0]
  {
    SmallNumbers(4);
    hide Le;
    var data := EXAMPLE_VTABLE + [0, 0, 0, 0];
    assert data[..4] == [4, 0, 4, 0] && data[8..] == [];
  }

  /**
   * The smallest buffer there is: the root offset, a vtable without slots, and a table that is no more than
   * the way to its vtable.
   */
  lemma EmptyTable()
    ensures CanEndTable(StartTable(Init()), 0)
    ensures var (s, table) := EndTable(StartTable(Init()), 0);
      && 0 < table <= |s.data| && IsAlignment(s.minalign)
      && Finish(s, table, None, false).data == [8, 0, 0, 0, 4, 0, 4, 0, 4, 0, 0, 0]
  {
    var s := EmptyTableEnds();
    hide Finish, EndTable, CanEndTable, StartTable, Init;
    EmptyTableFinishes(s);
  }

  lemma EmptyTableFinishes(s: State)
    requires s.data == [4, 0, 4, 0, 4, 0, 0, 0] && s.minalign == 4
    ensures Finish(s, 4, None, false).data == [8, 0, 0, 0, 4, 0, 4, 0, 4, 0, 0, 0]
  {
    FinishIs(s, 4, None, false);
    ExampleHeader(s);
    hide Finish, Header, FinishPadding, Padded, HeaderSize;
  }

  lemma ExampleHeader(s: State)
    requires s.data == [4, 0, 4, 0, 4, 0, 0, 0] && s.minalign == 4
    ensures FinishPadding(s, None, false) == 0 && HeaderSize(None, false) == 4
    ensures Padded(Header(12, 4, None, false), 0, s.data) == [8, 0, 0, 0, 4, 0, 4, 0, 4, 0, 0, 0]
  {
    SmallNumbers(8);
    hide Le;
    assert Header(12, 4, None, false) == [8, 0, 0, 0];
  }
}
