/** FlatBufferBuilder as functions on its state; class Builder in BuilderClass.dfy refines them. */
module FlatBuilder {
  import opened Bytes
  import opened Common
  import opened FlatReader
  import opened FlatObjects

  const MAX_BUFFER_SIZE := 0x7FFF_FFFF

  datatype FieldLoc = FieldLoc(off: nat, id: nat)

  datatype State = State(
    data: seq<byte>,          // the bytes written so far, lowest address first
    vtables: seq<nat>,        // scratch: the vtables written so far
    fields: seq<FieldLoc>,    // scratch: the fields of the table being built
    maxVoffset: nat,
    minalign: nat,
    nested: bool,
    finished: bool,
    forceDefaults: bool,
    dedupVtables: bool,
    pool: seq<nat>)           // string_pool, in order of insertion

  function Init(): State {
    State([], [], [], 0, 1, false, false, false, true, [])
  }

  function Max(x: nat, y: nat): nat {
    if x > y then x else y
  }

  function TrackMinAlign(s: State, size: nat): State {
    s.(minalign := Max(s.minalign, size))
  }

  function Push(s: State, bytes: seq<byte>): State {
    s.(data := bytes + s.data)
  }

  function Align(s: State, size: nat): State
    requires IsAlignment(size)
  {
    Push(TrackMinAlign(s, size), Zeros(PaddingBytes(|s.data|, size)))
  }

  function PreAlign(s: State, len: nat, alignment: nat): State
    requires IsAlignment(alignment)
  {
    if len == 0 then s
    else Push(TrackMinAlign(s, alignment), Zeros(PaddingBytes(|s.data| + len, alignment)))
  }

  /** PushElement; the offset it returns is the size afterwards. */
  function PushElement(s: State, bytes: seq<byte>): State
    requires IsAlignment(|bytes|)
  {
    Push(Align(s, |bytes|), bytes)
  }

  function TrackField(s: State, id: nat, off: nat): State {
    s.(fields := s.fields + [FieldLoc(off, id)], maxVoffset := Max(s.maxVoffset, id))
  }

  function AddElement(s: State, id: nat, bytes: seq<byte>, default: seq<byte>): State
    requires IsAlignment(|bytes|)
  {
    if bytes == default && !s.forceDefaults then s
    else
      var s1 := PushElement(s, bytes);
      TrackField(s1, id, |s1.data|)
  }

  /** What is stored for an offset: the distance from where it is stored to the object. */
  function ReferTo(s: State, off: nat): nat
    requires off <= |s.data|
  {
    |s.data| - off + 4
  }

  function AddOffset(s: State, id: nat, off: nat): State
    requires off <= |s.data|
  {
    if off == 0 then s
    else
      var s1 := Align(s, 4);
      AddElement(s1, id, Le(ReferTo(s1, off), 4), Le(0, 4))
  }

  function StartTable(s: State): State {
    s.(nested := true)
  }

  function Patch(s: seq<byte>, i: nat, b: seq<byte>): (r: seq<byte>)
    requires i + |b| <= |s|
    ensures |r| == |s|
  {
    s[..i] + b + s[i + |b|..]
  }

  /** The size of a vtable whose largest field id is maxVoffset, in the 16 bits of a voffset_t. */
  function VTableSize(maxVoffset: nat): nat {
    Max((maxVoffset + 2) % 0x1_0000, 4)
  }

  /** Room for every tracked field in the vtable of its table. */
  predicate FieldsFit(fields: seq<FieldLoc>, size: nat, table: nat) {
    forall i :: 0 <= i < |fields| ==> IsFieldId(fields[i].id) && fields[i].id + 2 <= size && fields[i].off <= table
  }

  /** The loop that writes where each field lies in the table. */
  function WriteSlots(vt: seq<byte>, fields: seq<FieldLoc>, table: nat): (r: seq<byte>)
    requires FieldsFit(fields, |vt|, table)
    ensures |r| == |vt|
  {
    if fields == [] then vt
    else
      var last := fields[|fields| - 1];
      Patch(WriteSlots(vt, fields[..|fields| - 1], table), last.id, Le(table - last.off, 2))
  }

  function VTableBytes(size: nat, objectSize: nat, fields: seq<FieldLoc>, table: nat): (vt: seq<byte>)
    requires size >= 4 && FieldsFit(fields, size, table)
    ensures |vt| == size
  {
    WriteSlots(Le(size, 2) + Le(objectSize, 2) + Zeros(size - 4), fields, table)
  }

  /** The first remembered vtable with exactly these bytes. */
  function FindVTable(data: seq<byte>, vtables: seq<nat>, vt: seq<byte>): (r: Option<nat>)
    ensures r.Some? ==> r.value in vtables && At(data, r.value, vt)
    ensures r.None? ==> forall u :: u in vtables ==> !At(data, u, vt)
  {
    if vtables == [] then None
    else if At(data, vtables[0], vt) then Some(vtables[0])
    else FindVTable(data, vtables[1..], vt)
  }

  /** What EndTable asserts, and what the fields it finds in scratch must satisfy. */
  predicate CanEndTable(s: State, start: nat) {
    && s.nested
    && start <= |s.data|
    && s.maxVoffset < 0xFFFE
    && FieldsFit(s.fields, VTableSize(s.maxVoffset), |s.data|)
    && |PushElement(s, Le(0, 4)).data| - start < 0x1_0000
  }

  function EndTable(s: State, start: nat): (r: (State, nat))
    requires CanEndTable(s, start)
  {
    var s1 := PushElement(s, Le(0, 4));
    var table := |s1.data|;
    var size := VTableSize(s.maxVoffset);
    var vt := VTableBytes(size, table - start, s.fields, table);
    var existing := if s.dedupVtables then FindVTable(vt + s1.data, s.vtables, vt) else None;
    var use := if existing.Some? then existing.value else table + size;
    var data := if existing.Some? then s1.data else vt + s1.data;
    var vtables := if existing.Some? then s.vtables else s.vtables + [use];
    (s1.(data := PatchVTableOffset(data, table, use), vtables := vtables,
         fields := [], maxVoffset := 0, nested := false),
     table)
  }

  /** Fills in the signed distance from the table to its vtable. */
  function PatchVTableOffset(data: seq<byte>, table: nat, use: nat): (r: seq<byte>)
    requires 4 <= table <= |data|
    ensures |r| == |data|
  {
    Patch(data, |data| - table, Le((use - table) % 0x1_0000_0000, 4))
  }

  function CreateString(s: State, chars: seq<byte>): State {
    var s1 := PreAlign(s, |chars| + 1, 4);
    var s2 := Push(Push(s1, Zeros(1)), chars);
    PushElement(s2, Le(|chars|, 4))
  }

  /** The string stored at off: what the comparator of string_pool looks at. */
  function StringBytes(data: seq<byte>, off: nat): seq<byte>
    requires StringAt(data, off)
  {
    DataAt(data, off - 4, UnLe(DataAt(data, off, 4)))
  }

  predicate StringAt(data: seq<byte>, off: nat) {
    4 <= off <= |data| && 4 + UnLe(DataAt(data, off, 4)) <= off
  }

  function FindString(data: seq<byte>, pool: seq<nat>, chars: seq<byte>): (r: Option<nat>)
    ensures r.Some? ==> r.value in pool && StringAt(data, r.value) && StringBytes(data, r.value) == chars
    ensures r.None? ==> forall p :: p in pool && StringAt(data, p) ==> StringBytes(data, p) != chars
  {
    if pool == [] then None
    else if StringAt(data, pool[0]) && StringBytes(data, pool[0]) == chars then Some(pool[0])
    else FindString(data, pool[1..], chars)
  }

  /** CreateSharedString: a string already in the pool is popped again and its old offset returned. */
  function CreateSharedString(s: State, chars: seq<byte>): (State, nat) {
    var s1 := CreateString(s, chars);
    match FindString(s1.data, s.pool, chars)
    case Some(off) => (s1.(data := s.data), off)
    case None => (s1.(pool := s.pool + [|s1.data|]), |s1.data|)
  }

  /** The padding that aligns the whole buffer, and the file identifier. */
  function BeforeHeader(s: State, prefixSize: nat, identifier: seq<byte>): State
    requires IsAlignment(Max(s.minalign, prefixSize))
  {
    var s1 := TrackMinAlign(s.(vtables := []), prefixSize);
    Push(PreAlign(s1, prefixSize + 4 + |identifier|, s1.minalign), identifier)
  }

  function Finish(s: State, root: nat, identifier: Option<seq<byte>>, sizePrefix: bool): State
    requires IsAlignment(s.minalign) && 0 < root <= |s.data|
  {
    var s1 := BeforeHeader(s, if sizePrefix then 4 else 0, if identifier.Some? then identifier.value else []);
    var s2 := Align(s1, 4);
    var s3 := PushElement(s2, Le(ReferTo(s2, root), 4));
    var s4 := if sizePrefix then PushElement(s3, Le(|s3.data|, 4)) else s3;
    s4.(finished := true)
  }

  /** The assertions of Finish: no table is open, a buffer is finished once, and the limit is kept up to the last push. */
  predicate CanFinish(s: State, root: nat, identifier: Option<seq<byte>>, sizePrefix: bool) {
    && !s.finished && !s.nested && s.fields == []
    && IsAlignment(s.minalign) && 0 < root <= |s.data|
    && (identifier.Some? ==> |identifier.value| == 4)
    && |Finish(s, root, identifier, sizePrefix).data| < MAX_BUFFER_SIZE + 4
  }
}
