/**
 * What the builder finishes, the verifier accepts and the accessors read back: completeness of the
 * verifier, and the round trip of values through a schema.
 */
module FlatComplete {
  import opened Bytes
  import opened Common
  import opened FlatReader
  import opened FlatObjects
  import opened FlatAccess
  import opened FlatVerifier
  import opened FlatDecode
  import FlatBuilder
  import FlatBuilderProofs

  /** The fields of v are of the kinds that table type t gives them. */
  ghost predicate Conforms(sc: Schema, t: nat, v: Value)
    requires SchemaOk(sc) && t < |sc|
    decreases v, 1
  {
    && v.VTable?
    && forall i :: 0 <= i < |sc[t]| && sc[t][i].id in v.fields ==> FieldConforms(sc, t, i, v)
  }

  ghost predicate FieldConforms(sc: Schema, t: nat, i: nat, v: Value)
    requires SchemaOk(sc) && t < |sc| && i < |sc[t]| && v.VTable? && sc[t][i].id in v.fields
    decreases v, 0
  {
    assert KindOk(sc, sc[t], i);
    var f := v.fields[sc[t][i].id];
    match sc[t][i].kind
    case ScalarKind(size) => f.Scalar? && |f.bytes| == size
    case StringKind => f.Ref? && f.target.VString?
    case TableKind(member) => f.Ref? && Conforms(sc, member, f.target)
    case UnionKind(typeField, members) =>
      f.Ref? && (NumberIn(v.fields, typeField) in members ==> Conforms(sc, members[NumberIn(v.fields, typeField)], f.target))
  }

  function NumberIn(fields: map<nat, Field>, id: nat): nat {
    if id in fields && fields[id].Scalar? then UnLe(fields[id].bytes) else 0
  }

  /** What the accessors should return for v: the stored values, and defaults for what is not stored. */
  ghost function Typed(sc: Schema, t: nat, v: Value): Rec
    requires SchemaOk(sc) && t < |sc| && Conforms(sc, t, v)
    decreases v, 1, 0
  {
    Rec(TypedFields(sc, t, 0, v))
  }

  ghost function TypedFields(sc: Schema, t: nat, i: nat, v: Value): (r: seq<Accessed>)
    requires SchemaOk(sc) && t < |sc| && i <= |sc[t]| && Conforms(sc, t, v)
    ensures |r| == |sc[t]| - i
    decreases v, 0, |sc[t]| - i, 1
  {
    if i == |sc[t]| then [] else [TypedField(sc, t, i, v)] + TypedFields(sc, t, i + 1, v)
  }

  ghost function TypedField(sc: Schema, t: nat, i: nat, v: Value): Accessed
    requires SchemaOk(sc) && t < |sc| && i < |sc[t]| && Conforms(sc, t, v)
    decreases v, 0, |sc[t]| - i, 0
  {
    assert KindOk(sc, sc[t], i);
    var id := sc[t][i].id;
    assert id in v.fields ==> FieldConforms(sc, t, i, v);
    match sc[t][i].kind
    case ScalarKind(size) => Number(NumberIn(v.fields, id))
    case StringKind => Text(if id in v.fields then Some(v.fields[id].target.chars + [0]) else None)
    case TableKind(member) => Nested(if id in v.fields then Some(Typed(sc, member, v.fields[id].target)) else None)
    case UnionKind(typeField, members) =>
      var ty := NumberIn(v.fields, typeField);
      OneOf(ty, if id in v.fields && ty in members then Some(Typed(sc, members[ty], v.fields[id].target)) else None)
  }

  // ----- one object in a buffer that has something in front of it

  /** A region of the data, seen from the start of the whole buffer, passes the range check. */
  lemma RegionAccepted(front: seq<byte>, data: seq<byte>, off: nat, n: nat)
    requires n <= off <= |data| && |front| > 0
    ensures var buf := front + data; VerifyRange(buf, |buf| - off, n)
  {}

  lemma ScalarAccepted(front: seq<byte>, data: seq<byte>, opts: Options, off: nat, n: nat, align: nat)
    requires n <= off <= |data| && |front| > 0
    requires IsAlignment(n) && IsAlignment(align) && n <= align && Aligned(off, n) && Aligned(|front + data|, align)
    ensures var buf := front + data; VerifyScalar(buf, opts, |buf| - off, n)
  {
    hide Aligned;
    AlignedWeaken(|front + data|, align, n);
    AlignedDifference(|front + data|, off, n);
    RegionAccepted(front, data, off, n);
  }

  lemma StartAcceptedFor(front: seq<byte>, data: seq<byte>, opts: Options, off: nat, fields: map<nat, Field>, align: nat, depth: nat, tables: nat)
    requires ObjAt(data, off, VTable(fields), align) && IsAlignment(align)
    requires |front| > 0 && Aligned(|front + data|, align) && BufferOk(front + data)
    requires Next(depth) <= opts.maxDepth && Next(tables) <= opts.maxTables
    ensures var buf := front + data;
      VerifyTableStart(buf, opts, |buf| - off, depth, tables) == Accept(Next(depth), Next(tables))
  {
    hide Aligned, LowBits, VerifyTableStart, VerifyScalar, VerifyRange, Next;
    var buf := front + data;
    var vt := VTableOf(data, off);
    var size := UnLe(DataAt(data, vt, 2));
    ScalarAccepted(front, data, opts, off, 4, align);
    ScalarAccepted(front, data, opts, vt, 2, align);
    DataAtGrows(front, data, off, 4);
    DataAtGrows(front, data, vt, 2);
    ReadsDataAt(buf, off, 4);
    ReadsDataAt(buf, vt, 2);
    RegionAccepted(front, data, vt, size);
    StartAccepts(buf, opts, |buf| - off, |buf| - vt, size, depth, tables);
  }

  lemma StartAccepts(buf: seq<byte>, opts: Options, table: nat, vtable: nat, size: nat, depth: nat, tables: nat)
    requires VerifyScalar(buf, opts, table, 4) && ReadSigned(buf, table, 4) == Got(table - vtable)
    requires VerifyScalar(buf, opts, vtable, 2) && ReadUnsigned(buf, vtable, 2) == Got(size)
    requires size % 2 == 0 && VerifyRange(buf, vtable, size) && BufferOk(buf)
    requires Next(depth) <= opts.maxDepth && Next(tables) <= opts.maxTables
    ensures VerifyTableStart(buf, opts, table, depth, tables) == Accept(Next(depth), Next(tables))
  {
    hide Aligned, Next, ReadSigned, ReadUnsigned;
    EvenIsAligned(size);
    assert vtable % 0x1_0000_0000_0000_0000 == vtable;
  }

  lemma EvenIsAligned(n: nat)
    requires n % 2 == 0
    ensures Aligned(n, 2)
  {}

  // ----- completeness and round trip

  /** An object of the data, seen from the start of a finished buffer. */
  ghost predicate Placed(front: seq<byte>, data: seq<byte>, opts: Options, off: nat, v: Value, align: nat) {
    && ObjAt(data, off, v, align) && IsAlignment(align)
    && |front| > 0 && Aligned(|front + data|, align)
    && |front + data| <= opts.maxSize && |front + data| < 0x8000_0000
  }

  /** The limits are 32-bit numbers. */
  predicate WidthsOk(opts: Options) {
    opts.maxDepth < COUNTERS && opts.maxTables < COUNTERS
  }

  lemma {:induction false} TableComplete(sc: Schema, t: nat, front: seq<byte>, data: seq<byte>, opts: Options, off: nat, v: Value, align: nat, depth: nat, tables: nat)
    requires SchemaOk(sc) && t < |sc| && Conforms(sc, t, v)
    requires Placed(front, data, opts, off, v, align) && WidthsOk(opts)
    requires depth + Height(Typed(sc, t, v)) <= opts.maxDepth && tables + Count(Typed(sc, t, v)) <= opts.maxTables
    ensures var buf := front + data; var rec := Typed(sc, t, v);
      && VerifyTable(sc, t, buf, opts, |buf| - off, depth, tables) == Accept(depth, tables + Count(rec))
      && Decode(sc, t, buf, |buf| - off) == Got(rec)
    decreases v, 2, 0
  {
    hide Placed, VerifyTable, VerifyTableStart, VerifyFields, Decode, DecodeFields, Typed, TypedFields, Height, HeightOf, Count, CountOf, Conforms, Next;
    TypedIs(sc, t, v);
    StartPlaced(front, data, opts, off, v, align, depth, tables);
    FieldsComplete(sc, t, 0, front, data, opts, off, v, align, depth + 1, tables + 1);
    var buf := front + data;
    TableFromFields(sc, t, buf, opts, |buf| - off, depth, tables, TypedFields(sc, t, 0, v));
  }

  lemma TypedIs(sc: Schema, t: nat, v: Value)
    requires SchemaOk(sc) && t < |sc| && Conforms(sc, t, v)
    ensures v.VTable?
    ensures var rec := Typed(sc, t, v); var fields := TypedFields(sc, t, 0, v);
      rec == Rec(fields) && Height(rec) == 1 + HeightOf(fields) && Count(rec) == 1 + CountOf(fields)
  {
    hide TypedFields, HeightOf, CountOf, FieldConforms, SchemaOk;
  }

  lemma TableFromFields(sc: Schema, t: nat, buf: seq<byte>, opts: Options, table: nat, depth: nat, tables: nat, fields: seq<Accessed>)
    requires SchemaOk(sc) && t < |sc| && table <= |buf| && depth < 0xFFFF_FFFF
    requires VerifyTableStart(buf, opts, table, depth, tables) == Accept(depth + 1, tables + 1)
    requires VerifyFields(sc, t, 0, buf, opts, table, depth + 1, tables + 1) == Accept(depth + 1, tables + 1 + CountOf(fields))
    requires DecodeFields(sc, t, 0, buf, table) == Got(fields)
    ensures VerifyTable(sc, t, buf, opts, table, depth, tables) == Accept(depth, tables + Count(Rec(fields)))
    ensures Decode(sc, t, buf, table) == Got(Rec(fields))
  {
    hide VerifyTableStart, VerifyFields, DecodeFields, CountOf, SchemaOk;
  }

  lemma StartPlaced(front: seq<byte>, data: seq<byte>, opts: Options, off: nat, v: Value, align: nat, depth: nat, tables: nat)
    requires Placed(front, data, opts, off, v, align) && v.VTable? && WidthsOk(opts)
    requires depth + 1 <= opts.maxDepth && tables + 1 <= opts.maxTables
    ensures off <= |data|
    ensures var buf := front + data;
      VerifyTableStart(buf, opts, |buf| - off, depth, tables) == Accept(depth + 1, tables + 1)
  {
    hide ObjAt, Aligned, VerifyTableStart;
    ObjInside(data, off, v, align);
    StartAcceptedFor(front, data, opts, off, v.fields, align, depth, tables);
  }

  lemma {:induction false} FieldsComplete(sc: Schema, t: nat, i: nat, front: seq<byte>, data: seq<byte>, opts: Options, off: nat, v: Value, align: nat, depth: nat, tables: nat)
    requires SchemaOk(sc) && t < |sc| && i <= |sc[t]| && Conforms(sc, t, v)
    requires Placed(front, data, opts, off, v, align) && WidthsOk(opts) && off <= |data|
    requires depth + HeightOf(TypedFields(sc, t, i, v)) <= opts.maxDepth
    requires tables + CountOf(TypedFields(sc, t, i, v)) <= opts.maxTables
    ensures var buf := front + data; var fields := TypedFields(sc, t, i, v);
      && VerifyFields(sc, t, i, buf, opts, |buf| - off, depth, tables) == Accept(depth, tables + CountOf(fields))
      && DecodeFields(sc, t, i, buf, |buf| - off) == Got(fields)
    decreases v, 1, |sc[t]| - i, 1
  {
    hide Placed, VerifyFieldDef, DecodeField, TypedField, AccessedHeight, AccessedCount, Conforms;
    if i == |sc[t]| {
    } else {
      FieldComplete(sc, t, i, front, data, opts, off, v, align, depth, tables);
      FieldsComplete(sc, t, i + 1, front, data, opts, off, v, align, depth, tables + AccessedCount(TypedField(sc, t, i, v)));
    }
  }

  lemma {:induction false} FieldComplete(sc: Schema, t: nat, i: nat, front: seq<byte>, data: seq<byte>, opts: Options, off: nat, v: Value, align: nat, depth: nat, tables: nat)
    requires SchemaOk(sc) && t < |sc| && i < |sc[t]| && Conforms(sc, t, v)
    requires Placed(front, data, opts, off, v, align) && WidthsOk(opts) && off <= |data|
    requires depth + AccessedHeight(TypedField(sc, t, i, v)) <= opts.maxDepth
    requires tables + AccessedCount(TypedField(sc, t, i, v)) <= opts.maxTables
    ensures var buf := front + data; var c := TypedField(sc, t, i, v);
      && VerifyFieldDef(sc, t, i, buf, opts, |buf| - off, depth, tables) == Accept(depth, tables + AccessedCount(c))
      && DecodeField(sc, t, i, buf, |buf| - off) == Got(c)
    decreases v, 1, |sc[t]| - i, 0
  {
    hide ObjAt, FieldAt, Aligned, VerifyTable, Decode, Typed, Height, Count, VerifyString, ReadCString, GetField, GetPointer, GetOptionalFieldOffset, VerifyOffset, VerifyScalar;
    assert KindOk(sc, sc[t], i);
    var buf := front + data;
    var id := sc[t][i].id;
    var kind := sc[t][i].kind;
    ObjGrows(front, data, off, v, align, align);
    if id !in v.fields {
      ReadsAbsent(buf, off, v.fields, id, align);
      AbsentReads(buf, |buf| - off, id, kind);
      if kind.UnionKind? {
        TypeFieldReads(sc, t, i, buf, off, v, align);
      }
    } else {
      assert FieldConforms(sc, t, i, v);
      var slot, at := PlacedField(front, data, opts, off, v.fields, id, align);
      if kind.ScalarKind? {
        ScalarPlaced(front, data, opts, at, v.fields[id], align);
        ReadsScalar(buf, off, v.fields, id, kind.size, 0, align);
      } else {
        var o, target := RefPlaced(front, data, opts, off, slot, at, id, v.fields[id].target, align);
        assert |buf| - off + slot == |buf| - at && |buf| - at + o == |buf| - target;
        match kind
        case StringKind =>
          StringPlaced(front, data, opts, target, v.fields[id].target.chars, align);
        case TableKind(member) =>
          TableComplete(sc, member, front, data, opts, target, v.fields[id].target, align, depth, tables);
        case UnionKind(typeField, members) =>
          TypeFieldReads(sc, t, i, buf, off, v, align);
          var ty := NumberIn(v.fields, typeField);
          if ty in members {
            TableComplete(sc, members[ty], front, data, opts, target, v.fields[id].target, align, depth, tables);
          }
      }
    }
  }

  lemma AbsentReads(buf: seq<byte>, table: int, id: nat, kind: Kind)
    requires GetOptionalFieldOffset(buf, table, id) == Got(0)
    ensures GetPointer(buf, table, id) == Got(None)
    ensures kind.ScalarKind? ==> GetField(buf, table, id, kind.size, 0) == Got(0)
  {
    hide GetOptionalFieldOffset;
  }

  /** The type field of a union reads as the number stored in it, or 0. */
  lemma TypeFieldReads(sc: Schema, t: nat, i: nat, buf: seq<byte>, off: nat, v: Value, align: nat)
    requires SchemaOk(sc) && t < |sc| && i < |sc[t]| && Conforms(sc, t, v) && sc[t][i].kind.UnionKind?
    requires ObjAt(buf, off, v, align)
    ensures GetField(buf, |buf| - off, sc[t][i].kind.typeField, 1, 0) == Got(NumberIn(v.fields, sc[t][i].kind.typeField))
  {
    hide ObjAt, GetField;
    assert KindOk(sc, sc[t], i);
    var typeField := sc[t][i].kind.typeField;
    var j :| 0 <= j < i && sc[t][j] == FieldDef(typeField, ScalarKind(1));
    assert typeField in v.fields ==> FieldConforms(sc, t, j, v);
    ReadsScalar(buf, off, v.fields, typeField, 1, 0, align);
  }

  lemma PlacedField(front: seq<byte>, data: seq<byte>, opts: Options, off: nat, fields: map<nat, Field>, id: nat, align: nat) returns (slot: nat, at: nat)
    requires Placed(front, data, opts, off, VTable(fields), align) && id in fields
    ensures 0 < slot < off <= |data| && at == off - slot && FieldAt(data, at, fields[id], align)
    ensures var buf := front + data; GetOptionalFieldOffset(buf, |buf| - off, id) == Got(slot)
  {
    hide Aligned, FieldAt, ObjAt, GetOptionalFieldOffset;
    slot, at := FieldPosition(data, off, fields, id, align);
    SlotStays(front, data, off, fields, id, align);
  }

  lemma SlotStays(front: seq<byte>, data: seq<byte>, off: nat, fields: map<nat, Field>, id: nat, align: nat)
    requires ObjAt(data, off, VTable(fields), align) && id in fields
    ensures off <= |data|
    ensures var buf := front + data;
      GetOptionalFieldOffset(buf, |buf| - off, id) == GetOptionalFieldOffset(data, |data| - off, id)
  {
    hide Aligned, FieldAt, GetOptionalFieldOffset, DataAt, SlotAt, VTableAt;
    var buf := front + data;
    DataAtGrows(front, data, off, 4);
    VTableGrows(front, data, VTableOf(data, off));
    ReadsSlot(data, off, fields, id, align);
    assert ObjAt(buf, off, VTable(fields), align) by {
      ObjGrows(front, data, off, VTable(fields), align, align);
    }
    ReadsSlot(buf, off, fields, id, align);
  }

  lemma ScalarPlaced(front: seq<byte>, data: seq<byte>, opts: Options, at: nat, f: Field, align: nat)
    requires f.Scalar? && FieldAt(data, at, f, align) && IsAlignment(align)
    requires |front| > 0 && Aligned(|front + data|, align)
    ensures var buf := front + data; at <= |data| && VerifyScalar(buf, opts, |buf| - at, |f.bytes|)
  {
    hide Aligned;
    ScalarAccepted(front, data, opts, at, |f.bytes|, align);
  }

  /** A stored offset passes, and leads to its object for the verifier and the accessor alike. */
  lemma RefPlaced(front: seq<byte>, data: seq<byte>, opts: Options, off: nat, slot: nat, at: nat, id: nat, v: Value, align: nat)
    returns (o: nat, target: nat)
    requires FieldAt(data, at, Ref(v), align) && IsAlignment(align)
    requires |front| > 0 && Aligned(|front + data|, align) && |front + data| <= opts.maxSize && |front + data| < 0x8000_0000
    requires 0 < slot < off <= |data| && at == off - slot
    requires var buf := front + data; GetOptionalFieldOffset(buf, |buf| - off, id) == Got(slot)
    ensures 0 < o && target == at - o && Placed(front, data, opts, target, v, align)
    ensures var buf := front + data;
      && VerifyOffset(buf, opts, |buf| - at) == Got(o)
      && GetPointer(buf, |buf| - off, id) == Got(Some(|buf| - target))
  {
    hide Aligned, ObjAt, GetOptionalFieldOffset;
    var buf := front + data;
    o := UnLe(DataAt(data, at, 4));
    target := at - o;
    ObjInside(data, target, v, align);
    DataAtGrows(front, data, at, 4);
    ReadsDataAt(buf, at, 4);
    ScalarAccepted(front, data, opts, at, 4, align);
    RegionAccepted(front, data, target, 1);
    assert |buf| - at + o == |buf| - target;
    assert |buf| - off + slot == |buf| - at;
  }

  lemma StringPlaced(front: seq<byte>, data: seq<byte>, opts: Options, off: nat, chars: seq<byte>, align: nat)
    requires Placed(front, data, opts, off, VString(chars), align)
    ensures off <= |data|
    ensures var buf := front + data;
      && VerifyString(buf, opts, |buf| - off) == Got(true)
      && ReadCString(buf, |buf| - off) == Got(chars + [0])
  {
    hide Aligned;
    var buf := front + data;
    ObjGrows(front, data, off, VString(chars), align, align);
    ReadsCString(buf, off, chars, align);
    ScalarAccepted(front, data, opts, off, 4, align);
    RegionAccepted(front, data, off, 4 + |chars|);
    RegionAccepted(front, data, off - 4 - |chars|, 1);
    var end := |buf| - off + 4 + |chars|;
    var s := chars + [0];
    assert buf[end] == s[|chars|] == 0;
    assert buf[end..end + 1] == [0];
  }

  /**
   * A finished buffer is accepted, alignment checks included, and reads back as the value its root was
   * built from: behind a size prefix, too.
   */
  lemma FinishedIsAccepted(sc: Schema, t: nat, s: FlatBuilder.State, root: nat, v: Value, opts: Options,
                           identifier: Option<seq<byte>>, sizePrefix: bool)
    requires SchemaOk(sc) && t < |sc| && Conforms(sc, t, v)
    requires ObjAt(s.data, root, v, s.minalign) && IsAlignment(s.minalign) && 0 < root <= |s.data|
    requires identifier.Some? ==> |identifier.value| == 4
    requires 8 <= |s.data| && |FlatBuilder.Finish(s, root, identifier, sizePrefix).data| < 0x8000_0000
    requires |FlatBuilder.Finish(s, root, identifier, sizePrefix).data| <= opts.maxSize && WidthsOk(opts)
    requires Height(Typed(sc, t, v)) <= opts.maxDepth && Count(Typed(sc, t, v)) <= opts.maxTables
    ensures var buf := FlatBuilder.Finish(s, root, identifier, sizePrefix).data; var rec := Typed(sc, t, v);
      if sizePrefix
      then && VerifySizePrefixedBuffer(sc, t, buf, opts) == Accept(0, Count(rec))
           && GetSizePrefixedRoot(buf).Got? && GetSizePrefixedRoot(buf).value >= 0
           && Decode(sc, t, buf, GetSizePrefixedRoot(buf).value) == Got(rec)
      else && VerifyBuffer(sc, t, buf, opts) == Accept(0, Count(rec))
           && GetRoot(buf).Got? && GetRoot(buf).value >= 0
           && Decode(sc, t, buf, GetRoot(buf).value) == Got(rec)
  {
    hide ObjAt, Aligned, FlatBuilder.Finish, VerifyTable, Decode, Typed, Height, Count, Conforms;
    FlatBuilderProofs.FinishIsLonger(s, root, identifier, sizePrefix);
    FlatBuilderProofs.FinishBuilds(s, root, v, identifier, sizePrefix);
    var buf := FlatBuilder.Finish(s, root, identifier, sizePrefix).data;
    var front := buf[..|buf| - |s.data|];
    FlatBuilderProofs.ExtendsSplits(s, FlatBuilder.Finish(s, root, identifier, sizePrefix));
    TableComplete(sc, t, front, s.data, opts, root, v, s.minalign, 0, 0);
    RootAccepted(sc, t, buf, opts, |buf| - root, if sizePrefix then 4 else 0, s.minalign);
  }

  lemma RootAccepted(sc: Schema, t: nat, buf: seq<byte>, opts: Options, table: nat, start: nat, align: nat)
    requires SchemaOk(sc) && t < |sc| && 12 <= |buf| < 0x8000_0000
    requires start == 0 || start == 4
    requires start < table < |buf| && ReadUnsigned(buf, start, 4) == Got(table - start)
    ensures VerifyBufferFromStart(sc, t, buf, opts, start) == VerifyTable(sc, t, buf, opts, table, 0, 0)
    ensures ReadUnsigned(buf, 0, 4) == Got(|buf| - 4) && start == 4 ==>
      VerifySizePrefixedBuffer(sc, t, buf, opts) == VerifyTable(sc, t, buf, opts, table, 0, 0)
  {
    hide VerifyTable, ReadUnsigned;
    assert Aligned(0, 4) && Aligned(4, 4);
  }
}
