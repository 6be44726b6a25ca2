/**
 * Exactly which byte strings the verifier accepts. What it checks is stated here once more, on the bytes
 * alone: where each scalar, offset, string and vtable may lie, without counters and in no particular order.
 */
module FlatExact {
  import opened Bytes
  import opened Common
  import opened FlatReader
  import opened FlatObjects
  import opened FlatVerifier
  import opened FlatDecode

  /** The n bytes at pos are in the buffer, and are not the whole of it. */
  predicate InBuffer(buf: seq<byte>, pos: int, n: nat) {
    0 <= pos && pos + n <= |buf| && n < |buf|
  }

  /** A scalar of n bytes at pos: inside the buffer, and aligned to its size where alignment is asked for. */
  predicate ScalarOk(buf: seq<byte>, checkAlignment: bool, pos: int, n: nat)
    requires IsAlignment(n)
  {
    InBuffer(buf, pos, n) && (checkAlignment ==> pos % n == 0)
  }

  function NumberAt(buf: seq<byte>, pos: int, n: nat): (v: nat)
    requires InBuffer(buf, pos, n)
    ensures v < Pow256(n)
  {
    UnLeBound(buf[pos..pos + n]);
    UnLe(buf[pos..pos + n])
  }

  /** An offset stored at pos: it is not 0, has no sign bit, and leads to a byte of the buffer. */
  predicate OffsetOk(buf: seq<byte>, checkAlignment: bool, pos: int) {
    && ScalarOk(buf, checkAlignment, pos, 4)
    && 0 < NumberAt(buf, pos, 4) < 0x8000_0000
    && InBuffer(buf, pos + NumberAt(buf, pos, 4), 1)
  }

  /** A string: its size, below the limit, its characters, and a zero byte. */
  predicate StringOk(buf: seq<byte>, opts: Options, pos: int) {
    && ScalarOk(buf, opts.checkAlignment, pos, 4)
    && var size := NumberAt(buf, pos, 4);
    && size < opts.maxSize
    && InBuffer(buf, pos, 4 + size) && InBuffer(buf, pos + 4 + size, 1)
    && buf[pos + 4 + size] == 0
  }

  /** A table's vtable: its distance is the table's first scalar, its size the first of its own, and even. */
  predicate VTableOk(buf: seq<byte>, checkAlignment: bool, table: int) {
    && ScalarOk(buf, checkAlignment, table, 4)
    && var vtable := table - ToSigned(NumberAt(buf, table, 4), 4);
    && ScalarOk(buf, checkAlignment, vtable, 2)
    && NumberAt(buf, vtable, 2) % 2 == 0
    && InBuffer(buf, vtable, NumberAt(buf, vtable, 2))
  }

  /** A table of type t with all its fields, and with the tables they lead to. */
  predicate TableOk(sc: Schema, t: nat, buf: seq<byte>, opts: Options, table: nat)
    requires SchemaOk(sc) && t < |sc|
    decreases Left(buf, table), 1
  {
    VTableOk(buf, opts.checkAlignment, table) && forall i :: 0 <= i < |sc[t]| ==> FieldOk(sc, t, i, buf, opts, table)
  }

  predicate FieldOk(sc: Schema, t: nat, i: nat, buf: seq<byte>, opts: Options, table: nat)
    requires SchemaOk(sc) && t < |sc| && i < |sc[t]|
    decreases Left(buf, table), 0
  {
    assert KindOk(sc, sc[t], i);
    match GetOptionalFieldOffset(buf, table, sc[t][i].id)
    case Fault => false
    case Got(offset) =>
      var at := table + offset;
      offset == 0 ||
      match sc[t][i].kind
      case ScalarKind(size) => ScalarOk(buf, opts.checkAlignment, at, size)
      case StringKind => OffsetOk(buf, opts.checkAlignment, at) && StringOk(buf, opts, at + NumberAt(buf, at, 4))
      case TableKind(member) => OffsetOk(buf, opts.checkAlignment, at) && TableOk(sc, member, buf, opts, at + NumberAt(buf, at, 4))
      case UnionKind(typeField, members) =>
        OffsetOk(buf, opts.checkAlignment, at) &&
        match GetField(buf, table, typeField, 1, 0)
        case Fault => false
        case Got(ty) => ty in members ==> TableOk(sc, members[ty], buf, opts, at + NumberAt(buf, at, 4))
  }

  // ----- the checks of the verifier, one by one

  lemma NumberIsRead(buf: seq<byte>, pos: nat, n: nat)
    requires InBuffer(buf, pos, n)
    ensures ReadUnsigned(buf, pos, n) == Got(NumberAt(buf, pos, n))
    ensures ReadSigned(buf, pos, n) == Got(ToSigned(NumberAt(buf, pos, n), n))
  {}

  lemma ScalarExact(buf: seq<byte>, opts: Options, pos: nat, n: nat)
    requires IsAlignment(n)
    ensures VerifyScalar(buf, opts, pos, n) <==> ScalarOk(buf, opts.checkAlignment, pos, n)
    ensures ScalarOk(buf, opts.checkAlignment, pos, n) ==> ReadUnsigned(buf, pos, n) == Got(NumberAt(buf, pos, n))
  {
    AlignedIsMultiple(pos, n);
    hide Aligned, IsAlignment;
  }

  lemma OffsetExact(buf: seq<byte>, opts: Options, start: nat)
    ensures VerifyOffset(buf, opts, start).Got?
    ensures VerifyOffset(buf, opts, start).value != 0 <==> OffsetOk(buf, opts.checkAlignment, start)
    ensures OffsetOk(buf, opts.checkAlignment, start) ==> VerifyOffset(buf, opts, start).value == NumberAt(buf, start, 4)
  {
    ScalarExact(buf, opts, start, 4);
    hide VerifyScalar, ScalarOk, ReadUnsigned, NumberAt;
  }

  lemma StringExact(buf: seq<byte>, opts: Options, pos: nat)
    ensures VerifyString(buf, opts, pos).Got?
    ensures VerifyString(buf, opts, pos) == Got(true) <==> StringOk(buf, opts, pos)
  {
    ScalarExact(buf, opts, pos, 4);
    if ScalarOk(buf, opts.checkAlignment, pos, 4) {
      var end := pos + 4 + NumberAt(buf, pos, 4);
      if InBuffer(buf, end, 1) {
        NumberIsRead(buf, end, 1);
        assert buf[end..end + 1] == [buf[end]];
        assert UnLe([buf[end]]) == buf[end];
      }
    }
    hide VerifyScalar, ScalarOk, ReadUnsigned, NumberAt;
  }

  lemma StartExact(buf: seq<byte>, opts: Options, table: nat, depth: nat, tables: nat)
    requires BufferOk(buf)
    ensures VerifyTableStart(buf, opts, table, depth, tables).Accept? <==>
      VTableOk(buf, opts.checkAlignment, table) && Next(depth) <= opts.maxDepth && Next(tables) <= opts.maxTables
  {
    hide Next;
    Pow256Values();
    ScalarExact(buf, opts, table, 4);
    if ScalarOk(buf, opts.checkAlignment, table, 4) {
      NumberIsRead(buf, table, 4);
      var vtable := table - ToSigned(NumberAt(buf, table, 4), 4);
      var wrapped := vtable % 0x1_0000_0000_0000_0000;
      ScalarExact(buf, opts, wrapped, 2);
      if ScalarOk(buf, opts.checkAlignment, wrapped, 2) {
        WrapIsInside(buf, vtable);
        EvenAligned(opts, NumberAt(buf, vtable, 2));
      } else if ScalarOk(buf, opts.checkAlignment, vtable, 2) {
        WrapNothing(buf, vtable);
      }
    }
    hide VerifyScalar, ScalarOk, ReadUnsigned, ReadSigned, NumberAt, ToSigned, VerifyAlignment;
  }

  lemma EvenAligned(opts: Options, n: nat)
    ensures VerifyAlignment(opts, n, 2) && n % 2 == 0 <==> n % 2 == 0
  {}

  lemma WrapNothing(buf: seq<byte>, vtable: int)
    requires BufferOk(buf) && InBuffer(buf, vtable, 2)
    ensures vtable % 0x1_0000_0000_0000_0000 == vtable
  {}

  // ----- what is accepted is inside

  lemma {:induction false} TableAccepted(sc: Schema, t: nat, buf: seq<byte>, opts: Options, table: nat, depth: nat, tables: nat)
    requires SchemaOk(sc) && t < |sc| && table <= |buf| && BufferOk(buf)
    ensures VerifyTable(sc, t, buf, opts, table, depth, tables).Accept? ==> TableOk(sc, t, buf, opts, table)
    decreases |buf| - table, 2, 0
  {
    hide VerifyTableStart, VerifyFields, FieldOk, VTableOk;
    StartExact(buf, opts, table, depth, tables);
    match VerifyTableStart(buf, opts, table, depth, tables)
    case Accept(depth', tables') => FieldsAccepted(sc, t, 0, buf, opts, table, depth', tables');
    case _ =>
  }

  lemma {:induction false} FieldsAccepted(sc: Schema, t: nat, i: nat, buf: seq<byte>, opts: Options, table: nat, depth: nat, tables: nat)
    requires SchemaOk(sc) && t < |sc| && i <= |sc[t]| && table <= |buf| && BufferOk(buf)
    ensures VerifyFields(sc, t, i, buf, opts, table, depth, tables).Accept? ==>
      forall j :: i <= j < |sc[t]| ==> FieldOk(sc, t, j, buf, opts, table)
    decreases |buf| - table, 1, |sc[t]| - i
  {
    hide VerifyFieldDef, FieldOk;
    if i < |sc[t]| {
      FieldAccepted(sc, t, i, buf, opts, table, depth, tables);
      match VerifyFieldDef(sc, t, i, buf, opts, table, depth, tables)
      case Accept(depth', tables') => FieldsAccepted(sc, t, i + 1, buf, opts, table, depth', tables');
      case _ =>
    }
  }

  lemma {:induction false} FieldAccepted(sc: Schema, t: nat, i: nat, buf: seq<byte>, opts: Options, table: nat, depth: nat, tables: nat)
    requires SchemaOk(sc) && t < |sc| && i < |sc[t]| && table <= |buf| && BufferOk(buf)
    ensures VerifyFieldDef(sc, t, i, buf, opts, table, depth, tables).Accept? ==> FieldOk(sc, t, i, buf, opts, table)
    decreases |buf| - table, 1, |sc[t]| - i, 0
  {
    hide VerifyTable, TableOk, GetOptionalFieldOffset, GetField, VerifyOffset, VerifyString, StringOk, VerifyScalar, ScalarOk, NumberAt;
    assert KindOk(sc, sc[t], i);
    var def := sc[t][i];
    var offset := GetOptionalFieldOffset(buf, table, def.id);
    if offset.Got? && offset.value != 0 {
      var at := table + offset.value;
      if def.kind.ScalarKind? {
        ScalarExact(buf, opts, at, def.kind.size);
      } else {
        OffsetExact(buf, opts, at);
        var o := VerifyOffset(buf, opts, at).value;
        if o != 0 {
          match def.kind
          case StringKind => StringExact(buf, opts, at + o);
          case TableKind(member) => TableAccepted(sc, member, buf, opts, at + o, depth, tables);
          case UnionKind(typeField, members) =>
            match GetField(buf, table, typeField, 1, 0)
            case Fault =>
            case Got(ty) =>
              if ty in members {
                TableAccepted(sc, members[ty], buf, opts, at + o, depth, tables);
              }
        }
      }
    }
  }

  // ----- what is inside is read, and accepted within the limits

  lemma {:induction false} TableReads(sc: Schema, t: nat, buf: seq<byte>, opts: Options, table: nat)
    requires SchemaOk(sc) && t < |sc| && TableOk(sc, t, buf, opts, table)
    ensures table < |buf| && Decode(sc, t, buf, table).Got?
    decreases Left(buf, table), 2, 0
  {
    hide DecodeFields, FieldOk;
    FieldsRead(sc, t, 0, buf, opts, table);
  }

  lemma {:induction false} FieldsRead(sc: Schema, t: nat, i: nat, buf: seq<byte>, opts: Options, table: nat)
    requires SchemaOk(sc) && t < |sc| && i <= |sc[t]| && table < |buf|
    requires forall j :: 0 <= j < |sc[t]| ==> FieldOk(sc, t, j, buf, opts, table)
    ensures DecodeFields(sc, t, i, buf, table).Got?
    decreases Left(buf, table), 1, |sc[t]| - i
  {
    hide DecodeField, FieldOk;
    if i < |sc[t]| {
      FieldReads(sc, t, i, buf, opts, table);
      FieldsRead(sc, t, i + 1, buf, opts, table);
    }
  }

  lemma {:induction false} FieldReads(sc: Schema, t: nat, i: nat, buf: seq<byte>, opts: Options, table: nat)
    requires SchemaOk(sc) && t < |sc| && i < |sc[t]| && table < |buf|
    requires forall j :: 0 <= j < |sc[t]| ==> FieldOk(sc, t, j, buf, opts, table)
    ensures DecodeField(sc, t, i, buf, table).Got?
    decreases Left(buf, table), 1, |sc[t]| - i, 0
  {
    hide Decode, TableOk, GetOptionalFieldOffset, ReadUnsigned, ReadCString, StringOk, NumberAt;
    assert KindOk(sc, sc[t], i) && FieldOk(sc, t, i, buf, opts, table);
    var def := sc[t][i];
    var offset := GetOptionalFieldOffset(buf, table, def.id).value;
    var at := table + offset;
    if offset != 0 {
      if def.kind.ScalarKind? {
        NumberIsRead(buf, at, def.kind.size);
      } else {
        NumberIsRead(buf, at, 4);
        var p := at + NumberAt(buf, at, 4);
        match def.kind
        case StringKind => StringReads(buf, opts, p);
        case TableKind(member) => TableReads(sc, member, buf, opts, p);
        case UnionKind(typeField, members) =>
          var ty := GetField(buf, table, typeField, 1, 0).value;
          if ty in members {
            TableReads(sc, members[ty], buf, opts, p);
          }
      }
    } else if def.kind.UnionKind? {
      TypeFieldIsRead(sc, t, i, buf, opts, table);
    }
  }

  /** The type field of a union is one of the scalars that are inside. */
  lemma TypeFieldIsRead(sc: Schema, t: nat, i: nat, buf: seq<byte>, opts: Options, table: nat)
    requires SchemaOk(sc) && t < |sc| && i < |sc[t]| && table < |buf| && sc[t][i].kind.UnionKind?
    requires forall j :: 0 <= j < |sc[t]| ==> FieldOk(sc, t, j, buf, opts, table)
    ensures GetField(buf, table, sc[t][i].kind.typeField, 1, 0).Got?
  {
    hide TableOk, GetOptionalFieldOffset, ReadUnsigned, StringOk, NumberAt;
    assert KindOk(sc, sc[t], i);
    var typeField := sc[t][i].kind.typeField;
    var j :| 0 <= j < i && sc[t][j] == FieldDef(typeField, ScalarKind(1));
    assert FieldOk(sc, t, j, buf, opts, table);
    var offset := GetOptionalFieldOffset(buf, table, typeField).value;
    if offset != 0 {
      NumberIsRead(buf, table + offset, 1);
    }
  }

  lemma StringReads(buf: seq<byte>, opts: Options, pos: nat)
    requires StringOk(buf, opts, pos)
    ensures ReadCString(buf, pos).Got?
  {
    NumberIsRead(buf, pos, 4);
    hide NumberAt, ReadUnsigned;
  }

  lemma {:induction false} TableAdmitted(sc: Schema, t: nat, buf: seq<byte>, opts: Options, table: nat, depth: nat, tables: nat)
    requires SchemaOk(sc) && t < |sc| && BufferOk(buf) && LimitsOk(opts) && TableOk(sc, t, buf, opts, table)
    requires table < |buf| && Decode(sc, t, buf, table).Got?
    requires var rec := Decode(sc, t, buf, table).value; depth + Height(rec) <= opts.maxDepth && tables + Count(rec) <= opts.maxTables
    ensures VerifyTable(sc, t, buf, opts, table, depth, tables) == Accept(depth, tables + Count(Decode(sc, t, buf, table).value))
    decreases |buf| - table, 2, 0
  {
    hide VerifyTableStart, VerifyFields, DecodeFields, FieldOk, VTableOk, HeightOf, CountOf;
    StartAccepted(buf, opts, table, depth, tables);
    StartExact(buf, opts, table, depth, tables);
    FieldsAdmitted(sc, t, 0, buf, opts, table, depth + 1, tables + 1);
  }

  lemma {:induction false} FieldsAdmitted(sc: Schema, t: nat, i: nat, buf: seq<byte>, opts: Options, table: nat, depth: nat, tables: nat)
    requires SchemaOk(sc) && t < |sc| && i <= |sc[t]| && table < |buf| && BufferOk(buf) && LimitsOk(opts)
    requires forall j :: 0 <= j < |sc[t]| ==> FieldOk(sc, t, j, buf, opts, table)
    requires DecodeFields(sc, t, i, buf, table).Got?
    requires var fields := DecodeFields(sc, t, i, buf, table).value;
      depth + HeightOf(fields) <= opts.maxDepth && tables + CountOf(fields) <= opts.maxTables
    ensures VerifyFields(sc, t, i, buf, opts, table, depth, tables) == Accept(depth, tables + CountOf(DecodeFields(sc, t, i, buf, table).value))
    decreases |buf| - table, 1, |sc[t]| - i
  {
    hide VerifyFieldDef, DecodeField, FieldOk, AccessedHeight, AccessedCount;
    if i < |sc[t]| {
      var c := DecodeField(sc, t, i, buf, table).value;
      var rest := DecodeFields(sc, t, i + 1, buf, table).value;
      assert ([c] + rest)[1..] == rest;
      FieldAdmitted(sc, t, i, buf, opts, table, depth, tables);
      FieldsAdmitted(sc, t, i + 1, buf, opts, table, depth, tables + AccessedCount(c));
    }
  }

  lemma {:induction false} FieldAdmitted(sc: Schema, t: nat, i: nat, buf: seq<byte>, opts: Options, table: nat, depth: nat, tables: nat)
    requires SchemaOk(sc) && t < |sc| && i < |sc[t]| && table < |buf| && BufferOk(buf) && LimitsOk(opts)
    requires forall j :: 0 <= j < |sc[t]| ==> FieldOk(sc, t, j, buf, opts, table)
    requires DecodeField(sc, t, i, buf, table).Got?
    requires var c := DecodeField(sc, t, i, buf, table).value;
      depth + AccessedHeight(c) <= opts.maxDepth && tables + AccessedCount(c) <= opts.maxTables
    ensures VerifyFieldDef(sc, t, i, buf, opts, table, depth, tables) ==
      Accept(depth, tables + AccessedCount(DecodeField(sc, t, i, buf, table).value))
    decreases |buf| - table, 1, |sc[t]| - i, 0
  {
    hide VerifyTable, Decode, TableOk, GetOptionalFieldOffset, ReadUnsigned, ReadCString, VerifyOffset, VerifyString, VerifyScalar, StringOk, NumberAt, Height, Count;
    assert KindOk(sc, sc[t], i) && FieldOk(sc, t, i, buf, opts, table);
    var def := sc[t][i];
    var offset := GetOptionalFieldOffset(buf, table, def.id).value;
    var at := table + offset;
    if offset != 0 {
      if def.kind.ScalarKind? {
        ScalarExact(buf, opts, at, def.kind.size);
      } else {
        OffsetExact(buf, opts, at);
        NumberIsRead(buf, at, 4);
        var p := at + NumberAt(buf, at, 4);
        match def.kind
        case StringKind => StringExact(buf, opts, p);
        case TableKind(member) => TableAdmitted(sc, member, buf, opts, p, depth, tables);
        case UnionKind(typeField, members) =>
          var ty := GetField(buf, table, typeField, 1, 0).value;
          if ty in members {
            TableAdmitted(sc, members[ty], buf, opts, p, depth, tables);
          }
      }
    } else if def.kind.UnionKind? {
      TypeFieldIsRead(sc, t, i, buf, opts, table);
    }
  }

  // ----- whole buffers

  /** A buffer long enough, with the offset of a root table at start. */
  predicate RootOk(sc: Schema, t: nat, buf: seq<byte>, opts: Options, start: nat)
    requires SchemaOk(sc) && t < |sc|
  {
    12 <= |buf| && OffsetOk(buf, opts.checkAlignment, start) && TableOk(sc, t, buf, opts, start + NumberAt(buf, start, 4))
  }

  /** What the check of a root promises: root is where the accessors find it. */
  ghost predicate RootSound(sc: Schema, t: nat, buf: seq<byte>, opts: Options, start: nat, root: Read<int>, v: Verdict)
    requires SchemaOk(sc) && t < |sc|
  {
    && v != OutOfBounds
    && (v.Accept? ==>
          && RootOk(sc, t, buf, opts, start)
          && root == Got(start + NumberAt(buf, start, 4))
          && Decode(sc, t, buf, root.value).Got?
          && var rec := Decode(sc, t, buf, root.value).value;
          && Terminated(rec)
          && v == Accept(0, Count(rec) % COUNTERS)
          && (LimitsOk(opts) ==> Height(rec) <= opts.maxDepth && Count(rec) <= opts.maxTables))
  }

  lemma RootIsSound(sc: Schema, t: nat, buf: seq<byte>, opts: Options, start: nat)
    requires SchemaOk(sc) && t < |sc| && BufferOk(buf)
    ensures RootSound(sc, t, buf, opts, start, if OffsetOk(buf, opts.checkAlignment, start) then Got(start + NumberAt(buf, start, 4)) else Fault,
                      VerifyBufferFromStart(sc, t, buf, opts, start))
  {
    hide VerifyTable, Decode, VerifyOffset, OffsetOk, TableOk, NumberAt, Terminated, Height, Count;
    OffsetSound(buf, opts, start);
    OffsetExact(buf, opts, start);
    var o := VerifyOffset(buf, opts, start).value;
    if |buf| >= MIN_BUFFER_SIZE && o != 0 {
      TableSound(sc, t, buf, opts, start + o, 0, 0);
      TableAccepted(sc, t, buf, opts, start + o, 0, 0);
    }
  }

  lemma RootFound(buf: seq<byte>, checkAlignment: bool)
    ensures OffsetOk(buf, checkAlignment, 0) ==> GetRoot(buf) == Got(0 + NumberAt(buf, 0, 4))
    ensures OffsetOk(buf, checkAlignment, 4) ==> GetSizePrefixedRoot(buf) == Got(4 + NumberAt(buf, 4, 4))
  {
    if OffsetOk(buf, checkAlignment, 0) {
      NumberIsRead(buf, 0, 4);
    }
    if OffsetOk(buf, checkAlignment, 4) {
      NumberIsRead(buf, 4, 4);
    }
  }

  /**
   * Soundness: for every byte string and all options, the verifier stays inside the buffer, and when it
   * accepts, so does every accessor on everything that can be reached from the root. Every string is
   * terminated, and with alignment checked every scalar, offset, string and vtable that is read is aligned.
   * The depth counter is back where it started; tables nest no deeper than maxDepth and are no more than
   * maxTables, unless a limit is the largest number there is.
   */
  lemma VerifyBufferSound(sc: Schema, t: nat, buf: seq<byte>, opts: Options)
    requires SchemaOk(sc) && t < |sc| && BufferOk(buf)
    ensures RootSound(sc, t, buf, opts, 0, GetRoot(buf), VerifyBuffer(sc, t, buf, opts))
  {
    hide VerifyBufferFromStart, Decode, OffsetOk, TableOk, NumberAt, Terminated, Height, Count, GetRoot;
    RootIsSound(sc, t, buf, opts, 0);
    RootFound(buf, opts.checkAlignment);
  }

  /** The same behind a size prefix, which is checked to lie inside the buffer. */
  lemma VerifySizePrefixedBufferSound(sc: Schema, t: nat, buf: seq<byte>, opts: Options)
    requires SchemaOk(sc) && t < |sc| && BufferOk(buf)
    ensures RootSound(sc, t, buf, opts, 4, GetSizePrefixedRoot(buf), VerifySizePrefixedBuffer(sc, t, buf, opts))
    ensures VerifySizePrefixedBuffer(sc, t, buf, opts).Accept? ==> ScalarOk(buf, opts.checkAlignment, 0, 4) && NumberAt(buf, 0, 4) + 4 <= |buf|
  {
    hide VerifyBufferFromStart, Decode, OffsetOk, TableOk, NumberAt, Terminated, Height, Count, GetSizePrefixedRoot, VerifyScalar, ScalarOk;
    RootIsSound(sc, t, buf, opts, 4);
    RootFound(buf, opts.checkAlignment);
    ScalarExact(buf, opts, 0, 4);
  }

  /** The tables below the root, as the accessors find them, keep the limits. */
  predicate RootKeepsLimits(sc: Schema, t: nat, buf: seq<byte>, opts: Options, start: nat)
    requires SchemaOk(sc) && t < |sc| && RootOk(sc, t, buf, opts, start)
  {
    TableReads(sc, t, buf, opts, start + NumberAt(buf, start, 4));
    var rec := Decode(sc, t, buf, start + NumberAt(buf, start, 4)).value;
    Height(rec) <= opts.maxDepth && Count(rec) <= opts.maxTables
  }

  lemma RootExact(sc: Schema, t: nat, buf: seq<byte>, opts: Options, start: nat)
    requires SchemaOk(sc) && t < |sc| && BufferOk(buf) && LimitsOk(opts)
    ensures VerifyBufferFromStart(sc, t, buf, opts, start).Accept? <==> RootOk(sc, t, buf, opts, start) && RootKeepsLimits(sc, t, buf, opts, start)
  {
    hide VerifyTable, Decode, VerifyOffset, OffsetOk, TableOk, NumberAt, Terminated, Height, Count;
    RootIsSound(sc, t, buf, opts, start);
    OffsetExact(buf, opts, start);
    if RootOk(sc, t, buf, opts, start) {
      var root := start + NumberAt(buf, start, 4);
      TableReads(sc, t, buf, opts, root);
      if RootKeepsLimits(sc, t, buf, opts, start) {
        TableAdmitted(sc, t, buf, opts, root, 0, 0);
      }
    }
  }

  /**
   * The verifier accepts exactly the buffers in which everything lies where it may, aligned where alignment is
   * asked for, and in which the tables that can be reached keep the limits; with and without a size prefix.
   */
  lemma AcceptedExactly(sc: Schema, t: nat, buf: seq<byte>, opts: Options)
    requires SchemaOk(sc) && t < |sc| && BufferOk(buf) && LimitsOk(opts)
    ensures VerifyBuffer(sc, t, buf, opts).Accept? <==> RootOk(sc, t, buf, opts, 0) && RootKeepsLimits(sc, t, buf, opts, 0)
    ensures VerifySizePrefixedBuffer(sc, t, buf, opts).Accept? <==>
      && ScalarOk(buf, opts.checkAlignment, 0, 4) && NumberAt(buf, 0, 4) + 4 <= |buf|
      && RootOk(sc, t, buf, opts, 4) && RootKeepsLimits(sc, t, buf, opts, 4)
  {
    hide VerifyBufferFromStart, RootOk, RootKeepsLimits, VerifyScalar, ScalarOk, NumberAt;
    RootExact(sc, t, buf, opts, 0);
    RootExact(sc, t, buf, opts, 4);
    ScalarExact(buf, opts, 0, 4);
  }
}
