/**
 * Everything the generated accessors of a schema can reach from a table, and why accepted bytes are safe:
 * whatever the verifier accepts can be read to the end without touching a byte outside the buffer.
 */
module FlatDecode {
  import opened Bytes
  import opened Common
  import opened FlatReader
  import opened FlatObjects
  import opened FlatVerifier

  /** What the accessors of a table return, field by field; a string comes with its terminator. */
  datatype Rec = Rec(fields: seq<Accessed>)

  datatype Accessed =
    | Number(value: nat)
    | Text(cstring: Option<seq<byte>>)
    | Nested(rec: Option<Rec>)
    | OneOf(ty: nat, member: Option<Rec>)

  /** How far a position is from the end of the buffer: every followed offset brings the reader closer to it. */
  function Left(buf: seq<byte>, pos: nat): nat {
    if pos < |buf| then |buf| - pos else 0
  }

  function Decode(sc: Schema, t: nat, buf: seq<byte>, table: nat): Read<Rec>
    requires SchemaOk(sc) && t < |sc|
    decreases Left(buf, table), 1, 0
  {
    match DecodeFields(sc, t, 0, buf, table)
    case Fault => Fault
    case Got(fields) => Got(Rec(fields))
  }

  function DecodeFields(sc: Schema, t: nat, i: nat, buf: seq<byte>, table: nat): (r: Read<seq<Accessed>>)
    requires SchemaOk(sc) && t < |sc| && i <= |sc[t]|
    ensures r.Got? ==> |r.value| == |sc[t]| - i
    decreases Left(buf, table), 0, |sc[t]| - i
  {
    if i == |sc[t]| then Got([])
    else
      match DecodeField(sc, t, i, buf, table)
      case Fault => Fault
      case Got(content) =>
        match DecodeFields(sc, t, i + 1, buf, table)
        case Fault => Fault
        case Got(rest) => Got([content] + rest)
  }

  function DecodeField(sc: Schema, t: nat, i: nat, buf: seq<byte>, table: nat): Read<Accessed>
    requires SchemaOk(sc) && t < |sc| && i < |sc[t]|
    decreases Left(buf, table), 0, |sc[t]| - i, 0
  {
    assert KindOk(sc, sc[t], i);
    var def := sc[t][i];
    match def.kind
    case ScalarKind(size) =>
      (match GetField(buf, table, def.id, size, 0)
       case Fault => Fault
       case Got(n) => Got(Number(n)))
    case StringKind =>
      (match GetPointer(buf, table, def.id)
       case Fault => Fault
       case Got(None) => Got(Text(None))
       case Got(Some(p)) =>
         match ReadCString(buf, p)
         case Fault => Fault
         case Got(s) => Got(Text(Some(s))))
    case TableKind(member) =>
      (match GetPointer(buf, table, def.id)
       case Fault => Fault
       case Got(None) => Got(Nested(None))
       case Got(Some(p)) =>
         match Decode(sc, member, buf, p)
         case Fault => Fault
         case Got(rec) => Got(Nested(Some(rec))))
    case UnionKind(typeField, members) =>
      (match GetField(buf, table, typeField, 1, 0)
       case Fault => Fault
       case Got(ty) =>
         match GetPointer(buf, table, def.id)
         case Fault => Fault
         case Got(None) => Got(OneOf(ty, None))
         case Got(Some(p)) =>
           if ty !in members then Got(OneOf(ty, None))
           else
             match Decode(sc, members[ty], buf, p)
             case Fault => Fault
             case Got(rec) => Got(OneOf(ty, Some(rec))))
  }

  /** How deeply tables nest below and including this one. */
  function Height(rec: Rec): nat {
    1 + HeightOf(rec.fields)
  }

  function HeightOf(fields: seq<Accessed>): nat {
    if fields == [] then 0
    else
      var rest := HeightOf(fields[1..]);
      if AccessedHeight(fields[0]) > rest then AccessedHeight(fields[0]) else rest
  }

  function AccessedHeight(c: Accessed): nat {
    match c
    case Nested(Some(r)) => Height(r)
    case OneOf(_, Some(r)) => Height(r)
    case _ => 0
  }

  /** How many tables a reader visits. */
  function Count(rec: Rec): nat {
    1 + CountOf(rec.fields)
  }

  function CountOf(fields: seq<Accessed>): nat {
    if fields == [] then 0 else AccessedCount(fields[0]) + CountOf(fields[1..])
  }

  function AccessedCount(c: Accessed): nat {
    match c
    case Nested(Some(r)) => Count(r)
    case OneOf(_, Some(r)) => Count(r)
    case _ => 0
  }

  /** Every string that is read ends with a zero byte. */
  predicate Terminated(rec: Rec) {
    forall i :: 0 <= i < |rec.fields| ==> AccessedTerminated(rec.fields[i])
  }

  predicate AccessedTerminated(c: Accessed) {
    match c
    case Text(Some(s)) => |s| > 0 && s[|s| - 1] == 0
    case Nested(Some(r)) => Terminated(r)
    case OneOf(_, Some(r)) => Terminated(r)
    case _ => true
  }

  // ----- soundness

  /** Limits below the largest counter value: a counter that keeps to them has not wrapped around. */
  predicate LimitsOk(opts: Options) {
    opts.maxDepth < COUNTERS - 1 && opts.maxTables < COUNTERS - 1
  }

  predicate BufferOk(buf: seq<byte>) {
    |buf| < 0x8000_0000_0000_0000
  }

  lemma RangeReads(buf: seq<byte>, elem: nat, n: nat)
    requires VerifyRange(buf, elem, n)
    ensures ReadBytes(buf, elem, n).Got? && ReadUnsigned(buf, elem, n).Got? && ReadSigned(buf, elem, n).Got?
  {}

  /** Once the start of a table is accepted, every slot of its vtable can be read. */
  lemma StartAccepted(buf: seq<byte>, opts: Options, table: nat, depth: nat, tables: nat)
    requires BufferOk(buf)
    ensures VerifyTableStart(buf, opts, table, depth, tables) != OutOfBounds
    ensures VerifyTableStart(buf, opts, table, depth, tables).Accept? ==>
      && VerifyTableStart(buf, opts, table, depth, tables) == Accept(Next(depth), Next(tables))
      && Next(depth) <= opts.maxDepth && Next(tables) <= opts.maxTables && table < |buf|
      && forall id: nat | IsFieldId(id) :: GetOptionalFieldOffset(buf, table, id).Got?
  {
    hide Aligned;
    if VerifyScalar(buf, opts, table, 4) {
      RangeReads(buf, table, 4);
      var vt := table - ReadSigned(buf, table, 4).value;
      var wrapped := vt % 0x1_0000_0000_0000_0000;
      Pow256Values();
      if VerifyScalar(buf, opts, wrapped, 2) {
        RangeReads(buf, wrapped, 2);
        WrapIsInside(buf, vt);
        var size := ReadUnsigned(buf, vt, 2).value;
        if size % 2 == 0 && VerifyRange(buf, vt, size) {
          forall id: nat | IsFieldId(id)
            ensures GetOptionalFieldOffset(buf, table, id).Got?
          {
            if id < size {
              assert id + 2 <= size;
            }
          }
        }
      }
    }
  }

  /** A vtable position that passed the range check did not wrap around. */
  lemma WrapIsInside(buf: seq<byte>, vt: int)
    requires BufferOk(buf) && -0x8000_0000 <= vt <= 0x8000_0000_8000_0000
    requires vt % 0x1_0000_0000_0000_0000 <= |buf|
    ensures vt == vt % 0x1_0000_0000_0000_0000
  {}

  /** Every slot of the table can be read, and so can the scalars before field i. */
  ghost predicate ReadableBefore(sc: Schema, t: nat, i: nat, buf: seq<byte>, table: nat)
    requires t < |sc| && i <= |sc[t]|
  {
    && table < |buf|
    && (forall id: nat | IsFieldId(id) :: GetOptionalFieldOffset(buf, table, id).Got?)
    && (forall j :: 0 <= j < i && sc[t][j].kind.ScalarKind? ==>
          GetField(buf, table, sc[t][j].id, sc[t][j].kind.size, 0).Got?)
  }

  /**
   * What an accepted table, field or rest of a table promises about the value that is read there: the depth
   * is as before and every table has been counted, whatever the limits are; and limits are kept, unless
   * they are so large that a counter can wrap around.
   */
  predicate Within(opts: Options, depth: nat, tables: nat, height: nat, count: nat, after: Verdict) {
    && after == Accept(depth, (tables + count) % COUNTERS)
    && (LimitsOk(opts) && depth <= opts.maxDepth && tables <= opts.maxTables ==>
          depth + height <= opts.maxDepth && tables + count <= opts.maxTables)
  }

  lemma WithinNone(opts: Options, depth: nat, tables: nat)
    requires tables < COUNTERS
    ensures Within(opts, depth, tables, 0, 0, Accept(depth, tables))
  {}

  /** One field after the other. */
  lemma WithinSum(opts: Options, depth: nat, tables: nat, height: nat, count: nat, middle: Verdict, height': nat, count': nat, after: Verdict)
    requires Within(opts, depth, tables, height, count, middle)
    requires Within(opts, depth, middle.tables, height', count', after)
    ensures Within(opts, depth, tables, if height > height' then height else height', count + count', after)
  {
    SumWraps(tables + count, count');
  }

  /** A table around its fields. */
  lemma WithinTable(opts: Options, depth: nat, tables: nat, height: nat, count: nat, inner: Verdict)
    requires depth < COUNTERS && tables < COUNTERS
    requires Next(depth) <= opts.maxDepth && Next(tables) <= opts.maxTables
    requires Within(opts, Next(depth), Next(tables), height, count, inner)
    ensures Within(opts, depth, tables, 1 + height, 1 + count, Accept((inner.depth - 1) % COUNTERS, inner.tables))
  {
    SumWraps(tables + 1, count);
  }

  lemma SumWraps(n: nat, k: nat)
    ensures (n % COUNTERS + k) % COUNTERS == (n + k) % COUNTERS
  {
    assert n == COUNTERS * (n / COUNTERS) + n % COUNTERS;
  }

  /** Safety of an accepted table, for any schema and any options. */
  lemma {:induction false} TableSound(sc: Schema, t: nat, buf: seq<byte>, opts: Options, table: nat, depth: nat, tables: nat)
    requires SchemaOk(sc) && t < |sc| && table <= |buf| && BufferOk(buf)
    requires depth < COUNTERS && tables < COUNTERS
    ensures var v := VerifyTable(sc, t, buf, opts, table, depth, tables);
      && v != OutOfBounds
      && (v.Accept? ==>
            && Decode(sc, t, buf, table).Got?
            && var rec := Decode(sc, t, buf, table).value;
            && Terminated(rec)
            && Within(opts, depth, tables, Height(rec), Count(rec), v))
    decreases |buf| - table, 2, 0
  {
    hide VerifyTableStart, VerifyFields, DecodeFields, GetOptionalFieldOffset, GetField, Within, HeightOf, CountOf;
    StartAccepted(buf, opts, table, depth, tables);
    if VerifyTableStart(buf, opts, table, depth, tables).Accept? {
      FieldsSound(sc, t, 0, buf, opts, table, Next(depth), Next(tables));
      var v := VerifyFields(sc, t, 0, buf, opts, table, Next(depth), Next(tables));
      if v.Accept? {
        var fields := DecodeFields(sc, t, 0, buf, table).value;
        WithinTable(opts, depth, tables, HeightOf(fields), CountOf(fields), v);
      }
    }
  }

  lemma {:induction false} FieldsSound(sc: Schema, t: nat, i: nat, buf: seq<byte>, opts: Options, table: nat, depth: nat, tables: nat)
    requires SchemaOk(sc) && t < |sc| && i <= |sc[t]| && table <= |buf| && BufferOk(buf)
    requires depth < COUNTERS && tables < COUNTERS
    requires ReadableBefore(sc, t, i, buf, table)
    ensures var v := VerifyFields(sc, t, i, buf, opts, table, depth, tables);
      && v != OutOfBounds
      && (v.Accept? ==>
            && DecodeFields(sc, t, i, buf, table).Got?
            && var fields := DecodeFields(sc, t, i, buf, table).value;
            && (forall k :: 0 <= k < |fields| ==> AccessedTerminated(fields[k]))
            && Within(opts, depth, tables, HeightOf(fields), CountOf(fields), v))
    decreases |buf| - table, 1, |sc[t]| - i
  {
    hide VerifyFieldDef, DecodeField, GetOptionalFieldOffset, AccessedTerminated, AccessedHeight, AccessedCount, Within, ReadableBefore;
    if i == |sc[t]| {
      WithinNone(opts, depth, tables);
    } else {
      FieldSound(sc, t, i, buf, opts, table, depth, tables);
      var v := VerifyFieldDef(sc, t, i, buf, opts, table, depth, tables);
      if v.Accept? {
        var c := DecodeField(sc, t, i, buf, table).value;
        WithinCounters(opts, depth, tables, AccessedHeight(c), AccessedCount(c), v);
        FieldsSound(sc, t, i + 1, buf, opts, table, v.depth, v.tables);
        var after := VerifyFields(sc, t, i + 1, buf, opts, table, v.depth, v.tables);
        if after.Accept? {
          var rest := DecodeFields(sc, t, i + 1, buf, table).value;
          WithinSum(opts, depth, tables, AccessedHeight(c), AccessedCount(c), v, HeightOf(rest), CountOf(rest), after);
          assert ([c] + rest)[1..] == rest;
        }
      }
    }
  }

  lemma WithinCounters(opts: Options, depth: nat, tables: nat, height: nat, count: nat, after: Verdict)
    requires Within(opts, depth, tables, height, count, after)
    ensures after.Accept? && after.depth == depth && after.tables < COUNTERS
  {}

  lemma {:induction false} FieldSound(sc: Schema, t: nat, i: nat, buf: seq<byte>, opts: Options, table: nat, depth: nat, tables: nat)
    requires SchemaOk(sc) && t < |sc| && i < |sc[t]| && table <= |buf| && BufferOk(buf)
    requires depth < COUNTERS && tables < COUNTERS
    requires ReadableBefore(sc, t, i, buf, table)
    ensures var v := VerifyFieldDef(sc, t, i, buf, opts, table, depth, tables);
      && v != OutOfBounds
      && (v.Accept? ==>
            && DecodeField(sc, t, i, buf, table).Got?
            && var c := DecodeField(sc, t, i, buf, table).value;
            && AccessedTerminated(c)
            && Within(opts, depth, tables, AccessedHeight(c), AccessedCount(c), v)
            && ReadableBefore(sc, t, i + 1, buf, table))
    decreases |buf| - table, 1, |sc[t]| - i, 0
  {
    hide VerifyTable, Decode, GetOptionalFieldOffset, VerifyOffset, VerifyString, Aligned, ReadCString, Terminated, Height, Count, Within;
    WithinNone(opts, depth, tables);
    assert KindOk(sc, sc[t], i);
    var def := sc[t][i];
    var offset := GetOptionalFieldOffset(buf, table, def.id).value;
    var at := table + offset;
    match def.kind
    case ScalarKind(size) =>
      if offset != 0 && VerifyScalar(buf, opts, at, size) {
        RangeReads(buf, at, size);
      }
    case StringKind =>
      if offset != 0 {
        OffsetSound(buf, opts, at);
        var o := VerifyOffset(buf, opts, at).value;
        if o != 0 {
          StringSound(buf, opts, at + o);
        }
      }
    case TableKind(member) =>
      if offset != 0 {
        OffsetSound(buf, opts, at);
        var o := VerifyOffset(buf, opts, at).value;
        if o != 0 {
          TableSound(sc, member, buf, opts, at + o, depth, tables);
        }
      }
    case UnionKind(typeField, members) =>
      var j :| 0 <= j < i && sc[t][j] == FieldDef(typeField, ScalarKind(1));
      var ty := GetField(buf, table, typeField, 1, 0).value;
      if offset != 0 {
        OffsetSound(buf, opts, at);
        var o := VerifyOffset(buf, opts, at).value;
        if o != 0 && ty in members {
          TableSound(sc, members[ty], buf, opts, at + o, depth, tables);
        }
      }
  }

  /** An offset that passed is read by the accessor too, and leads strictly forward. */
  lemma OffsetSound(buf: seq<byte>, opts: Options, start: nat)
    ensures VerifyOffset(buf, opts, start).Got?
    ensures var o := VerifyOffset(buf, opts, start).value;
      o != 0 ==> start < start + o < |buf| && ReadUnsigned(buf, start, 4) == Got(o)
  {
    hide Aligned;
    if VerifyScalar(buf, opts, start, 4) {
      RangeReads(buf, start, 4);
    }
  }

  lemma StringSound(buf: seq<byte>, opts: Options, str: nat)
    ensures VerifyString(buf, opts, str).Got?
    ensures VerifyString(buf, opts, str) == Got(true) ==>
      ReadCString(buf, str).Got? && var s := ReadCString(buf, str).value; |s| > 0 && s[|s| - 1] == 0
  {
    hide Aligned;
    if VerifyScalar(buf, opts, str, 4) {
      RangeReads(buf, str, 4);
      var size := ReadUnsigned(buf, str, 4).value;
      var end := str + 4 + size;
      if VerifyRange(buf, end, 1) {
        RangeReads(buf, end, 1);
        assert ReadUnsigned(buf, end, 1) == Got(buf[end] as nat) by {
          assert buf[end..end + 1] == [buf[end]];
          assert UnLe([buf[end]]) == buf[end];
        }
      }
    }
  }
}
