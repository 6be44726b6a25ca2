/**
 * VerifierTemplate and the Verify methods of generated tables, for any schema. Each step says whether the
 * bytes are accepted, and would say Fault if the verifier itself read outside the buffer.
 */
module FlatVerifier {
  import opened Bytes
  import opened Common
  import opened FlatReader
  import opened FlatObjects

  // ----- schemas, as generated code fixes them

  /** What a generated Verify method does for a field. A union is checked by the table type its type field names. */
  datatype Kind =
    | ScalarKind(size: nat)
    | StringKind
    | TableKind(table: nat)
    | UnionKind(typeField: nat, members: map<nat, nat>)

  datatype FieldDef = FieldDef(id: nat, kind: Kind)

  /** The fields of each table type, in the order its Verify method checks them. */
  type Schema = seq<seq<FieldDef>>

  predicate KindOk(sc: Schema, defs: seq<FieldDef>, i: nat)
    requires i < |defs|
  {
    match defs[i].kind
    case ScalarKind(size) => IsAlignment(size)
    case StringKind => true
    case TableKind(table) => table < |sc|
    case UnionKind(typeField, members) =>
      && (exists j :: 0 <= j < i && defs[j] == FieldDef(typeField, ScalarKind(1)))
      && (forall ty :: ty in members ==> members[ty] < |sc|)
  }

  predicate SchemaOk(sc: Schema) {
    forall t, i :: 0 <= t < |sc| && 0 <= i < |sc[t]| ==> IsFieldId(sc[t][i].id) && KindOk(sc, sc[t], i)
  }

  // ----- the verifier

  datatype Options = Options(maxDepth: nat, maxTables: nat, checkAlignment: bool, maxSize: nat)

  const DEFAULT_OPTIONS := Options(64, 1000000, true, 0x7FFF_FFFF)

  datatype Verdict = OutOfBounds | Reject | Accept(depth: nat, tables: nat)

  /** A range of the buffer; a range as long as the whole buffer is refused. */
  predicate VerifyRange(buf: seq<byte>, elem: nat, len: nat) {
    len < |buf| && elem <= |buf| - len
  }

  predicate VerifyAlignment(opts: Options, elem: nat, align: nat)
    requires IsAlignment(align)
  {
    Aligned(elem, align) || !opts.checkAlignment
  }

  /** Verify<T> for a scalar type of n bytes. */
  predicate VerifyScalar(buf: seq<byte>, opts: Options, elem: nat, n: nat)
    requires IsAlignment(n)
  {
    VerifyAlignment(opts, elem, n) && VerifyRange(buf, elem, n)
  }

  /** VerifyOffset: the offset stored at start, or 0 when it may not be followed. */
  function VerifyOffset(buf: seq<byte>, opts: Options, start: nat): (r: Read<nat>)
    ensures r.Got? && r.value != 0 ==> start + r.value < |buf| && ReadUnsigned(buf, start, 4) == r
  {
    if !VerifyScalar(buf, opts, start, 4) then Got(0)
    else
      var o :- ReadUnsigned(buf, start, 4);
      if o == 0 then Got(0)
      else if o >= 0x8000_0000 then Got(0)
      else if !VerifyRange(buf, start + o, 1) then Got(0)
      else Got(o)
  }

  /** VerifyVectorOrString: where the vector ends, or None when it is refused. */
  function VerifyVectorOrString(buf: seq<byte>, opts: Options, vec: nat, elemSize: nat): Read<Option<nat>>
    requires elemSize > 0
  {
    if !VerifyScalar(buf, opts, vec, 4) then Got(None)
    else
      match ReadUnsigned(buf, vec, 4)
      case Fault => Fault
      case Got(size) =>
        if size >= opts.maxSize / elemSize then Got(None)
        else
          var byteSize := 4 + elemSize * size;
          if VerifyRange(buf, vec, byteSize) then Got(Some(vec + byteSize)) else Got(None)
  }

  /** VerifyString: a vector of characters with a zero byte after it. */
  function VerifyString(buf: seq<byte>, opts: Options, str: nat): Read<bool> {
    var end :- VerifyVectorOrString(buf, opts, str, 1);
    if end.None? || !VerifyRange(buf, end.value, 1) then Got(false)
    else
      var terminator :- ReadUnsigned(buf, end.value, 1);
      Got(terminator == 0)
  }

  /** The counters are 32 bits wide, as the limits are. */
  const COUNTERS: nat := 0x1_0000_0000

  function Next(counter: nat): nat {
    (counter + 1) % COUNTERS
  }

  /** VerifyTableStart: the vtable lies at a distance computed in size_t, so below zero it wraps around. */
  function VerifyTableStart(buf: seq<byte>, opts: Options, table: nat, depth: nat, tables: nat): Verdict {
    if !VerifyScalar(buf, opts, table, 4) then Reject
    else
      var distance := ReadSigned(buf, table, 4);
      if distance.Fault? then OutOfBounds
      else if !(Next(depth) <= opts.maxDepth && Next(tables) <= opts.maxTables) then Reject
      else
        var vtable := (table - distance.value) % 0x1_0000_0000_0000_0000;
        if !VerifyScalar(buf, opts, vtable, 2) then Reject
        else
          var size := ReadUnsigned(buf, vtable, 2);
          if size.Fault? then OutOfBounds
          else if !VerifyAlignment(opts, size.value, 2) then Reject
          else if size.value % 2 != 0 || !VerifyRange(buf, vtable, size.value) then Reject
          else Accept(Next(depth), Next(tables))
  }

  /** The generated Verify method of table type t: its start, its fields in order, and EndTable. */
  function VerifyTable(sc: Schema, t: nat, buf: seq<byte>, opts: Options, table: nat, depth: nat, tables: nat): Verdict
    requires SchemaOk(sc) && t < |sc| && table <= |buf|
    decreases |buf| - table, 2, 0
  {
    match VerifyTableStart(buf, opts, table, depth, tables)
    case OutOfBounds => OutOfBounds
    case Reject => Reject
    case Accept(depth', tables') =>
      match VerifyFields(sc, t, 0, buf, opts, table, depth', tables')
      case OutOfBounds => OutOfBounds
      case Reject => Reject
      case Accept(depth'', tables'') => Accept((depth'' - 1) % COUNTERS, tables'')
  }

  function VerifyFields(sc: Schema, t: nat, i: nat, buf: seq<byte>, opts: Options, table: nat, depth: nat, tables: nat): Verdict
    requires SchemaOk(sc) && t < |sc| && i <= |sc[t]| && table <= |buf|
    decreases |buf| - table, 1, |sc[t]| - i
  {
    if i == |sc[t]| then Accept(depth, tables)
    else
      match VerifyFieldDef(sc, t, i, buf, opts, table, depth, tables)
      case OutOfBounds => OutOfBounds
      case Reject => Reject
      case Accept(depth', tables') => VerifyFields(sc, t, i + 1, buf, opts, table, depth', tables')
  }

  function VerifyFieldDef(sc: Schema, t: nat, i: nat, buf: seq<byte>, opts: Options, table: nat, depth: nat, tables: nat): Verdict
    requires SchemaOk(sc) && t < |sc| && i < |sc[t]| && table <= |buf|
    decreases |buf| - table, 1, |sc[t]| - i, 0
  {
    assert KindOk(sc, sc[t], i);
    var def := sc[t][i];
    var offset := GetOptionalFieldOffset(buf, table, def.id);
    if offset.Fault? then OutOfBounds
    else if offset.value == 0 then Accept(depth, tables)
    else
      var at := table + offset.value;
      match def.kind
      case ScalarKind(size) =>
        if VerifyScalar(buf, opts, at, size) then Accept(depth, tables) else Reject
      case StringKind =>
        (match VerifyOffset(buf, opts, at)
         case Fault => OutOfBounds
         case Got(o) =>
           if o == 0 then Reject
           else
             match VerifyString(buf, opts, at + o)
             case Fault => OutOfBounds
             case Got(ok) => if ok then Accept(depth, tables) else Reject)
      case TableKind(member) =>
        (match VerifyOffset(buf, opts, at)
         case Fault => OutOfBounds
         case Got(o) =>
           if o == 0 then Reject
           else VerifyTable(sc, member, buf, opts, at + o, depth, tables))
      case UnionKind(typeField, members) =>
        (match VerifyOffset(buf, opts, at)
         case Fault => OutOfBounds
         case Got(o) =>
           if o == 0 then Reject
           else
             match GetField(buf, table, typeField, 1, 0)
             case Fault => OutOfBounds
             case Got(ty) =>
               if ty in members then VerifyTable(sc, members[ty], buf, opts, at + o, depth, tables)
               else Accept(depth, tables))
  }

  const MIN_BUFFER_SIZE := 12

  /** VerifyBufferFromStart without a file identifier. */
  function VerifyBufferFromStart(sc: Schema, t: nat, buf: seq<byte>, opts: Options, start: nat): Verdict
    requires SchemaOk(sc) && t < |sc|
  {
    if |buf| < MIN_BUFFER_SIZE then Reject
    else
      match VerifyOffset(buf, opts, start)
      case Fault => OutOfBounds
      case Got(o) => if o == 0 then Reject else VerifyTable(sc, t, buf, opts, start + o, 0, 0)
  }

  function VerifyBuffer(sc: Schema, t: nat, buf: seq<byte>, opts: Options): Verdict
    requires SchemaOk(sc) && t < |sc|
  {
    VerifyBufferFromStart(sc, t, buf, opts, 0)
  }

  function VerifySizePrefixedBuffer(sc: Schema, t: nat, buf: seq<byte>, opts: Options): Verdict
    requires SchemaOk(sc) && t < |sc|
  {
    if !VerifyScalar(buf, opts, 0, 4) then Reject
    else
      match ReadUnsigned(buf, 0, 4)
      case Fault => OutOfBounds
      case Got(size) =>
        if size + 4 > |buf| then Reject else VerifyBufferFromStart(sc, t, buf, opts, 4)
  }
}
