/**
 * VerifierTemplate as the source has it: an object whose counters change while it walks a buffer. Its reads
 * are all inside the buffer, and its answer and its counters are those of the functions in FlatVerifier.
 */
module VerifierClass {
  import opened Bytes
  import opened FlatReader
  import opened FlatObjects
  import opened FlatVerifier
  import opened FlatDecode
  import opened FlatExact

  class Verifier {
    const buf: seq<byte>
    const opts: Options
    var depth: nat
    var numTables: nat

    constructor (buf: seq<byte>, opts: Options)
      ensures this.buf == buf && this.opts == opts && depth == 0 && numTables == 0
    {
      this.buf := buf;
      this.opts := opts;
      depth, numTables := 0, 0;
    }

    /** Counts a table in, and says whether the limits still hold. */
    method VerifyComplexity() returns (ok: bool)
      modifies this
      ensures depth == Next(old(depth)) && numTables == Next(old(numTables))
      ensures ok <==> depth <= opts.maxDepth && numTables <= opts.maxTables
    {
      depth := Next(depth);
      numTables := Next(numTables);
      ok := depth <= opts.maxDepth && numTables <= opts.maxTables;
    }

    method EndTable()
      modifies this
      ensures depth == (old(depth) - 1) % COUNTERS && numTables == old(numTables)
    {
      depth := (depth - 1) % COUNTERS;
    }

    /** The answer is a verdict, and on acceptance the counters are the verdict's. */
    ghost predicate Answers(ok: bool, v: Verdict)
      reads this
    {
      v != OutOfBounds && (ok <==> v.Accept?) && (ok ==> v == Accept(depth, numTables))
    }

    method VerifyTableStart(table: nat) returns (ok: bool)
      requires BufferOk(buf)
      modifies this
      ensures Answers(ok, FlatVerifier.VerifyTableStart(buf, opts, table, old(depth), old(numTables)))
    {
      hide Aligned;
      if !VerifyScalar(buf, opts, table, 4) {
        return false;
      }
      RangeReads(buf, table, 4);
      var vtable := (table - ReadSigned(buf, table, 4).value) % 0x1_0000_0000_0000_0000;
      var within := VerifyComplexity();
      if !within || !VerifyScalar(buf, opts, vtable, 2) {
        return false;
      }
      RangeReads(buf, vtable, 2);
      var size := ReadUnsigned(buf, vtable, 2).value;
      if !VerifyAlignment(opts, size, 2) {
        return false;
      }
      ok := size % 2 == 0 && VerifyRange(buf, vtable, size);
    }

    /** The Verify method of table type t. */
    method VerifyTable(sc: Schema, t: nat, table: nat) returns (ok: bool)
      requires SchemaOk(sc) && t < |sc| && table <= |buf| && BufferOk(buf)
      modifies this
      ensures Answers(ok, FlatVerifier.VerifyTable(sc, t, buf, opts, table, old(depth), old(numTables)))
      decreases |buf| - table, 2, 0
    {
      StartAccepted(buf, opts, table, depth, numTables);
      hide FlatVerifier.VerifyTableStart, VerifyFields, GetOptionalFieldOffset, GetField, SchemaOk;
      ghost var d, n := depth, numTables;
      ok := VerifyTableStart(table);
      if !ok {
        return;
      }
      ghost var fields := VerifyFields(sc, t, 0, buf, opts, table, depth, numTables);
      var i := 0;
      while i < |sc[t]|
        invariant i <= |sc[t]| && ReadableBefore(sc, t, i, buf, table)
        invariant fields == VerifyFields(sc, t, i, buf, opts, table, depth, numTables)
        decreases |sc[t]| - i
      {
        FieldsStep(sc, t, i, buf, opts, table, depth, numTables);
        ok := VerifyField(sc, t, i, table);
        if !ok {
          return;
        }
        i := i + 1;
      }
      FieldsEnd(sc, t, buf, opts, table, depth, numTables);
      EndTable();
    }

    /** What the Verify method does for its i-th field. */
    method VerifyField(sc: Schema, t: nat, i: nat, table: nat) returns (ok: bool)
      requires SchemaOk(sc) && t < |sc| && i < |sc[t]| && table <= |buf| && BufferOk(buf)
      requires ReadableBefore(sc, t, i, buf, table)
      modifies this
      ensures Answers(ok, VerifyFieldDef(sc, t, i, buf, opts, table, old(depth), old(numTables)))
      ensures ok ==> ReadableBefore(sc, t, i + 1, buf, table)
      decreases |buf| - table, 1, |sc[t]| - i
    {
      hide FlatVerifier.VerifyTable, GetOptionalFieldOffset, VerifyOffset, VerifyString, Aligned;
      assert KindOk(sc, sc[t], i);
      var def := sc[t][i];
      var offset := GetOptionalFieldOffset(buf, table, def.id).value;
      if offset == 0 {
        return true;
      }
      var at := table + offset;
      match def.kind
      case ScalarKind(size) =>
        ok := VerifyScalar(buf, opts, at, size);
        if ok {
          RangeReads(buf, at, size);
        }
      case StringKind =>
        OffsetSound(buf, opts, at);
        var o := VerifyOffset(buf, opts, at).value;
        ok := o != 0;
        if ok {
          StringSound(buf, opts, at + o);
          ok := VerifyString(buf, opts, at + o).value;
        }
      case TableKind(member) =>
        OffsetSound(buf, opts, at);
        var o := VerifyOffset(buf, opts, at).value;
        ok := o != 0;
        if ok {
          ok := VerifyTable(sc, member, at + o);
        }
      case UnionKind(typeField, members) =>
        OffsetSound(buf, opts, at);
        var o := VerifyOffset(buf, opts, at).value;
        ok := o != 0;
        if ok {
          ghost var j :| 0 <= j < i && sc[t][j] == FieldDef(typeField, ScalarKind(1));
          var ty := GetField(buf, table, typeField, 1, 0).value;
          if ty in members {
            ok := VerifyTable(sc, members[ty], at + o);
          }
        }
    }

    method VerifyBufferFromStart(sc: Schema, t: nat, start: nat) returns (ok: bool)
      requires SchemaOk(sc) && t < |sc| && BufferOk(buf)
      modifies this
      ensures old(depth) == 0 && old(numTables) == 0 ==> Answers(ok, FlatVerifier.VerifyBufferFromStart(sc, t, buf, opts, start))
    {
      hide FlatVerifier.VerifyTable, VerifyOffset, SchemaOk;
      if |buf| < MIN_BUFFER_SIZE {
        return false;
      }
      OffsetSound(buf, opts, start);
      var o := VerifyOffset(buf, opts, start).value;
      if o == 0 {
        return false;
      }
      ok := VerifyTable(sc, t, start + o);
    }
  }

  lemma FieldsStep(sc: Schema, t: nat, i: nat, buf: seq<byte>, opts: Options, table: nat, depth: nat, tables: nat)
    requires SchemaOk(sc) && t < |sc| && i < |sc[t]| && table <= |buf|
    ensures var v := VerifyFieldDef(sc, t, i, buf, opts, table, depth, tables);
      VerifyFields(sc, t, i, buf, opts, table, depth, tables) ==
      if v.Accept? then VerifyFields(sc, t, i + 1, buf, opts, table, v.depth, v.tables) else v
  {
    hide VerifyFieldDef, SchemaOk;
  }

  lemma FieldsEnd(sc: Schema, t: nat, buf: seq<byte>, opts: Options, table: nat, depth: nat, tables: nat)
    requires SchemaOk(sc) && t < |sc| && table <= |buf|
    ensures VerifyFields(sc, t, |sc[t]|, buf, opts, table, depth, tables) == Accept(depth, tables)
  {
    hide SchemaOk;
  }

  /** VerifyBuffer on a fresh verifier: accepted bytes are safe to read, and nothing outside them was read. */
  method VerifyWholeBuffer(sc: Schema, t: nat, buf: seq<byte>, opts: Options) returns (ok: bool)
    requires SchemaOk(sc) && t < |sc| && BufferOk(buf)
    ensures ok <==> VerifyBuffer(sc, t, buf, opts).Accept?
    ensures ok ==> RootOk(sc, t, buf, opts, 0) && GetRoot(buf).Got? && GetRoot(buf).value > 0 && Decode(sc, t, buf, GetRoot(buf).value).Got?
    ensures LimitsOk(opts) ==> (ok <==> RootOk(sc, t, buf, opts, 0) && RootKeepsLimits(sc, t, buf, opts, 0))
  {
    hide FlatVerifier.VerifyBufferFromStart, SchemaOk, Decode, GetRoot, TableOk, RootKeepsLimits;
    var verifier := new Verifier(buf, opts);
    ok := verifier.VerifyBufferFromStart(sc, t, 0);
    VerifyBufferSound(sc, t, buf, opts);
    if LimitsOk(opts) {
      AcceptedExactly(sc, t, buf, opts);
    }
  }
}
