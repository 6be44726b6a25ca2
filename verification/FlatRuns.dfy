/** Whole runs of the builder: any sequence of strings, pooled strings and tables. */
module FlatRuns {
  import opened Bytes
  import opened Common
  import opened FlatReader
  import opened FlatObjects
  import opened FlatBuilder
  import opened FlatBuilderProofs
  import opened FlatAccess

  /** One AddElement or AddOffset; an offset names an earlier object of the run, or is null. */
  datatype Add =
    | AddScalar(id: nat, bytes: seq<byte>, default: seq<byte>)
    | AddRef(id: nat, target: Option<nat>)

  datatype Op =
    | MakeString(chars: seq<byte>)
    | MakeSharedString(chars: seq<byte>)
    | MakeTable(adds: seq<Add>)

  // ----- what a run does

  function RunAdd(s: State, add: Add, offs: seq<nat>): State
    requires AddOk(s, add, offs)
  {
    match add
    case AddScalar(id, bytes, default) => AddElement(s, id, bytes, default)
    case AddRef(id, target) => AddOffset(s, id, if target.Some? then offs[target.value] else 0)
  }

  predicate AddOk(s: State, add: Add, offs: seq<nat>) {
    && IsFieldId(add.id)
    && match add
       case AddScalar(id, bytes, default) =>
         IsAlignment(|bytes|) && |AddElement(s, id, bytes, default).data| < MAX_BUFFER_SIZE
       case AddRef(id, target) => target.Some? ==>
         && target.value < |offs| && 0 < offs[target.value] <= |s.data|
         && |AddOffset(s, id, offs[target.value]).data| < MAX_BUFFER_SIZE
  }

  function RunAdds(s: State, adds: seq<Add>, offs: seq<nat>): State
    requires AddsOk(s, adds, offs)
    decreases |adds|
  {
    if adds == [] then s else RunAdds(RunAdd(s, adds[0], offs), adds[1..], offs)
  }

  predicate AddsOk(s: State, adds: seq<Add>, offs: seq<nat>)
    decreases |adds|
  {
    adds == [] || (AddOk(s, adds[0], offs) && AddsOk(RunAdd(s, adds[0], offs), adds[1..], offs))
  }

  predicate DistinctIds(adds: seq<Add>) {
    forall i, j :: 0 <= i < j < |adds| ==> adds[i].id != adds[j].id
  }

  function RunOp(s: State, op: Op, offs: seq<nat>): (State, nat)
    requires OpOk(s, op, offs)
  {
    match op
    case MakeString(chars) => var s' := CreateString(s, chars); (s', |s'.data|)
    case MakeSharedString(chars) => CreateSharedString(s, chars)
    case MakeTable(adds) => EndTable(RunAdds(StartTable(s), adds, offs), |s.data|)
  }

  /**
   * The assertions of the source hold: no field is set twice, the table is not too large, and the buffer
   * is below its limit whenever something is pushed, on its data or on its scratch area. A string's size
   * is the last thing pushed for it.
   */
  predicate OpOk(s: State, op: Op, offs: seq<nat>) {
    match op
    case MakeString(chars) => |CreateString(s, chars).data| < MAX_BUFFER_SIZE + 4
    case MakeSharedString(chars) => |CreateString(s, chars).data| < MAX_BUFFER_SIZE + 4
    case MakeTable(adds) =>
      && !s.nested && s.fields == [] && s.maxVoffset == 0
      && DistinctIds(adds)
      && AddsOk(StartTable(s), adds, offs)
      && var s' := RunAdds(StartTable(s), adds, offs);
      && CanEndTable(s', |s.data|)
      && |EndTable(s', |s.data|).0.data| < MAX_BUFFER_SIZE
  }

  /** The state and the offsets of the objects after a run. */
  function Run(s: State, ops: seq<Op>, offs: seq<nat>): (State, seq<nat>)
    requires RunOk(s, ops, offs)
    decreases |ops|
  {
    if ops == [] then (s, offs)
    else
      var (s', off) := RunOp(s, ops[0], offs);
      Run(s', ops[1..], offs + [off])
  }

  predicate RunOk(s: State, ops: seq<Op>, offs: seq<nat>)
    decreases |ops|
  {
    ops == [] || (OpOk(s, ops[0], offs)
                  && var (s', off) := RunOp(s, ops[0], offs); RunOk(s', ops[1..], offs + [off]))
  }

  // ----- what a run means

  /** The fields the adds ask for: a scalar equal to its default and a null offset are not stored. */
  function Stored(adds: seq<Add>, vals: seq<Value>, force: bool): map<nat, Field> {
    if adds == [] then map[]
    else Store(Stored(adds[..|adds| - 1], vals, force), adds[|adds| - 1], vals, force)
  }

  function Store(fields: map<nat, Field>, add: Add, vals: seq<Value>, force: bool): map<nat, Field> {
    match add
    case AddScalar(id, bytes, default) =>
      if bytes == default && !force then fields else fields[id := Scalar(bytes)]
    case AddRef(id, target) =>
      if target.Some? && target.value < |vals| then fields[id := Ref(vals[target.value])] else fields
  }

  function Meaning(op: Op, vals: seq<Value>, force: bool): Value {
    match op
    case MakeString(chars) => VString(chars)
    case MakeSharedString(chars) => VString(chars)
    case MakeTable(adds) => VTable(Stored(adds, vals, force))
  }

  /** The values a run builds; neither vtable sharing nor the string pool plays a part in it. */
  function Meanings(ops: seq<Op>, vals: seq<Value>, force: bool): seq<Value> {
    if ops == [] then vals else Meanings(ops[1..], vals + [Meaning(ops[0], vals, force)], force)
  }

  // ----- every object of a run means what was asked for

  /** The builder is between objects, and everything it remembers is in the buffer. */
  ghost predicate Idle(s: State) {
    && IsAlignment(s.minalign)
    && VTablesHold(s) && PoolHolds(s)
    && !s.nested && s.fields == [] && s.maxVoffset == 0
  }

  ghost predicate Holds(s: State, offs: seq<nat>, vals: seq<Value>) {
    && |offs| == |vals|
    && forall k :: 0 <= k < |offs| ==> ObjAt(s.data, offs[k], vals[k], s.minalign)
  }

  lemma HoldsStays(s: State, s': State, offs: seq<nat>, vals: seq<Value>)
    requires Holds(s, offs, vals) && Extends(s', s)
    ensures Holds(s', offs, vals)
  {
    hide ObjAt, Extends;
    forall k | 0 <= k < |offs|
      ensures ObjAt(s'.data, offs[k], vals[k], s'.minalign)
    {
      ObjStays(s, s', offs[k], vals[k]);
    }
  }

  lemma {:induction false} StoredIds(adds: seq<Add>, vals: seq<Value>, force: bool)
    ensures forall id :: id in Stored(adds, vals, force) ==> exists i :: 0 <= i < |adds| && adds[i].id == id
  {
    if adds == [] {
    } else {
      var n := |adds| - 1;
      StoredIds(adds[..n], vals, force);
      forall id | id in Stored(adds, vals, force)
        ensures exists i :: 0 <= i < |adds| && adds[i].id == id
      {
        if id == adds[n].id {
        } else {
          assert id in Stored(adds[..n], vals, force);
          var i :| 0 <= i < n && adds[..n][i].id == id;
          assert adds[i].id == id;
        }
      }
    }
  }

  lemma StoredNext(done: seq<Add>, add: Add, vals: seq<Value>, force: bool)
    ensures Stored(done + [add], vals, force) == Store(Stored(done, vals, force), add, vals, force)
  {
    assert (done + [add])[..|done|] == done;
  }

  /** The builder state between two adds of a table that started as s. */
  ghost predicate Building(s: State, now: State, offs: seq<nat>, vals: seq<Value>, fields: map<nat, Field>) {
    && OpenTable(now, |s.data|, fields)
    && Extends(now, s)
    && Holds(now, offs, vals)
    && now == s.(data := now.data, minalign := now.minalign, nested := true, fields := now.fields, maxVoffset := now.maxVoffset)
  }

  lemma RunAddBuilds(s: State, now: State, add: Add, offs: seq<nat>, vals: seq<Value>, fields: map<nat, Field>)
    requires Building(s, now, offs, vals, fields) && AddOk(now, add, offs) && add.id !in fields
    ensures Building(s, RunAdd(now, add, offs), offs, vals, Store(fields, add, vals, s.forceDefaults))
  {
    hide ObjAt, OpenTable, Extends, Align, PushElement;
    var now' := RunAdd(now, add, offs);
    match add
    case AddScalar(id, bytes, default) =>
      OpenTableBounds(now, |s.data|, fields);
      AddElementKeepsOpen(now, |s.data|, fields, id, bytes, default);
      PushElementExtends(now, bytes);
      HoldsStays(now, now', offs, vals);
      ExtendsTransitive(s, now, now');
    case AddRef(id, target) =>
      if target.Some? {
        AddOffsetShape(now, id, offs[target.value]);
        AddOffsetKeepsOpen(now, |s.data|, fields, id, offs[target.value], vals[target.value]);
        HoldsStays(now, now', offs, vals);
        ExtendsTransitive(s, now, now');
      }
  }

  lemma AddOffsetShape(s: State, id: nat, off: nat)
    requires 0 < off <= |s.data|
    ensures var s' := AddOffset(s, id, off);
      && s' == s.(data := s'.data, minalign := s'.minalign, fields := s'.fields, maxVoffset := s'.maxVoffset)
      && |s.data| <= |s'.data|
  {
    hide PaddingBytes, Le, Zeros;
  }

  lemma {:induction false} RunAddsBuilds(s: State, now: State, done: seq<Add>, adds: seq<Add>, offs: seq<nat>, vals: seq<Value>)
    requires Building(s, now, offs, vals, Stored(done, vals, s.forceDefaults)) && AddsOk(now, adds, offs)
    requires DistinctIds(done + adds)
    ensures Building(s, RunAdds(now, adds, offs), offs, vals, Stored(done + adds, vals, s.forceDefaults))
    decreases |adds|
  {
    hide Building, RunAdd, AddOk, Store;
    if adds == [] {
      assert done + adds == done;
    } else {
      var fields := Stored(done, vals, s.forceDefaults);
      StoredIds(done, vals, s.forceDefaults);
      assert adds[0].id !in fields by {
        assert forall i :: 0 <= i < |done| ==> (done + adds)[i] == done[i];
        assert (done + adds)[|done|] == adds[0];
      }
      var next := done + [adds[0]];
      StoredNext(done, adds[0], vals, s.forceDefaults);
      RunAddBuilds(s, now, adds[0], offs, vals, fields);
      assert next + adds[1..] == done + adds;
      RunAddsBuilds(s, RunAdd(now, adds[0], offs), next, adds[1..], offs, vals);
    }
  }

  /** One operation adds one object with the meaning asked for, and leaves the others as they were. */
  lemma RunOpBuilds(s: State, op: Op, offs: seq<nat>, vals: seq<Value>)
    requires Idle(s) && Holds(s, offs, vals) && OpOk(s, op, offs)
    ensures var (s', off) := RunOp(s, op, offs);
      && Idle(s') && Extends(s', s)
      && Holds(s', offs + [off], vals + [Meaning(op, vals, s.forceDefaults)])
      && s'.dedupVtables == s.dedupVtables && s'.forceDefaults == s.forceDefaults && s'.finished == s.finished
      && (s.dedupVtables && VTablesDistinct(s) ==> VTablesDistinct(s'))
  {
    hide ObjAt, Extends, CreateString, CreateSharedString, EndTable, VTableAt, VTableContents, PoolHolds, RunAdds, AddsOk, OpenTable, CanEndTable, FieldsFit;
    var (s', off) := RunOp(s, op, offs);
    match op
    case MakeString(chars) =>
      StringIsShort(s, chars);
      CreateStringBuilds(s, chars);
      GrowsAlignment(s', s);
      PoolStays(s, s');
      VTablesStay(s, s');
      HoldsStays(s, s', offs, vals);
    case MakeSharedString(chars) =>
      StringIsShort(s, chars);
      CreateSharedStringBuilds(s, chars);
      VTablesStay(s, s');
      HoldsStays(s, s', offs, vals);
    case MakeTable(adds) =>
      TableRunBuilds(s, adds, offs, vals);
  }

  lemma StringIsShort(s: State, chars: seq<byte>)
    ensures |s.data| + |chars| + 5 <= |CreateString(s, chars).data|
  {
    hide PaddingBytes, Le, Zeros;
  }

  lemma VTablesStay(s: State, s': State)
    requires VTablesHold(s) && Extends(s', s) && s'.vtables == s.vtables
    ensures VTablesHold(s') && (VTablesDistinct(s) ==> VTablesDistinct(s'))
  {
    hide Extends, VTableAt, VTableContents;
    forall u | u in s.vtables
      ensures VTableAt(s'.data, u) && VTableContents(s'.data, u) == VTableContents(s.data, u)
    {
      VTableContentsStay(s, s', u);
    }
    assert forall i :: 0 <= i < |s.vtables| ==> s.vtables[i] in s.vtables;
  }

  lemma TableRunBuilds(s: State, adds: seq<Add>, offs: seq<nat>, vals: seq<Value>)
    requires Idle(s) && Holds(s, offs, vals) && OpOk(s, MakeTable(adds), offs)
    ensures var (s', off) := RunOp(s, MakeTable(adds), offs);
      && Idle(s') && Extends(s', s)
      && Holds(s', offs + [off], vals + [VTable(Stored(adds, vals, s.forceDefaults))])
      && s'.dedupVtables == s.dedupVtables && s'.forceDefaults == s.forceDefaults && s'.finished == s.finished
      && (s.dedupVtables && VTablesDistinct(s) ==> VTablesDistinct(s'))
  {
    hide ObjAt, Extends, EndTable, VTableAt, VTableContents, PoolHolds, RunAdds, AddsOk, OpenTable, CanEndTable, FieldsFit, Holds;
    var begun := StartTable(s);
    TableBegins(s, offs, vals);
    assert [] + adds == adds;
    RunAddsBuilds(s, begun, [], adds, offs, vals);
    var now := RunAdds(begun, adds, offs);
    var fields := Stored(adds, vals, s.forceDefaults);
    VTablesStay(s, now);
    PoolStays(s, now);
    EndTableIsLonger(now, |s.data|);
    EndTableBuilds(now, |s.data|, fields);
    if s.dedupVtables && VTablesDistinct(s) {
      EndTableKeepsDistinct(now, |s.data|, fields);
    }
    var (s', off) := EndTable(now, |s.data|);
    ExtendsTransitive(s, now, s');
    PoolStays(now, s');
    HoldsStays(now, s', offs, vals);
    HoldsNext(s', offs, vals, off, VTable(fields));
  }

  lemma TableBegins(s: State, offs: seq<nat>, vals: seq<Value>)
    requires Idle(s) && Holds(s, offs, vals)
    ensures Building(s, StartTable(s), offs, vals, Stored([], vals, s.forceDefaults))
  {
    hide Holds, Extends, OpenTable, VTablesHold, PoolHolds;
    var begun := StartTable(s);
    SameDataExtends(s, begun);
    HoldsStays(s, begun, offs, vals);
    NothingTracked(begun);
  }

  lemma NothingTracked(s: State)
    requires s.nested && IsAlignment(s.minalign) && s.fields == [] && s.maxVoffset == 0
    ensures OpenTable(s, |s.data|, map[])
  {}

  lemma HoldsNext(s: State, offs: seq<nat>, vals: seq<Value>, off: nat, v: Value)
    requires Holds(s, offs, vals) && ObjAt(s.data, off, v, s.minalign)
    ensures Holds(s, offs + [off], vals + [v])
  {
    hide ObjAt;
  }

  /**
   * After any run, every object of the run is in the buffer, at the offset returned for it, with exactly
   * the meaning asked for; what was there before the run is still there.
   */
  lemma {:induction false} RunBuilds(s: State, ops: seq<Op>, offs: seq<nat>, vals: seq<Value>)
    requires Idle(s) && Holds(s, offs, vals) && RunOk(s, ops, offs)
    ensures var (s', offs') := Run(s, ops, offs);
      && Idle(s') && Extends(s', s)
      && Holds(s', offs', Meanings(ops, vals, s.forceDefaults))
      && (s.dedupVtables && VTablesDistinct(s) ==> VTablesDistinct(s'))
      && s'.finished == s.finished
    decreases |ops|
  {
    hide Idle, Holds, Extends, OpOk, RunOp, Meaning, VTablesDistinct, VTablesHold;
    if ops == [] {
      SameDataExtends(s, s);
    } else {
      RunOpBuilds(s, ops[0], offs, vals);
      var (s1, off) := RunOp(s, ops[0], offs);
      RunBuilds(s1, ops[1..], offs + [off], vals + [Meaning(ops[0], vals, s.forceDefaults)]);
      ExtendsTransitive(s, s1, Run(s, ops, offs).0);
    }
  }

  // ----- runs one operation longer

  lemma {:induction false} RunSnoc(s: State, ops: seq<Op>, op: Op, offs: seq<nat>)
    requires RunOk(s, ops, offs) && OpOk(Run(s, ops, offs).0, op, Run(s, ops, offs).1)
    ensures RunOk(s, ops + [op], offs)
    ensures var (s1, offs1) := Run(s, ops, offs); var (s2, off) := RunOp(s1, op, offs1);
      Run(s, ops + [op], offs) == (s2, offs1 + [off])
    decreases |ops|
  {
    hide OpOk, RunOp;
    if ops == [] {
      assert [] + [op] == [op] && [op][1..] == [];
      RunOfOne(s, op, offs);
    } else {
      var (s1, off) := RunOp(s, ops[0], offs);
      assert (ops + [op])[1..] == ops[1..] + [op];
      RunSnoc(s1, ops[1..], op, offs + [off]);
    }
  }

  lemma RunOfOne(s: State, op: Op, offs: seq<nat>)
    requires OpOk(s, op, offs)
    ensures RunOk(s, [op], offs) && Run(s, [op], offs) == (RunOp(s, op, offs).0, offs + [RunOp(s, op, offs).1])
  {
    hide OpOk, RunOp;
    var (s1, off) := RunOp(s, op, offs);
    assert RunOk(s1, [op][1..], offs + [off]);
  }

  /** The last operation of a run, taken apart again. */
  lemma {:induction false} RunLast(s: State, ops: seq<Op>, op: Op, offs: seq<nat>)
    requires RunOk(s, ops + [op], offs)
    ensures RunOk(s, ops, offs) && OpOk(Run(s, ops, offs).0, op, Run(s, ops, offs).1)
    ensures var (s1, offs1) := Run(s, ops, offs); var (s2, off) := RunOp(s1, op, offs1);
      Run(s, ops + [op], offs) == (s2, offs1 + [off])
    decreases |ops|
  {
    hide OpOk, RunOp;
    if ops == [] {
      assert [] + [op] == [op] && [op][1..] == [];
      assert OpOk(s, [op][0], offs);
      RunOfOne(s, op, offs);
    } else {
      assert (ops + [op])[1..] == ops[1..] + [op] && (ops + [op])[0] == ops[0];
      var (s1, off) := RunOp(s, ops[0], offs);
      RunLast(s1, ops[1..], op, offs + [off]);
    }
  }

  lemma {:induction false} MeaningsSnoc(ops: seq<Op>, op: Op, vals: seq<Value>, force: bool)
    ensures var before := Meanings(ops, vals, force);
      Meanings(ops + [op], vals, force) == before + [Meaning(op, before, force)]
    decreases |ops|
  {
    hide Meaning;
    if ops == [] {
      assert [] + [op] == [op];
      assert Meanings([op], vals, force) == Meanings([op][1..], vals + [Meaning(op, vals, force)], force);
    } else {
      assert (ops + [op])[1..] == ops[1..] + [op];
      MeaningsSnoc(ops[1..], op, vals + [Meaning(ops[0], vals, force)], force);
    }
  }

  lemma {:induction false} RunLengths(s: State, ops: seq<Op>, offs: seq<nat>)
    requires RunOk(s, ops, offs)
    ensures |Run(s, ops, offs).1| == |offs| + |ops|
    decreases |ops|
  {
    hide OpOk, RunOp;
    if ops != [] {
      var (s1, off) := RunOp(s, ops[0], offs);
      RunLengths(s1, ops[1..], offs + [off]);
    }
  }

  // ----- two runs that no accessor can tell apart

  /**
   * The accessors read the same from the object at off in buf as from the one at off' in buf', down to the
   * last string: every string with its terminator, every scalar, every absent field, and the same again
   * where a pointer leads.
   */
  ghost predicate ReadAlike(buf: seq<byte>, off: nat, buf': seq<byte>, off': nat, v: Value)
    decreases v
  {
    match v
    case VString(chars) =>
      ReadCString(buf, |buf| - off) == ReadCString(buf', |buf'| - off') == Got(chars + [0])
    case VTable(fields) =>
      && (forall id: nat | IsFieldId(id) && id !in fields :: IsAbsent(buf, off, id) && IsAbsent(buf', off', id))
      && (forall id: nat | id in fields :: FieldReadsAlike(buf, off, buf', off', id, fields[id]))
  }

  predicate IsAbsent(buf: seq<byte>, off: nat, id: nat) {
    GetOptionalFieldOffset(buf, |buf| - off, id) == Got(0)
  }

  predicate ReadsAs(buf: seq<byte>, off: nat, id: nat, bytes: seq<byte>, default: nat) {
    GetField(buf, |buf| - off, id, |bytes|, default) == Got(UnLe(bytes))
  }

  ghost predicate FieldReadsAlike(buf: seq<byte>, off: nat, buf': seq<byte>, off': nat, id: nat, f: Field)
    decreases f
  {
    match f
    case Scalar(bytes) => forall default :: ReadsAs(buf, off, id, bytes, default) && ReadsAs(buf', off', id, bytes, default)
    case Ref(target) => exists p: nat, p': nat ::
      && GetPointer(buf, |buf| - off, id) == Got(Some(|buf| - p))
      && GetPointer(buf', |buf'| - off', id) == Got(Some(|buf'| - p'))
      && ReadAlike(buf, p, buf', p', target)
  }

  /** Objects of the same value read alike, wherever they stand and whatever vtables they share. */
  lemma {:induction false} SameValueReadsAlike(buf: seq<byte>, off: nat, align: nat, buf': seq<byte>, off': nat, align': nat, v: Value)
    requires ObjAt(buf, off, v, align) && ObjAt(buf', off', v, align')
    ensures ReadAlike(buf, off, buf', off', v)
    decreases v
  {
    hide ObjAt, GetOptionalFieldOffset, FieldReadsAlike, ReadCString;
    match v
    case VString(chars) =>
      ReadsCString(buf, off, chars, align);
      ReadsCString(buf', off', chars, align');
    case VTable(fields) =>
      forall id: nat | IsFieldId(id) && id !in fields
        ensures IsAbsent(buf, off, id) && IsAbsent(buf', off', id)
      {
        ReadsAbsent(buf, off, fields, id, align);
        ReadsAbsent(buf', off', fields, id, align');
      }
      forall id: nat | id in fields
        ensures FieldReadsAlike(buf, off, buf', off', id, fields[id])
      {
        SameFieldReadsAlike(buf, off, align, buf', off', align', fields, id);
      }
  }

  lemma {:induction false} SameFieldReadsAlike(buf: seq<byte>, off: nat, align: nat, buf': seq<byte>, off': nat, align': nat, fields: map<nat, Field>, id: nat)
    requires ObjAt(buf, off, VTable(fields), align) && ObjAt(buf', off', VTable(fields), align') && id in fields
    ensures FieldReadsAlike(buf, off, buf', off', id, fields[id])
    decreases fields[id]
  {
    FieldIds(buf, off, fields, id, align);
    hide ObjAt, GetField, GetPointer, ReadAlike;
    match fields[id]
    case Scalar(bytes) =>
      forall default
        ensures ReadsAs(buf, off, id, bytes, default) && ReadsAs(buf', off', id, bytes, default)
      {
        ReadsScalar(buf, off, fields, id, |bytes|, default, align);
        ReadsScalar(buf', off', fields, id, |bytes|, default, align');
      }
    case Ref(target) =>
      var p := ReadsRef(buf, off, fields, id, align);
      var p' := ReadsRef(buf', off', fields, id, align');
      SameValueReadsAlike(buf, p, align, buf', p', align', target);
  }

  lemma FieldIds(buf: seq<byte>, off: nat, fields: map<nat, Field>, id: nat, align: nat)
    requires ObjAt(buf, off, VTable(fields), align) && id in fields
    ensures IsFieldId(id)
  {}

  /** Every object of one run reads like its counterpart in the other. */
  ghost predicate RunsReadAlike(s: State, offs: seq<nat>, s': State, offs': seq<nat>, vals: seq<Value>) {
    && |offs| == |offs'| == |vals|
    && forall k :: 0 <= k < |vals| ==> ReadAlike(s.data, offs[k], s'.data, offs'[k], vals[k])
  }

  lemma HeldReadAlike(s: State, offs: seq<nat>, s': State, offs': seq<nat>, vals: seq<Value>)
    requires Holds(s, offs, vals) && Holds(s', offs', vals)
    ensures RunsReadAlike(s, offs, s', offs', vals)
  {
    hide ObjAt, ReadAlike;
    forall k | 0 <= k < |vals|
      ensures ReadAlike(s.data, offs[k], s'.data, offs'[k], vals[k])
    {
      SameValueReadsAlike(s.data, offs[k], s.minalign, s'.data, offs'[k], s'.minalign, vals[k]);
    }
  }

  /**
   * Sharing of vtables: from any idle builder and with any objects already in it, the same run with
   * vtables shared and without holds the same values, and every accessor reads the same from both. The
   * remembered vtables stay pairwise different while they are shared.
   */
  lemma VTableSharingReadsTheSame(s: State, ops: seq<Op>, offs: seq<nat>, vals: seq<Value>)
    requires Idle(s) && Holds(s, offs, vals)
    requires RunOk(s.(dedupVtables := true), ops, offs) && RunOk(s.(dedupVtables := false), ops, offs)
    ensures var (s1, offs1) := Run(s.(dedupVtables := true), ops, offs); var (s2, offs2) := Run(s.(dedupVtables := false), ops, offs);
      var all := Meanings(ops, vals, s.forceDefaults);
      && Holds(s1, offs1, all) && Holds(s2, offs2, all)
      && RunsReadAlike(s1, offs1, s2, offs2, all)
      && VTablesHold(s1) && (VTablesDistinct(s) ==> VTablesDistinct(s1))
  {
    var shared, unshared := s.(dedupVtables := true), s.(dedupVtables := false);
    SameIdle(s, shared, offs, vals);
    SameIdle(s, unshared, offs, vals);
    hide Run, RunOk, Idle, Holds, VTablesDistinct, RunsReadAlike, Meanings;
    RunBuilds(shared, ops, offs, vals);
    RunBuilds(unshared, ops, offs, vals);
    HeldReadAlike(Run(shared, ops, offs).0, Run(shared, ops, offs).1, Run(unshared, ops, offs).0, Run(unshared, ops, offs).1,
                  Meanings(ops, vals, s.forceDefaults));
    IdleVTables(Run(shared, ops, offs).0);
  }

  lemma SameIdle(s: State, s': State, offs: seq<nat>, vals: seq<Value>)
    requires Idle(s) && Holds(s, offs, vals) && s' == s.(dedupVtables := s'.dedupVtables)
    ensures Idle(s') && Holds(s', offs, vals) && (VTablesDistinct(s) ==> VTablesDistinct(s'))
  {
    hide ObjAt, VTableAt, VTableContents, StringAt, Aligned;
  }

  lemma IdleVTables(s: State)
    requires Idle(s)
    ensures VTablesHold(s)
  {}

  /** The same run with every pooled string created anew. */
  function Unpooled(ops: seq<Op>): (r: seq<Op>)
    ensures |r| == |ops|
  {
    if ops == [] then []
    else [if ops[0].MakeSharedString? then MakeString(ops[0].chars) else ops[0]] + Unpooled(ops[1..])
  }

  lemma {:induction false} UnpooledMeanings(ops: seq<Op>, vals: seq<Value>, force: bool)
    ensures Meanings(Unpooled(ops), vals, force) == Meanings(ops, vals, force)
    decreases |ops|
  {
    if ops == [] {
    } else {
      var first := Unpooled(ops)[0];
      assert Unpooled(ops)[1..] == Unpooled(ops[1..]);
      assert Meaning(first, vals, force) == Meaning(ops[0], vals, force);
      UnpooledMeanings(ops[1..], vals + [Meaning(ops[0], vals, force)], force);
    }
  }

  /**
   * Pooling of strings: from any idle builder, a run and the same run with every string created anew hold
   * the same values, and every accessor reads the same from both: in particular the bytes of every string
   * at the offset that was returned for it.
   */
  lemma PoolingReadsTheSame(s: State, ops: seq<Op>, offs: seq<nat>, vals: seq<Value>)
    requires Idle(s) && Holds(s, offs, vals)
    requires RunOk(s, ops, offs) && RunOk(s, Unpooled(ops), offs)
    ensures var (s1, offs1) := Run(s, ops, offs); var (s2, offs2) := Run(s, Unpooled(ops), offs);
      var all := Meanings(ops, vals, s.forceDefaults);
      && Holds(s1, offs1, all) && Holds(s2, offs2, all)
      && RunsReadAlike(s1, offs1, s2, offs2, all)
  {
    hide Run, RunOk, Idle, Holds, RunsReadAlike, Meanings, Unpooled;
    RunBuilds(s, ops, offs, vals);
    RunBuilds(s, Unpooled(ops), offs, vals);
    UnpooledMeanings(ops, vals, s.forceDefaults);
    HeldReadAlike(Run(s, ops, offs).0, Run(s, ops, offs).1, Run(s, Unpooled(ops), offs).0, Run(s, Unpooled(ops), offs).1,
                  Meanings(ops, vals, s.forceDefaults));
  }
}
