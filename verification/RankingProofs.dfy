/** Messages of the ranking protocol: every one is built, accepted by the verifier and read back unchanged. */
module RankingProofs {
  import opened Bytes
  import opened Common
  import opened FlatReader
  import opened FlatObjects
  import opened FlatBuilder
  import opened FlatBuilderProofs
  import opened FlatRuns
  import opened FlatRoundTrip
  import opened FlatVerifier
  import opened FlatDecode
  import opened FlatComplete
  import opened RankingProtocol

  lemma SchemaIsOk()
    ensures SchemaOk(SCHEMA) && |SCHEMA| == 5
  {
    assert SCHEMA[4][1] == FieldDef(6, ScalarKind(1));
  }

  function ContentIdLength(c: Content): nat {
    if c.playerId.Some? then |c.playerId.value| else 0
  }

  function IdLength(m: Message): nat {
    if m.content.Some? then ContentIdLength(m.content.value) else 0
  }

  /** The player id of a content, as the first object of a run. */
  function IdVals(c: Content): seq<Value> {
    if c.playerId.Some? then [VString(c.playerId.value)] else []
  }

  function IdRef(c: Content): Option<nat> {
    if c.playerId.Some? then Some(0) else None
  }

  function ContentVal(c: Content, force: bool): Value
    requires ContentOk(c)
  {
    VTable(Stored(ContentAdds(c, IdRef(c)), IdVals(c), force))
  }

  /** The values a message's content is made of: the player id, when there is one, and the table. */
  function ContentVals(c: Content, force: bool): seq<Value>
    requires ContentOk(c)
  {
    IdVals(c) + [ContentVal(c, force)]
  }

  function MessageVal(m: Message, force: bool): Value
    requires MessageOk(m)
  {
    match m.content
    case None => VTable(Stored(MessageAdds(m, None), [], force))
    case Some(c) =>
      VTable(Stored(MessageAdds(m, Some(|ContentVals(c, force)| - 1)), ContentVals(c, force), force))
  }

  lemma ContentAddsFit(c: Content, id: Option<nat>, objects: nat)
    requires ContentOk(c) && (id.Some? ==> id.value < objects)
    ensures var adds := ContentAdds(c, id);
      DistinctIds(adds) && AddsFit(adds, objects, 12) && AddsRoom(adds) <= 75
  {
    hide Le, FromSigned, AddsRoom;
    RoomBound(ContentAdds(c, id));
  }

  lemma MessageAddsFit(m: Message, content: Option<nat>, objects: nat)
    requires MessageOk(m) && (content.Some? ==> content.value < objects)
    ensures var adds := MessageAdds(m, content);
      DistinctIds(adds) && AddsFit(adds, objects, 8) && AddsRoom(adds) <= 45
  {
    hide Le, FromSigned, AddsRoom;
    RoomBound(MessageAdds(m, content));
  }

  /** One more table on top of a run that has gone well. */
  lemma RunTable(s: State, ops: seq<Op>, adds: seq<Add>, lastId: nat)
    requires Idle(s) && RunOk(s, ops, []) && DistinctIds(adds) && AddsFit(adds, |ops|, lastId)
    requires lastId < 0xFFFE && AddsRoom(adds) + 7 < 0x1_0000
    requires |Run(s, ops, []).0.data| + TableRoom(adds, lastId) < MAX_BUFFER_SIZE
    ensures RunOk(s, ops + [MakeTable(adds)], [])
    ensures |Run(s, ops + [MakeTable(adds)], []).0.data| <= |Run(s, ops, []).0.data| + TableRoom(adds, lastId)
  {
    hide Idle, Holds, DistinctIds, AddFits, RunOk, Run, RunOp, OpOk, Meanings, VTablesHold, VTablesDistinct;
    assert Holds(s, [], []) by {
      NothingHeld(s);
    }
    RunBuilds(s, ops, [], []);
    RunLengths(s, ops, []);
    var (s1, offs) := Run(s, ops, []);
    TableFits(s1, adds, offs, Meanings(ops, [], s.forceDefaults), lastId);
    RunSnoc(s, ops, MakeTable(adds), []);
  }

  lemma NothingHeld(s: State)
    ensures Holds(s, [], [])
  {}

  lemma TableIsLong(s: State, adds: seq<Add>, offs: seq<nat>, vals: seq<Value>)
    requires Idle(s) && Holds(s, offs, vals) && OpOk(s, MakeTable(adds), offs)
    ensures 8 <= |RunOp(s, MakeTable(adds), offs).0.data|
  {
    hide ObjAt, Extends, EndTable, VTableAt, PoolHolds, RunAdds, AddsOk, OpenTable, CanEndTable, FieldsFit, Holds, DistinctIds;
    TableBegins(s, offs, vals);
    assert [] + adds == adds;
    RunAddsBuilds(s, StartTable(s), [], adds, offs, vals);
    var now := RunAdds(StartTable(s), adds, offs);
    VTablesStay(s, now);
    EndTableIsLonger(now, |s.data|);
    EndTableBuilds(now, |s.data|, Stored(adds, vals, s.forceDefaults));
  }

  /** A run that ends in a table leaves that table as its last object, in a buffer with a vtable and a table in it. */
  lemma TableStands(s: State, ops: seq<Op>, adds: seq<Add>)
    requires Idle(s) && RunOk(s, ops + [MakeTable(adds)], [])
    ensures var (s', offs) := Run(s, ops + [MakeTable(adds)], []);
      && Idle(s') && Extends(s', s) && s'.finished == s.finished
      && |offs| == |ops| + 1 && 8 <= |s'.data|
      && ObjAt(s'.data, offs[|ops|], Meaning(MakeTable(adds), Meanings(ops, [], s.forceDefaults), s.forceDefaults), s'.minalign)
  {
    hide Idle, Holds, RunOk, Run, RunOp, OpOk, Meanings, Meaning, ObjAt, Extends, VTablesHold, VTablesDistinct;
    NothingHeld(s);
    RunBuilds(s, ops + [MakeTable(adds)], [], []);
    RunLengths(s, ops + [MakeTable(adds)], []);
    MeaningsSnoc(ops, MakeTable(adds), [], s.forceDefaults);
    var (s', offs) := Run(s, ops + [MakeTable(adds)], []);
    LastHeld(s', offs, Meanings(ops + [MakeTable(adds)], [], s.forceDefaults));
    RunLast(s, ops, MakeTable(adds), []);
    RunBuilds(s, ops, [], []);
    var (s1, offs1) := Run(s, ops, []);
    TableIsLong(s1, adds, offs1, Meanings(ops, [], s.forceDefaults));
  }

  /** The objects before the content's table, and the add that refers to them. */
  function IdOps(c: Content): seq<Op> {
    if c.playerId.Some? then [MakeString(c.playerId.value)] else []
  }

  lemma ContentParts(c: Content, force: bool)
    requires ContentOk(c)
    ensures ContentOps(c) == IdOps(c) + [MakeTable(ContentAdds(c, IdRef(c)))]
    ensures Meanings(IdOps(c), [], force) == IdVals(c)
    ensures Meaning(MakeTable(ContentAdds(c, IdRef(c))), IdVals(c), force) == ContentVal(c, force)
  {
    hide ContentAdds, Stored;
    if c.playerId.Some? {
      MeaningsSnoc([], MakeString(c.playerId.value), [], force);
      assert [] + IdOps(c) == IdOps(c) && [] + [VString(c.playerId.value)] == IdVals(c);
    } else {
      assert [] + [MakeTable(ContentAdds(c, None))] == ContentOps(c);
    }
  }

  lemma ContentMeanings(c: Content, force: bool)
    requires ContentOk(c)
    ensures Meanings(ContentOps(c), [], force) == ContentVals(c, force) && |ContentOps(c)| == |ContentVals(c, force)| > 0
  {
    ContentParts(c, force);
    hide ContentAdds, Stored, Meaning, Meanings, ContentOps;
    MeaningsSnoc(IdOps(c), MakeTable(ContentAdds(c, IdRef(c))), [], force);
  }

  /** Whenever no assertion fails, a content's table stands at the end of its run. */
  lemma ContentStands(s: State, c: Content)
    requires Idle(s) && ContentOk(c) && RunOk(s, ContentOps(c), [])
    ensures var (s', offs) := Run(s, ContentOps(c), []);
      && Idle(s') && Extends(s', s) && s'.finished == s.finished && |offs| > 0 && 8 <= |s'.data|
      && ObjAt(s'.data, offs[|offs| - 1], ContentVal(c, s.forceDefaults), s'.minalign)
  {
    hide Idle, RunOk, Run, Meanings, Meaning, ContentOps, ContentAdds, ContentVal, ObjAt, Extends;
    ContentParts(c, s.forceDefaults);
    TableStands(s, IdOps(c), ContentAdds(c, IdRef(c)));
  }

  /** The objects before a message's table, and the one the table refers to. */
  function BeforeMessage(m: Message): seq<Op>
    requires MessageOk(m)
  {
    if m.content.Some? then ContentOps(m.content.value) else []
  }

  function ContentRef(m: Message): Option<nat>
    requires MessageOk(m)
  {
    if m.content.Some? && |ContentOps(m.content.value)| > 0 then Some(|ContentOps(m.content.value)| - 1) else None
  }

  lemma MessageParts(m: Message, force: bool)
    requires MessageOk(m)
    ensures MessageOps(m) == BeforeMessage(m) + [MakeTable(MessageAdds(m, ContentRef(m)))]
    ensures ContentRef(m).Some? ==> ContentRef(m).value < |BeforeMessage(m)|
    ensures Meaning(MakeTable(MessageAdds(m, ContentRef(m))), Meanings(BeforeMessage(m), [], force), force) == MessageVal(m, force)
  {
    hide MessageAdds, Stored, ContentOps, ContentVals;
    match m.content
    case None =>
      assert [] + [MakeTable(MessageAdds(m, None))] == MessageOps(m);
    case Some(c) =>
      ContentMeanings(c, force);
      hide Meanings;
  }

  /** Whenever no assertion fails, a message's table stands at the end of its run. */
  lemma MessageStands(s: State, m: Message)
    requires Idle(s) && MessageOk(m) && RunOk(s, MessageOps(m), [])
    ensures var (s', offs) := Run(s, MessageOps(m), []);
      && Idle(s') && Extends(s', s) && s'.finished == s.finished && |offs| > 0 && 8 <= |s'.data|
      && ObjAt(s'.data, offs[|offs| - 1], MessageVal(m, s.forceDefaults), s'.minalign)
  {
    hide Idle, RunOk, Run, Meanings, Meaning, MessageOps, BeforeMessage, ContentRef, MessageAdds, MessageVal, ObjAt, Extends;
    MessageParts(m, s.forceDefaults);
    TableStands(s, BeforeMessage(m), MessageAdds(m, ContentRef(m)));
  }

  // ----- when there is room for a message

  /** Building a message's content violates no assertion where there is room for it. */
  lemma ContentRuns(s: State, c: Content)
    requires Idle(s) && ContentOk(c)
    requires |s.data| + ContentIdLength(c) + 0x70 < MAX_BUFFER_SIZE
    ensures RunOk(s, ContentOps(c), [])
    ensures |Run(s, ContentOps(c), []).0.data| <= |s.data| + ContentIdLength(c) + 0x6C
  {
    hide Idle, ContentAdds, DistinctIds, AddFits, AddsRoom, OpOk, RunOp, ContentOps;
    var adds := ContentAdds(c, IdRef(c));
    ContentParts(c, s.forceDefaults);
    ContentAddsFit(c, IdRef(c), |IdOps(c)|);
    match c.playerId
    case None =>
      RunTable(s, [], adds, 12);
    case Some(chars) =>
      StringFits(s, chars, []);
      RunOfOne(s, MakeString(chars), []);
      RunTable(s, [MakeString(chars)], adds, 12);
  }

  /** Building a message violates no assertion where there is room for it. */
  lemma MessageRuns(s: State, m: Message)
    requires Idle(s) && MessageOk(m) && |s.data| + IdLength(m) + 0xB0 < MAX_BUFFER_SIZE
    ensures RunOk(s, MessageOps(m), [])
    ensures |Run(s, MessageOps(m), []).0.data| <= |s.data| + IdLength(m) + 0xAC
  {
    hide Idle, MessageAdds, DistinctIds, AddFits, AddsRoom, RunOk, Run, ContentOps, MessageOps, ContentRef;
    MessageParts(m, s.forceDefaults);
    var adds := MessageAdds(m, ContentRef(m));
    MessageAddsFit(m, ContentRef(m), |BeforeMessage(m)|);
    if m.content.Some? {
      ContentRuns(s, m.content.value);
    } else {
      NothingRuns(s);
    }
    RunTable(s, BeforeMessage(m), adds, 8);
  }

  lemma NothingRuns(s: State)
    ensures RunOk(s, [], []) && Run(s, [], []) == (s, []) && Meanings([], [], s.forceDefaults) == []
  {}

  lemma LastHeld(s: State, offs: seq<nat>, vals: seq<Value>)
    requires Holds(s, offs, vals) && |offs| > 0
    ensures |vals| == |offs| && ObjAt(s.data, offs[|offs| - 1], vals[|vals| - 1], s.minalign)
  {}

  // ----- reading a message back

  lemma IdRead(buf: seq<byte>, off: nat, adds: seq<Add>, vals: seq<Value>, force: bool, i: nat, align: nat, id: Option<seq<byte>>)
    requires ObjAt(buf, off, VTable(Stored(adds, vals, force)), align) && DistinctIds(adds) && i < |adds|
    requires adds[i] == AddRef(4, if id.Some? then Some(0) else None) && (id.Some? ==> |vals| > 0 && vals[0] == VString(id.value))
    ensures PlayerId(buf, |buf| - off) == Got(id)
  {
    hide ObjAt, Stored, GetStringField, DistinctIds;
    ReadsAddedString(buf, off, adds, vals, force, i, align);
  }

  lemma FlagRead(buf: seq<byte>, off: nat, adds: seq<Add>, vals: seq<Value>, force: bool, i: nat, align: nat, id: nat, b: bool)
    requires ObjAt(buf, off, VTable(Stored(adds, vals, force)), align) && DistinctIds(adds) && i < |adds|
    requires IsFieldId(id) && adds[i] == AddScalar(id, Bool(b), Bool(false))
    ensures ReadFlag(buf, |buf| - off, id) == Got(b)
  {
    hide ObjAt, Stored, GetField, DistinctIds, Le, UnLe;
    Pow256Values();
    LeRoundTrip(0, 1);
    LeRoundTrip(1, 1);
    ReadsAddedScalar(buf, off, adds, vals, force, i, align);
  }

  lemma Int32Read(buf: seq<byte>, off: nat, adds: seq<Add>, vals: seq<Value>, force: bool, i: nat, align: nat, id: nat, value: int)
    requires ObjAt(buf, off, VTable(Stored(adds, vals, force)), align) && DistinctIds(adds) && i < |adds|
    requires IsFieldId(id) && IsInt32(value) && adds[i] == AddScalar(id, Int32(value), Int32(0))
    ensures GetSignedField(buf, |buf| - off, id, 4, 0) == Got(value)
  {
    hide ObjAt, Stored, GetSignedField, DistinctIds, Le, FromSigned;
    Pow256Values();
    ReadsAddedSigned(buf, off, adds, vals, force, i, align, value, 4);
  }

  lemma Int64Read(buf: seq<byte>, off: nat, adds: seq<Add>, vals: seq<Value>, force: bool, i: nat, align: nat, id: nat, value: int)
    requires ObjAt(buf, off, VTable(Stored(adds, vals, force)), align) && DistinctIds(adds) && i < |adds|
    requires IsFieldId(id) && IsInt64(value) && adds[i] == AddScalar(id, Int64(value), Int64(0))
    ensures GetSignedField(buf, |buf| - off, id, 8, 0) == Got(value)
  {
    hide ObjAt, Stored, GetSignedField, DistinctIds, Le, FromSigned;
    Pow256Values();
    ReadsAddedSigned(buf, off, adds, vals, force, i, align, value, 8);
  }

  /** The accessors of a content table give back the content. */
  lemma ContentRead(buf: seq<byte>, off: nat, c: Content, force: bool, align: nat)
    requires ContentOk(c)
    requires ObjAt(buf, off, ContentVal(c, force), align)
    ensures ReadContent(buf, |buf| - off, ContentType(Some(c))) == Got(Some(c))
  {
    hide ObjAt, Stored, PlayerId, ReadFlag, GetSignedField, Int32, Int64, Bool, DistinctIds, AddFits;
    var vals := IdVals(c);
    var adds := ContentAdds(c, IdRef(c));
    ContentAddsFit(c, IdRef(c), 1);
    match c
    case RequestSaveScore(_, score, lastUpdate) =>
      Int64Read(buf, off, adds, vals, force, 0, align, 8, lastUpdate);
      Int32Read(buf, off, adds, vals, force, 1, align, 6, score);
      IdRead(buf, off, adds, vals, force, 2, align, c.playerId);
    case ResponseSaveScore(_, feedback) =>
      IdRead(buf, off, adds, vals, force, 0, align, c.playerId);
      FlagRead(buf, off, adds, vals, force, 1, align, 6, feedback);
    case RequestPlayerRanking(_) =>
      IdRead(buf, off, adds, vals, force, 0, align, c.playerId);
    case ResponsePlayerRanking(_, score, ranking, inRanking, feedback) =>
      Int32Read(buf, off, adds, vals, force, 0, align, 8, ranking);
      Int32Read(buf, off, adds, vals, force, 1, align, 6, score);
      IdRead(buf, off, adds, vals, force, 2, align, c.playerId);
      FlagRead(buf, off, adds, vals, force, 3, align, 12, feedback);
      FlagRead(buf, off, adds, vals, force, 4, align, 10, inRanking);
  }

  lemma TypeRead(buf: seq<byte>, off: nat, adds: seq<Add>, vals: seq<Value>, force: bool, i: nat, align: nat, ty: nat)
    requires ObjAt(buf, off, VTable(Stored(adds, vals, force)), align) && DistinctIds(adds) && i < |adds|
    requires ty < 256 && adds[i] == AddScalar(6, Le(ty, 1), Le(0, 1))
    ensures GetField(buf, |buf| - off, 6, 1, 0) == Got(ty)
  {
    hide ObjAt, Stored, GetField, DistinctIds, Le, UnLe;
    Pow256Values();
    LeRoundTrip(ty, 1);
    LeRoundTrip(0, 1);
    ReadsAddedScalar(buf, off, adds, vals, force, i, align);
  }

  /** The accessors of a message, and of its content, give back the message. */
  lemma MessageRead(buf: seq<byte>, off: nat, m: Message, force: bool, align: nat)
    requires MessageOk(m) && ObjAt(buf, off, MessageVal(m, force), align)
    ensures ReadMessageAt(buf, |buf| - off) == Got(m)
  {
    hide ObjAt, Stored, ReadContent, GetSignedField, GetField, GetPointer, Int32, DistinctIds, AddFits, ContentVal;
    var vals := if m.content.None? then [] else ContentVals(m.content.value, force);
    var content: Option<nat> := None;
    if m.content.Some? {
      content := Some(|vals| - 1);
    }
    var adds := MessageAdds(m, content);
    MessageAddsFit(m, content, |vals|);
    Int32Read(buf, off, adds, vals, force, 1, align, 4, m.messageType);
    TypeRead(buf, off, adds, vals, force, 2, align, ContentType(m.content));
    var target := ReadsAddedRef(buf, off, adds, vals, force, 0, align);
    if m.content.Some? {
      var c := m.content.value;
      ContentRead(buf, target, c, force, align);
    }
  }

  // ----- the verifier accepts every message

  predicate AddMatches(def: FieldDef, add: Add, vals: seq<Value>) {
    match def.kind
    case ScalarKind(size) => add.AddScalar? && |add.bytes| == size
    case StringKind => add.AddRef? && (add.target.Some? ==> add.target.value < |vals| && vals[add.target.value].VString?)
    case _ => false
  }

  /** A table of scalars and strings, added as its schema says, conforms to it and contains no further table. */
  lemma FlatTableConforms(sc: Schema, t: nat, adds: seq<Add>, vals: seq<Value>, force: bool)
    requires SchemaOk(sc) && t < |sc| && DistinctIds(adds)
    requires forall i :: 0 <= i < |sc[t]| ==> sc[t][i].kind.ScalarKind? || sc[t][i].kind.StringKind?
    requires forall i, j :: 0 <= i < |sc[t]| && 0 <= j < |adds| && sc[t][i].id == adds[j].id ==> AddMatches(sc[t][i], adds[j], vals)
    ensures var v := VTable(Stored(adds, vals, force));
      Conforms(sc, t, v) && Height(Typed(sc, t, v)) == 1 && Count(Typed(sc, t, v)) == 1
  {
    hide DistinctIds, Stored, SchemaOk;
    var v := VTable(Stored(adds, vals, force));
    StoredIds(adds, vals, force);
    forall i | 0 <= i < |sc[t]| && sc[t][i].id in v.fields
      ensures FieldConforms(sc, t, i, v)
    {
      var j :| 0 <= j < |adds| && adds[j].id == sc[t][i].id;
      assert AddMatches(sc[t][i], adds[j], vals);
      StoredLookup(adds, vals, force, j);
    }
    NoFurtherTables(sc, t, 0, v);
  }

  lemma {:induction false} NoFurtherTables(sc: Schema, t: nat, i: nat, v: Value)
    requires SchemaOk(sc) && t < |sc| && i <= |sc[t]| && Conforms(sc, t, v)
    requires forall i :: 0 <= i < |sc[t]| ==> sc[t][i].kind.ScalarKind? || sc[t][i].kind.StringKind?
    ensures HeightOf(TypedFields(sc, t, i, v)) == 0 && CountOf(TypedFields(sc, t, i, v)) == 0
    decreases |sc[t]| - i
  {
    hide Conforms, SchemaOk;
    if i < |sc[t]| {
      NoFurtherTables(sc, t, i + 1, v);
    }
  }

  lemma ContentConforms(c: Content, force: bool)
    requires ContentOk(c)
    ensures SchemaOk(SCHEMA) && var t := ContentType(Some(c)) - 1; var v := ContentVal(c, force);
      t < |SCHEMA| && Conforms(SCHEMA, t, v) && Height(Typed(SCHEMA, t, v)) == 1 && Count(Typed(SCHEMA, t, v)) == 1
  {
    hide DistinctIds, AddFits, Conforms, Typed, Height, Count, SchemaOk, Le, FromSigned;
    SchemaIsOk();
    ContentAddsFit(c, IdRef(c), 1);
    FlatTableConforms(SCHEMA, ContentType(Some(c)) - 1, ContentAdds(c, IdRef(c)), IdVals(c), force);
  }

  /** The message table conforms to its schema: its content is of the type its content type names. */
  lemma MessageConforms(m: Message, force: bool)
    requires MessageOk(m)
    ensures SchemaOk(SCHEMA) && Conforms(SCHEMA, RANKING_PROTOCOL, MessageVal(m, force))
    ensures var rec := Typed(SCHEMA, RANKING_PROTOCOL, MessageVal(m, force)); Height(rec) <= 2 && Count(rec) <= 2
  {
    hide DistinctIds, AddFits, SchemaOk, Stored, ContentVal, Le, Int32, Conforms, Typed, Height, Count, FieldConforms;
    SchemaIsOk();
    var vals := if m.content.None? then [] else ContentVals(m.content.value, force);
    var content: Option<nat> := if m.content.None? then None else Some(|vals| - 1);
    var adds := MessageAdds(m, content);
    MessageAddsFit(m, content, |vals|);
    var v := MessageVal(m, force);
    StoredLookup(adds, vals, force, 0);
    StoredLookup(adds, vals, force, 1);
    StoredLookup(adds, vals, force, 2);
    assert NumberIn(v.fields, 6) == ContentType(m.content) by {
      TypeStored(v.fields, ContentType(m.content), force);
    }
    if m.content.Some? {
      ContentConforms(m.content.value, force);
    }
    assert SCHEMA[4][2].kind.members == map[1 := 0, 2 := 1, 3 := 2, 4 := 3];
    MessageFieldsConform(v, m.content, force);
  }

  lemma TypeStored(fields: map<nat, Field>, ty: nat, force: bool)
    requires ty < 256
    requires 6 in fields <==> !(Le(ty, 1) == Le(0, 1) && !force)
    requires 6 in fields ==> fields[6] == Scalar(Le(ty, 1))
    ensures NumberIn(fields, 6) == ty
  {
    hide Le, UnLe;
    Pow256Values();
    LeRoundTrip(ty, 1);
    LeRoundTrip(0, 1);
  }

  lemma MessageFieldsConform(v: Value, content: Option<Content>, force: bool)
    requires SchemaOk(SCHEMA) && v.VTable? && (content.Some? ==> ContentOk(content.value))
    requires 4 in v.fields ==> v.fields[4].Scalar? && |v.fields[4].bytes| == 4
    requires 6 in v.fields ==> v.fields[6].Scalar? && |v.fields[6].bytes| == 1
    requires NumberIn(v.fields, 6) == ContentType(content)
    requires 8 in v.fields <==> content.Some?
    requires content.Some? ==>
      && v.fields[8] == Ref(ContentVal(content.value, force))
      && Conforms(SCHEMA, ContentType(content) - 1, ContentVal(content.value, force))
      && Height(Typed(SCHEMA, ContentType(content) - 1, ContentVal(content.value, force))) == 1
      && Count(Typed(SCHEMA, ContentType(content) - 1, ContentVal(content.value, force))) == 1
    ensures Conforms(SCHEMA, RANKING_PROTOCOL, v)
    ensures var rec := Typed(SCHEMA, RANKING_PROTOCOL, v); Height(rec) <= 2 && Count(rec) <= 2
  {
    hide ContentVal, NumberIn, SchemaOk;
    assert SCHEMA[4][2] == FieldDef(8, UnionKind(6, map[1 := 0, 2 := 1, 3 := 2, 4 := 3]));
    forall i | 0 <= i < |SCHEMA[4]| && SCHEMA[4][i].id in v.fields
      ensures FieldConforms(SCHEMA, 4, i, v)
    {
      if i == 2 {
      } else if i == 1 {
      } else {
      }
    }
    MessageTables(v, content, force);
  }

  lemma MessageTables(v: Value, content: Option<Content>, force: bool)
    requires SchemaOk(SCHEMA) && Conforms(SCHEMA, RANKING_PROTOCOL, v) && (content.Some? ==> ContentOk(content.value))
    requires NumberIn(v.fields, 6) == ContentType(content) && (8 in v.fields <==> content.Some?)
    requires content.Some? ==>
      && v.fields[8] == Ref(ContentVal(content.value, force))
      && Conforms(SCHEMA, ContentType(content) - 1, ContentVal(content.value, force))
      && Height(Typed(SCHEMA, ContentType(content) - 1, ContentVal(content.value, force))) == 1
      && Count(Typed(SCHEMA, ContentType(content) - 1, ContentVal(content.value, force))) == 1
    ensures var rec := Typed(SCHEMA, RANKING_PROTOCOL, v); Height(rec) <= 2 && Count(rec) <= 2
  {
    hide Conforms, ContentVal, NumberIn, SchemaOk;
    assert SCHEMA[4][2] == FieldDef(8, UnionKind(6, map[1 := 0, 2 := 1, 3 := 2, 4 := 3]));
    var f0, f1, f2 := TypedField(SCHEMA, 4, 0, v), TypedField(SCHEMA, 4, 1, v), TypedField(SCHEMA, 4, 2, v);
    assert AccessedHeight(f0) == 0 && AccessedCount(f0) == 0;
    assert AccessedHeight(f1) == 0 && AccessedCount(f1) == 0;
    assert AccessedHeight(f2) <= 1 && AccessedCount(f2) <= 1;
    hide Typed, TypedField, AccessedHeight, AccessedCount;
    assert TypedFields(SCHEMA, 4, 3, v) == [];
    assert TypedFields(SCHEMA, 4, 2, v) == [f2];
    assert TypedFields(SCHEMA, 4, 1, v) == [f1] + [f2];
    assert TypedFields(SCHEMA, 4, 0, v) == [f0] + ([f1] + [f2]);
    TablesOfCons(f0, [f1] + [f2]);
    TablesOfCons(f1, [f2]);
    TablesOfCons(f2, []);
    assert [f2] + [] == [f2];
  }

  lemma TablesOfCons(c: Accessed, rest: seq<Accessed>)
    ensures HeightOf([c] + rest) == if AccessedHeight(c) > HeightOf(rest) then AccessedHeight(c) else HeightOf(rest)
    ensures CountOf([c] + rest) == AccessedCount(c) + CountOf(rest)
  {
    assert ([c] + rest)[1..] == rest;
  }
}
