/**
 * The Create functions of the generated header, run on a builder object: each takes the builder where the
 * script of the same message takes its model, so what it sends reads back as the message.
 */
module RankingBuilder {
  import opened Bytes
  import opened Common
  import opened FlatReader
  import opened FlatObjects
  import FlatBuilder
  import opened FlatBuilderProofs
  import opened FlatRuns
  import opened FlatRoundTrip
  import FlatComplete
  import opened FlatVerifier
  import opened BuilderClass
  import opened RankingProtocol
  import opened RankingProofs
  import opened RankingTheorems

  // ----- how the adds of a table proceed

  /** What is left to add takes the builder to the state `last`, in which the table can be ended. */
  ghost predicate Pending(now: FlatBuilder.State, rest: seq<Add>, offs: seq<nat>, last: FlatBuilder.State) {
    && AddsOk(now, rest, offs) && RunAdds(now, rest, offs) == last
    && |last.data| < FlatBuilder.MAX_BUFFER_SIZE
    && forall i :: 0 <= i < |rest| ==> rest[i].id < 0x1_0000
  }

  lemma AddGrows(now: FlatBuilder.State, add: Add, offs: seq<nat>)
    requires AddOk(now, add, offs)
    ensures var next := RunAdd(now, add, offs);
      |now.data| <= |next.data|
  {
    hide PaddingBytes, Le, Zeros;
  }

  lemma {:induction false} AddsGrow(now: FlatBuilder.State, rest: seq<Add>, offs: seq<nat>)
    requires AddsOk(now, rest, offs)
    ensures |now.data| <= |RunAdds(now, rest, offs).data|
    decreases |rest|
  {
    hide RunAdd, AddOk;
    if rest != [] {
      AddGrows(now, rest[0], offs);
      AddsGrow(RunAdd(now, rest[0], offs), rest[1..], offs);
    }
  }

  /** The next add fits, and after it the rest is pending. */
  lemma NextAdd(now: FlatBuilder.State, rest: seq<Add>, offs: seq<nat>, last: FlatBuilder.State)
    requires Pending(now, rest, offs, last) && rest != []
    ensures AddOk(now, rest[0], offs) && rest[0].id < 0x1_0000
    ensures var next := RunAdd(now, rest[0], offs);
      && Pending(next, rest[1..], offs, last)
      && |now.data| <= |next.data| < FlatBuilder.MAX_BUFFER_SIZE
  {
    hide RunAdd, AddOk;
    var next := RunAdd(now, rest[0], offs);
    AddGrows(now, rest[0], offs);
    AddsGrow(next, rest[1..], offs);
    assert forall i :: 0 <= i < |rest[1..]| ==> rest[1..][i] == rest[i + 1];
  }

  /** A scalar member, whose value is not stored when it is the default. */
  method AddScalarMember(fbb: Builder, id: nat, bytes: seq<byte>, default: seq<byte>,
                         ghost rest: seq<Add>, ghost offs: seq<nat>, ghost last: FlatBuilder.State)
    requires fbb.Valid() && Pending(fbb.model, rest, offs, last) && rest != [] && rest[0] == AddScalar(id, bytes, default)
    modifies fbb
    ensures fbb.Valid() && Pending(fbb.model, rest[1..], offs, last)
  {
    NextAdd(fbb.model, rest, offs, last);
    hide Pending, FlatBuilder.PushElement;
    fbb.AddElement(id, bytes, default);
  }

  /** A member that is an offset, 0 for none. */
  method AddOffsetMember(fbb: Builder, id: nat, off: nat, ghost target: Option<nat>,
                         ghost rest: seq<Add>, ghost offs: seq<nat>, ghost last: FlatBuilder.State)
    requires fbb.Valid() && Pending(fbb.model, rest, offs, last) && rest != [] && rest[0] == AddRef(id, target)
    requires target.Some? ==> target.value < |offs| && off == offs[target.value]
    requires target.None? ==> off == 0
    modifies fbb
    ensures fbb.Valid() && Pending(fbb.model, rest[1..], offs, last)
  {
    NextAdd(fbb.model, rest, offs, last);
    hide Pending, FlatBuilder.AddOffset;
    fbb.AddOffset(id, off);
  }

  // ----- the tables

  /** A builder on which a table can be built, and what building it leaves. */
  ghost predicate Ready(s: FlatBuilder.State, adds: seq<Add>, offs: seq<nat>, vals: seq<Value>) {
    && Idle(s) && Holds(s, offs, vals) && OpOk(s, MakeTable(adds), offs)
    && forall i :: 0 <= i < |adds| ==> adds[i].id < 0x1_0000
  }

  /** The state in which the table is ended. */
  function Filled(s: FlatBuilder.State, adds: seq<Add>, offs: seq<nat>): FlatBuilder.State
    requires AddsOk(FlatBuilder.StartTable(s), adds, offs)
  {
    RunAdds(FlatBuilder.StartTable(s), adds, offs)
  }

  lemma TablePending(s: FlatBuilder.State, adds: seq<Add>, offs: seq<nat>, vals: seq<Value>)
    requires Ready(s, adds, offs, vals)
    ensures !s.nested && s.fields == [] && AddsOk(FlatBuilder.StartTable(s), adds, offs)
    ensures Pending(FlatBuilder.StartTable(s), adds, offs, Filled(s, adds, offs))
  {
    hide Idle, Holds, RunAdds, AddsOk, FlatBuilder.CanEndTable;
  }

  lemma OpenIsPlaced(s: FlatBuilder.State, start: nat, fields: map<nat, Field>)
    requires OpenTable(s, start, fields)
    ensures FieldsPlaced(s, start)
  {
    hide FieldAt;
    forall i | 0 <= i < |s.fields|
      ensures start < s.fields[i].off <= |s.data|
    {
      assert Tracked(s, start, fields, s.fields[i]);
    }
  }

  lemma TableEnds(s: FlatBuilder.State, adds: seq<Add>, offs: seq<nat>, vals: seq<Value>)
    requires Ready(s, adds, offs, vals)
    ensures OpOk(s, MakeTable(adds), offs)
    ensures EndTableOk(Filled(s, adds, offs), |s.data|)
    ensures RunOp(s, MakeTable(adds), offs) == FlatBuilder.EndTable(Filled(s, adds, offs), |s.data|)
  {
    hide Idle, Holds, Extends, OpenTable, AddsOk, RunAdds, FieldsPlaced, DistinctIds, Stored, FlatBuilder.PushElement, FlatBuilder.Align,
      FlatBuilder.CanEndTable, FlatBuilder.EndTable, FlatBuilder.VTableSize, FlatBuilder.FieldsFit;
    var now := Filled(s, adds, offs);
    TableBegins(s, offs, vals);
    assert [] + adds == adds;
    RunAddsBuilds(s, FlatBuilder.StartTable(s), [], adds, offs, vals);
    IdleHolds(s);
    VTablesStay(s, now);
    OpenIsPlaced(now, |s.data|, Stored(adds, vals, s.forceDefaults));
  }

  lemma IdleHolds(s: FlatBuilder.State)
    requires Idle(s)
    ensures VTablesHold(s)
  {}

  /** What the builder is left with when a table was built as its script says. */
  ghost predicate Built(s: FlatBuilder.State, adds: seq<Add>, offs: seq<nat>, s': FlatBuilder.State, table: nat) {
    OpOk(s, MakeTable(adds), offs) && (s', table) == RunOp(s, MakeTable(adds), offs)
  }

  /** The offset a member refers to. */
  ghost predicate Refers(off: nat, target: Option<nat>, offs: seq<nat>) {
    if target.Some? then target.value < |offs| && off == offs[target.value] else off == 0
  }

  lemma PendingDone(now: FlatBuilder.State, rest: seq<Add>, offs: seq<nat>, last: FlatBuilder.State)
    requires Pending(now, rest, offs, last) && rest == []
    ensures now == last
  {}

  method CreateRequestSaveScore(fbb: Builder, playerId: nat, score: int, lastUpdate: int,
                                ghost id: Option<nat>, ghost offs: seq<nat>, ghost vals: seq<Value>) returns (table: nat)
    requires IsInt32(score) && IsInt64(lastUpdate) && Refers(playerId, id, offs)
    requires fbb.Valid() && Ready(fbb.model, ContentAdds(RequestSaveScore(None, score, lastUpdate), id), offs, vals)
    modifies fbb
    ensures fbb.Valid() && Built(old(fbb.model), ContentAdds(RequestSaveScore(None, score, lastUpdate), id), offs, fbb.model, table)
  {
    ghost var s := fbb.model;
    ghost var adds := ContentAdds(RequestSaveScore(None, score, lastUpdate), id);
    TablePending(s, adds, offs, vals);
    TableEnds(s, adds, offs, vals);
    ghost var last := Filled(s, adds, offs);
    hide Pending, Ready, Filled, Int32, Int64, Bool, RunOp, OpOk, FlatBuilder.EndTable, EndTableOk;
    var start := fbb.StartTable();
    AddScalarMember(fbb, 8, Int64(lastUpdate), Int64(0), adds, offs, last);
    AddScalarMember(fbb, 6, Int32(score), Int32(0), adds[1..], offs, last);
    AddOffsetMember(fbb, 4, playerId, id, adds[1..][1..], offs, last);
    PendingDone(fbb.model, adds[1..][1..][1..], offs, last);
    table := fbb.EndTable(start);
  }

  method CreateResponseSaveScore(fbb: Builder, playerId: nat, feedback: bool,
                                 ghost id: Option<nat>, ghost offs: seq<nat>, ghost vals: seq<Value>) returns (table: nat)
    requires Refers(playerId, id, offs)
    requires fbb.Valid() && Ready(fbb.model, ContentAdds(ResponseSaveScore(None, feedback), id), offs, vals)
    modifies fbb
    ensures fbb.Valid() && Built(old(fbb.model), ContentAdds(ResponseSaveScore(None, feedback), id), offs, fbb.model, table)
  {
    ghost var s := fbb.model;
    ghost var adds := ContentAdds(ResponseSaveScore(None, feedback), id);
    TablePending(s, adds, offs, vals);
    TableEnds(s, adds, offs, vals);
    ghost var last := Filled(s, adds, offs);
    hide Pending, Ready, Filled, Int32, Int64, Bool, RunOp, OpOk, FlatBuilder.EndTable, EndTableOk;
    var start := fbb.StartTable();
    AddOffsetMember(fbb, 4, playerId, id, adds, offs, last);
    AddScalarMember(fbb, 6, Bool(feedback), Bool(false), adds[1..], offs, last);
    PendingDone(fbb.model, adds[1..][1..], offs, last);
    table := fbb.EndTable(start);
  }

  method CreateRequestPlayerRanking(fbb: Builder, playerId: nat,
                                    ghost id: Option<nat>, ghost offs: seq<nat>, ghost vals: seq<Value>) returns (table: nat)
    requires Refers(playerId, id, offs)
    requires fbb.Valid() && Ready(fbb.model, ContentAdds(RequestPlayerRanking(None), id), offs, vals)
    modifies fbb
    ensures fbb.Valid() && Built(old(fbb.model), ContentAdds(RequestPlayerRanking(None), id), offs, fbb.model, table)
  {
    ghost var s := fbb.model;
    ghost var adds := ContentAdds(RequestPlayerRanking(None), id);
    TablePending(s, adds, offs, vals);
    TableEnds(s, adds, offs, vals);
    ghost var last := Filled(s, adds, offs);
    hide Pending, Ready, Filled, Int32, Int64, Bool, RunOp, OpOk, FlatBuilder.EndTable, EndTableOk;
    var start := fbb.StartTable();
    AddOffsetMember(fbb, 4, playerId, id, adds, offs, last);
    PendingDone(fbb.model, adds[1..], offs, last);
    table := fbb.EndTable(start);
  }

  method CreateResponsePlayerRanking(fbb: Builder, playerId: nat, score: int, ranking: int, inRanking: bool, feedback: bool,
                                     ghost id: Option<nat>, ghost offs: seq<nat>, ghost vals: seq<Value>) returns (table: nat)
    requires IsInt32(score) && IsInt32(ranking) && Refers(playerId, id, offs)
    requires fbb.Valid() && Ready(fbb.model, ContentAdds(ResponsePlayerRanking(None, score, ranking, inRanking, feedback), id), offs, vals)
    modifies fbb
    ensures fbb.Valid() && Built(old(fbb.model), ContentAdds(ResponsePlayerRanking(None, score, ranking, inRanking, feedback), id), offs, fbb.model, table)
  {
    ghost var s := fbb.model;
    ghost var adds := ContentAdds(ResponsePlayerRanking(None, score, ranking, inRanking, feedback), id);
    TablePending(s, adds, offs, vals);
    TableEnds(s, adds, offs, vals);
    ghost var last := Filled(s, adds, offs);
    hide Pending, Ready, Filled, Int32, Int64, Bool, RunOp, OpOk, FlatBuilder.EndTable, EndTableOk;
    var start := fbb.StartTable();
    AddScalarMember(fbb, 8, Int32(ranking), Int32(0), adds, offs, last);
    AddScalarMember(fbb, 6, Int32(score), Int32(0), adds[1..], offs, last);
    AddOffsetMember(fbb, 4, playerId, id, adds[1..][1..], offs, last);
    AddScalarMember(fbb, 12, Bool(feedback), Bool(false), adds[1..][1..][1..], offs, last);
    AddScalarMember(fbb, 10, Bool(inRanking), Bool(false), adds[1..][1..][1..][1..], offs, last);
    PendingDone(fbb.model, adds[1..][1..][1..][1..][1..], offs, last);
    table := fbb.EndTable(start);
  }

  method CreateRankingProtocol(fbb: Builder, m: Message, content: nat,
                               ghost id: Option<nat>, ghost offs: seq<nat>, ghost vals: seq<Value>) returns (table: nat)
    requires MessageOk(m) && Refers(content, id, offs)
    requires fbb.Valid() && Ready(fbb.model, MessageAdds(m, id), offs, vals)
    modifies fbb
    ensures fbb.Valid() && Built(old(fbb.model), MessageAdds(m, id), offs, fbb.model, table)
  {
    ghost var s := fbb.model;
    ghost var adds := MessageAdds(m, id);
    TablePending(s, adds, offs, vals);
    TableEnds(s, adds, offs, vals);
    ghost var last := Filled(s, adds, offs);
    hide Pending, Ready, Filled, Int32, Le, ContentType, RunOp, OpOk, FlatBuilder.EndTable, EndTableOk;
    var start := fbb.StartTable();
    AddOffsetMember(fbb, 8, content, id, adds, offs, last);
    AddScalarMember(fbb, 4, Int32(m.messageType), Int32(0), adds[1..], offs, last);
    AddScalarMember(fbb, 6, Le(ContentType(m.content), 1), Le(0, 1), adds[1..][1..], offs, last);
    PendingDone(fbb.model, adds[1..][1..][1..], offs, last);
    table := fbb.EndTable(start);
  }

  // ----- whole messages

  /** The table of a content, by whichever Create function is its own. */
  method CreateContentTable(fbb: Builder, c: Content, playerId: nat,
                            ghost id: Option<nat>, ghost offs: seq<nat>, ghost vals: seq<Value>) returns (table: nat)
    requires ContentOk(c) && Refers(playerId, id, offs)
    requires fbb.Valid() && Ready(fbb.model, ContentAdds(c, id), offs, vals)
    modifies fbb
    ensures fbb.Valid() && Built(old(fbb.model), ContentAdds(c, id), offs, fbb.model, table)
  {
    hide Ready, Built, Refers;
    match c
    case RequestSaveScore(_, score, lastUpdate) =>
      table := CreateRequestSaveScore(fbb, playerId, score, lastUpdate, id, offs, vals);
    case ResponseSaveScore(_, feedback) =>
      table := CreateResponseSaveScore(fbb, playerId, feedback, id, offs, vals);
    case RequestPlayerRanking(_) =>
      table := CreateRequestPlayerRanking(fbb, playerId, id, offs, vals);
    case ResponsePlayerRanking(_, score, ranking, inRanking, feedback) =>
      table := CreateResponsePlayerRanking(fbb, playerId, score, ranking, inRanking, feedback, id, offs, vals);
  }

  /** The builder has done what a script says, and off is the script's last object. */
  ghost predicate Made(s: FlatBuilder.State, ops: seq<Op>, s': FlatBuilder.State, off: nat) {
    && RunOk(s, ops, [])
    && var (after, offs) := Run(s, ops, []);
       s' == after && |offs| == |ops| > 0 && off == offs[|offs| - 1]
  }

  /** After the objects before it, a builder is ready for a table that its script allows. */
  lemma ReadyAfter(s: FlatBuilder.State, ops: seq<Op>, adds: seq<Add>)
    requires Idle(s) && RunOk(s, ops + [MakeTable(adds)], [])
    requires forall i :: 0 <= i < |adds| ==> adds[i].id < 0x1_0000
    ensures RunOk(s, ops, [])
    ensures var (s1, offs) := Run(s, ops, []); Ready(s1, adds, offs, Meanings(ops, [], s.forceDefaults))
    ensures forall s', off :: Built(Run(s, ops, []).0, adds, Run(s, ops, []).1, s', off) ==> Made(s, ops + [MakeTable(adds)], s', off)
  {
    hide Idle, Holds, OpOk, RunOp, RunOk, Run, Meanings;
    RunLast(s, ops, MakeTable(adds), []);
    NothingHeld(s);
    RunBuilds(s, ops, [], []);
    RunLengths(s, ops, []);
  }

  lemma ContentIds(c: Content, id: Option<nat>)
    requires ContentOk(c)
    ensures |ContentAdds(c, id)| <= 5 && forall i :: 0 <= i < |ContentAdds(c, id)| ==> ContentAdds(c, id)[i].id < 0x1_0000
  {
    hide Int32, Int64, Bool;
  }

  /** The Direct form: the player id, when there is one, and then the table. */
  method CreateContent(fbb: Builder, c: Content) returns (table: nat)
    requires fbb.Valid() && Idle(fbb.model) && ContentOk(c) && RunOk(fbb.model, ContentOps(c), [])
    modifies fbb
    ensures fbb.Valid() && Made(old(fbb.model), ContentOps(c), fbb.model, table)
  {
    ghost var s := fbb.model;
    IdleIsBare(s);
    hide Idle, Ready, Built, Made, RunOk, ContentAdds, FlatBuilder.CreateString;
    match c.playerId
    case None =>
      ContentIds(c, None);
      assert [] + [MakeTable(ContentAdds(c, None))] == ContentOps(c);
      ReadyAfter(s, [], ContentAdds(c, None));
      table := CreateContentTable(fbb, c, 0, None, [], []);
    case Some(chars) =>
      var playerId := CreateId(fbb, c, chars);
      ghost var vals := Meanings([MakeString(chars)], [], s.forceDefaults);
      ghost var offs := Run(s, [MakeString(chars)], []).1;
      table := CreateContentTable(fbb, c, playerId, Some(0), offs, vals);
  }

  method CreateId(fbb: Builder, c: Content, chars: seq<byte>) returns (off: nat)
    requires fbb.Valid() && Idle(fbb.model) && ContentOk(c) && c.playerId == Some(chars) && RunOk(fbb.model, ContentOps(c), [])
    modifies fbb
    ensures fbb.Valid()
    ensures var s := old(fbb.model); var ops := [MakeString(chars)]; var adds := ContentAdds(c, Some(0));
      && RunOk(s, ops, []) && fbb.model == Run(s, ops, []).0 && Run(s, ops, []).1 == [off]
      && Ready(fbb.model, adds, [off], Meanings(ops, [], s.forceDefaults))
      && (forall s', table :: Built(fbb.model, adds, [off], s', table) ==> Made(s, ContentOps(c), s', table))
  {
    ghost var s := fbb.model;
    IdleIsBare(s);
    ContentIds(c, Some(0));
    assert [MakeString(chars)] + [MakeTable(ContentAdds(c, Some(0)))] == ContentOps(c);
    ReadyAfter(s, [MakeString(chars)], ContentAdds(c, Some(0)));
    assert OpOk(s, MakeString(chars), []);
    RunOfOne(s, MakeString(chars), []);
    hide Idle, Ready, Built, Made, RunOk, Run, ContentOps, ContentAdds, FlatBuilder.CreateString;
    off := fbb.CreateString(chars);
  }

  /** A message, from its player id to its root table. */
  method CreateMessage(fbb: Builder, m: Message) returns (root: nat)
    requires fbb.Valid() && Idle(fbb.model) && MessageOk(m) && RunOk(fbb.model, MessageOps(m), [])
    modifies fbb
    ensures fbb.Valid() && Made(old(fbb.model), MessageOps(m), fbb.model, root)
  {
    ghost var s := fbb.model;
    hide Idle, Ready, Built, RunOk, Run, ContentOps, MessageAdds, Meanings;
    match m.content
    case None =>
      MessageIds(m, None);
      NothingRuns(s);
      assert [] + [MakeTable(MessageAdds(m, None))] == MessageOps(m);
      ReadyAfter(s, [], MessageAdds(m, None));
      root := CreateRankingProtocol(fbb, m, 0, None, [], []);
    case Some(c) =>
      ContentIsShort(c);
      ghost var content := Some(|ContentOps(c)| - 1);
      MessageIds(m, content);
      ReadyAfter(s, ContentOps(c), MessageAdds(m, content));
      var table := CreateContent(fbb, c);
      root := CreateRankingProtocol(fbb, m, table, content, Run(s, ContentOps(c), []).1, Meanings(ContentOps(c), [], s.forceDefaults));
  }

  lemma ContentIsShort(c: Content)
    requires ContentOk(c)
    ensures 1 <= |ContentOps(c)| <= 2
  {}

  lemma MessageIds(m: Message, id: Option<nat>)
    requires MessageOk(m)
    ensures |MessageAdds(m, id)| == 3 && forall i :: 0 <= i < 3 ==> MessageAdds(m, id)[i].id < 0x1_0000
  {
    hide Int32, Le;
  }

  lemma MadeIsFinishable(s: FlatBuilder.State, m: Message, s': FlatBuilder.State, root: nat, sizePrefix: bool)
    requires MessageOk(m) && MessageBuilds(s, m, sizePrefix) && Made(s, MessageOps(m), s', root)
    ensures FlatBuilder.CanFinish(s', root, None, sizePrefix)
    ensures Sent(s, m, sizePrefix) == FlatBuilder.Finish(s', root, None, sizePrefix)
  {
    hide Run, RunOk, MessageOps, FlatBuilder.Finish;
  }

  /**
   * From creating a message to the finished bytes: what the builder holds is accepted by the verifier
   * and read back as the message.
   */
  method Send(fbb: Builder, m: Message, sizePrefix: bool)
    requires fbb.Valid() && Idle(fbb.model) && MessageOk(m) && SchemaOk(SCHEMA) && |SCHEMA| == 5
    requires MessageBuilds(fbb.model, m, sizePrefix) && |Sent(fbb.model, m, sizePrefix).data| < DEFAULT_OPTIONS.maxSize
    modifies fbb
    ensures fbb.Valid() && fbb.model.finished
    ensures if sizePrefix
      then ReadSizePrefixedMessage(fbb.data) == Got(m) && VerifySizePrefixedBuffer(SCHEMA, RANKING_PROTOCOL, fbb.data, DEFAULT_OPTIONS).Accept?
      else ReadMessage(fbb.data) == Got(m) && VerifyBuffer(SCHEMA, RANKING_PROTOCOL, fbb.data, DEFAULT_OPTIONS).Accept?
  {
    ghost var s := fbb.model;
    var root := CreateMessage(fbb, m);
    MadeIsFinishable(s, m, fbb.model, root, sizePrefix);
    MessageRoundTrip(s, m, sizePrefix);
    hide Idle, Made, Sent, MessageBuilds, ReadMessage, ReadSizePrefixedMessage, VerifyBuffer, VerifySizePrefixedBuffer, SchemaOk;
    fbb.Finish(root, None, sizePrefix);
    FinishedData(fbb);
  }

  lemma FinishedData(fbb: Builder)
    requires fbb.Valid()
    ensures fbb.data == fbb.model.data
  {}
}
