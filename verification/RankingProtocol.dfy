/** The generated RANKING_PROTOCOL header: its schema, what its Create functions do, and its accessors. */
module RankingProtocol {
  import opened Bytes
  import opened Common
  import opened FlatReader
  import opened FlatObjects
  import opened FlatBuilder
  import opened FlatBuilderProofs
  import opened FlatRuns
  import opened FlatVerifier

  /** The message is the last table of the schema. */
  const RANKING_PROTOCOL: nat := 4

  /** The Verify methods of the five tables; the union member of content type n is table type n - 1. */
  const SCHEMA: Schema := [
    [FieldDef(4, StringKind), FieldDef(6, ScalarKind(4)), FieldDef(8, ScalarKind(8))],
    [FieldDef(4, StringKind), FieldDef(6, ScalarKind(1))],
    [FieldDef(4, StringKind)],
    [FieldDef(4, StringKind), FieldDef(6, ScalarKind(4)), FieldDef(8, ScalarKind(4)), FieldDef(10, ScalarKind(1)), FieldDef(12, ScalarKind(1))],
    [FieldDef(4, ScalarKind(4)), FieldDef(6, ScalarKind(1)), FieldDef(8, UnionKind(6, map[1 := 0, 2 := 1, 3 := 2, 4 := 3]))]
  ]

  // ----- messages

  datatype Content =
    | RequestSaveScore(playerId: Option<seq<byte>>, score: int, lastUpdate: int)
    | ResponseSaveScore(playerId: Option<seq<byte>>, feedback: bool)
    | RequestPlayerRanking(playerId: Option<seq<byte>>)
    | ResponsePlayerRanking(playerId: Option<seq<byte>>, score: int, ranking: int, inRanking: bool, feedback: bool)

  datatype Message = Message(messageType: int, content: Option<Content>)

  predicate IsInt32(i: int) {
    -0x8000_0000 <= i < 0x8000_0000
  }

  predicate IsInt64(i: int) {
    -0x8000_0000_0000_0000 <= i < 0x8000_0000_0000_0000
  }

  predicate ContentOk(c: Content) {
    match c
    case RequestSaveScore(_, score, lastUpdate) => IsInt32(score) && IsInt64(lastUpdate)
    case ResponsePlayerRanking(_, score, ranking, _, _) => IsInt32(score) && IsInt32(ranking)
    case _ => true
  }

  predicate MessageOk(m: Message) {
    IsInt32(m.messageType) && (m.content.Some? ==> ContentOk(m.content.value))
  }

  function ContentType(c: Option<Content>): nat {
    match c
    case None => 0
    case Some(RequestSaveScore(_, _, _)) => 1
    case Some(ResponseSaveScore(_, _)) => 2
    case Some(RequestPlayerRanking(_)) => 3
    case Some(ResponsePlayerRanking(_, _, _, _, _)) => 4
  }

  // ----- the Create functions

  function Int32(i: int): (s: seq<byte>)
    requires IsInt32(i)
    ensures |s| == 4
  {
    Pow256Values();
    Le(FromSigned(i, 4), 4)
  }

  function Int64(i: int): (s: seq<byte>)
    requires IsInt64(i)
    ensures |s| == 8
  {
    Pow256Values();
    Le(FromSigned(i, 8), 8)
  }

  function Bool(b: bool): (s: seq<byte>)
    ensures |s| == 1
  {
    Le(if b then 1 else 0, 1)
  }

  /** The adds of each Create function, in its order; id says which object of the run is the player id. */
  function ContentAdds(c: Content, id: Option<nat>): seq<Add>
    requires ContentOk(c)
  {
    match c
    case RequestSaveScore(_, score, lastUpdate) =>
      [AddScalar(8, Int64(lastUpdate), Int64(0)), AddScalar(6, Int32(score), Int32(0)), AddRef(4, id)]
    case ResponseSaveScore(_, feedback) =>
      [AddRef(4, id), AddScalar(6, Bool(feedback), Bool(false))]
    case RequestPlayerRanking(_) =>
      [AddRef(4, id)]
    case ResponsePlayerRanking(_, score, ranking, inRanking, feedback) =>
      [AddScalar(8, Int32(ranking), Int32(0)), AddScalar(6, Int32(score), Int32(0)), AddRef(4, id),
       AddScalar(12, Bool(feedback), Bool(false)), AddScalar(10, Bool(inRanking), Bool(false))]
  }

  /** Create...Direct: the player id first, when there is one, then the table. */
  function ContentOps(c: Content): seq<Op>
    requires ContentOk(c)
  {
    match c.playerId
    case None => [MakeTable(ContentAdds(c, None))]
    case Some(chars) => [MakeString(chars), MakeTable(ContentAdds(c, Some(0)))]
  }

  /** CreateRANKING_PROTOCOL; content says which object of the run is the content table. */
  function MessageAdds(m: Message, content: Option<nat>): seq<Add>
    requires MessageOk(m)
  {
    [AddRef(8, content), AddScalar(4, Int32(m.messageType), Int32(0)), AddScalar(6, Le(ContentType(m.content), 1), Le(0, 1))]
  }

  function MessageOps(m: Message): seq<Op>
    requires MessageOk(m)
  {
    match m.content
    case None => [MakeTable(MessageAdds(m, None))]
    case Some(c) => ContentOps(c) + [MakeTable(MessageAdds(m, Some(|ContentOps(c)| - 1)))]
  }

  // ----- the accessors

  function PlayerId(buf: seq<byte>, table: int): Read<Option<seq<byte>>> {
    GetStringField(buf, table, 4)
  }

  function ReadFlag(buf: seq<byte>, table: int, field: nat): Read<bool> {
    var b :- GetField(buf, table, field, 1, 0);
    Got(b != 0)
  }

  /** What content_as_... and the accessors of the content table return for a content type. */
  function ReadContent(buf: seq<byte>, table: int, ty: nat): Read<Option<Content>> {
    if ty == 1 then
      var id :- PlayerId(buf, table);
      var score :- GetSignedField(buf, table, 6, 4, 0);
      var lastUpdate :- GetSignedField(buf, table, 8, 8, 0);
      Got(Some(RequestSaveScore(id, score, lastUpdate)))
    else if ty == 2 then
      var id :- PlayerId(buf, table);
      var feedback :- ReadFlag(buf, table, 6);
      Got(Some(ResponseSaveScore(id, feedback)))
    else if ty == 3 then
      var id :- PlayerId(buf, table);
      Got(Some(RequestPlayerRanking(id)))
    else if ty == 4 then
      var id :- PlayerId(buf, table);
      var score :- GetSignedField(buf, table, 6, 4, 0);
      var ranking :- GetSignedField(buf, table, 8, 4, 0);
      var inRanking :- ReadFlag(buf, table, 10);
      var feedback :- ReadFlag(buf, table, 12);
      Got(Some(ResponsePlayerRanking(id, score, ranking, inRanking, feedback)))
    else Got(None)
  }

  /** Everything the accessors of a message and of its content return. */
  function ReadMessageAt(buf: seq<byte>, root: int): Read<Message> {
    var messageType :- GetSignedField(buf, root, 4, 4, 0);
    var ty :- GetField(buf, root, 6, 1, 0);
    var p :- GetPointer(buf, root, 8);
    match p
    case None => Got(Message(messageType, None))
    case Some(table) =>
      var content :- ReadContent(buf, table, ty);
      Got(Message(messageType, content))
  }

  function ReadMessage(buf: seq<byte>): Read<Message> {
    var root :- GetRoot(buf);
    ReadMessageAt(buf, root)
  }

  function ReadSizePrefixedMessage(buf: seq<byte>): Read<Message> {
    var root :- GetSizePrefixedRoot(buf);
    ReadMessageAt(buf, root)
  }
}
