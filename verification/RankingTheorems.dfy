/** What the ranking protocol promises: messages survive the wire, and bytes the verifier accepts are safe to read. */
module RankingTheorems {
  import opened Bytes
  import opened Common
  import opened FlatReader
  import opened FlatObjects
  import opened FlatBuilder
  import opened FlatBuilderProofs
  import opened FlatRuns
  import opened FlatVerifier
  import opened FlatDecode
  import opened FlatExact
  import opened FlatComplete
  import opened RankingProtocol
  import opened RankingProofs

  /** Building a message and finishing it fails no assertion of the builder. */
  predicate MessageBuilds(s: State, m: Message, sizePrefix: bool)
    requires MessageOk(m)
  {
    && RunOk(s, MessageOps(m), [])
    && var (s', offs) := Run(s, MessageOps(m), []);
       |offs| > 0 && CanFinish(s', offs[|offs| - 1], None, sizePrefix)
  }

  /** The builder after a message and Finish, and the bytes it gives. */
  function Sent(s: State, m: Message, sizePrefix: bool): State
    requires MessageOk(m) && MessageBuilds(s, m, sizePrefix)
  {
    var (s', offs) := Run(s, MessageOps(m), []);
    Finish(s', offs[|offs| - 1], None, sizePrefix)
  }

  /**
   * From any idle builder, whatever it built before: when building a message fails no assertion and the
   * bytes are below the limit that the verifier asserts, they are accepted with the default options, and
   * the accessors give back exactly the message.
   */
  lemma MessageRoundTrip(s: State, m: Message, sizePrefix: bool)
    requires Idle(s) && MessageOk(m)
    requires MessageBuilds(s, m, sizePrefix) && |Sent(s, m, sizePrefix).data| < DEFAULT_OPTIONS.maxSize
    ensures SchemaOk(SCHEMA) && |SCHEMA| == 5
    ensures var buf := Sent(s, m, sizePrefix).data;
      if sizePrefix
      then && VerifySizePrefixedBuffer(SCHEMA, RANKING_PROTOCOL, buf, DEFAULT_OPTIONS).Accept?
           && ReadSizePrefixedMessage(buf) == Got(m)
           && ReadUnsigned(buf, 0, 4) == Got(|buf| - 4)
      else && VerifyBuffer(SCHEMA, RANKING_PROTOCOL, buf, DEFAULT_OPTIONS).Accept?
           && ReadMessage(buf) == Got(m)
  {
    hide Idle, ObjAt, Conforms, Typed, Height, Count, MessageVal, MessageOps, Run, RunOk, ReadMessageAt, Finish, VerifyBuffer,
      VerifySizePrefixedBuffer, SchemaOk, GetRoot, GetSizePrefixedRoot, ReadUnsigned, Aligned, Extends, Decode;
    MessageStands(s, m);
    var (s', offs) := Run(s, MessageOps(m), []);
    var root := offs[|offs| - 1];
    var v := MessageVal(m, s.forceDefaults);
    IdleAlignment(s');
    ObjInside(s'.data, root, v, s'.minalign);
    SchemaIsOk();
    MessageConforms(m, s.forceDefaults);
    FinishIsLonger(s', root, None, sizePrefix);
    FinishedIsAccepted(SCHEMA, RANKING_PROTOCOL, s', root, v, DEFAULT_OPTIONS, None, sizePrefix);
    FinishBuilds(s', root, v, None, sizePrefix);
    MessageRead(Finish(s', root, None, sizePrefix).data, root, m, s.forceDefaults, s'.minalign);
  }

  lemma IdleAlignment(s: State)
    requires Idle(s)
    ensures IsAlignment(s.minalign) && !s.nested && s.fields == []
  {}

  /** With 256 bytes of room besides the player id, no assertion fails. */
  lemma RoomForMessage(s: State, m: Message, sizePrefix: bool)
    requires Idle(s) && !s.finished && MessageOk(m)
    requires |s.data| + IdLength(m) + 0x100 < MAX_BUFFER_SIZE
    ensures MessageBuilds(s, m, sizePrefix) && |Sent(s, m, sizePrefix).data| < DEFAULT_OPTIONS.maxSize
  {
    hide Idle, ObjAt, MessageVal, MessageOps, Run, RunOk, Finish, Extends, Aligned, ReadUnsigned, GetRoot, GetSizePrefixedRoot;
    MessageRuns(s, m);
    MessageStands(s, m);
    var (s', offs) := Run(s, MessageOps(m), []);
    FinishFits(s', offs[|offs| - 1], MessageVal(m, s.forceDefaults), sizePrefix);
  }

  lemma FinishFits(s: State, root: nat, v: Value, sizePrefix: bool)
    requires Idle(s) && !s.finished && ObjAt(s.data, root, v, s.minalign) && |s.data| + 24 < MAX_BUFFER_SIZE
    ensures CanFinish(s, root, None, sizePrefix) && |Finish(s, root, None, sizePrefix).data| < MAX_BUFFER_SIZE
  {
    IdleAlignment(s);
    ObjInside(s.data, root, v, s.minalign);
    hide Idle, ObjAt, Finish, Extends, Aligned, ReadUnsigned, GetRoot, GetSizePrefixedRoot;
    FinishBuilds(s, root, v, None, sizePrefix);
  }

  /** Building a content and finishing it fails no assertion of the builder. */
  predicate ContentBuilds(s: State, c: Content)
    requires ContentOk(c)
  {
    && RunOk(s, ContentOps(c), [])
    && var (s', offs) := Run(s, ContentOps(c), []);
       |offs| > 0 && CanFinish(s', offs[|offs| - 1], None, false)
  }

  /** The builder after a content table, finished as the root itself, as the hub's replies are. */
  function SentContent(s: State, c: Content): State
    requires ContentOk(c) && ContentBuilds(s, c)
  {
    var (s', offs) := Run(s, ContentOps(c), []);
    Finish(s', offs[|offs| - 1], None, false)
  }

  /** The verifier accepts the bytes as a table of the content's type, and the accessors give the content. */
  predicate Delivered(buf: seq<byte>, c: Content)
    requires SchemaOk(SCHEMA) && |SCHEMA| == 5
  {
    && VerifyBuffer(SCHEMA, ContentType(Some(c)) - 1, buf, DEFAULT_OPTIONS).Accept?
    && GetRoot(buf).Got?
    && ReadContent(buf, GetRoot(buf).value, ContentType(Some(c))) == Got(Some(c))
  }

  lemma ContentRoundTrip(s: State, c: Content)
    requires Idle(s) && ContentOk(c)
    requires ContentBuilds(s, c) && |SentContent(s, c).data| < DEFAULT_OPTIONS.maxSize
    requires SchemaOk(SCHEMA) && |SCHEMA| == 5
    ensures Delivered(SentContent(s, c).data, c)
  {
    hide Idle, ObjAt, Conforms, Typed, Height, Count, ContentVal, ContentOps, Run, RunOk, ReadContent, Finish, VerifyBuffer,
      SchemaOk, GetRoot, GetSizePrefixedRoot, ReadUnsigned, Aligned, Extends, Decode;
    ContentStands(s, c);
    var (s', offs) := Run(s, ContentOps(c), []);
    var root := offs[|offs| - 1];
    var v := ContentVal(c, s.forceDefaults);
    ContentConforms(c, s.forceDefaults);
    FinishIsLonger(s', root, None, false);
    FinishedIsAccepted(SCHEMA, ContentType(Some(c)) - 1, s', root, v, DEFAULT_OPTIONS, None, false);
    FinishBuilds(s', root, v, None, false);
    ContentRead(Finish(s', root, None, false).data, root, c, s.forceDefaults, s'.minalign);
  }

  lemma RoomForContent(s: State, c: Content)
    requires Idle(s) && !s.finished && ContentOk(c)
    requires |s.data| + ContentIdLength(c) + 0x100 < MAX_BUFFER_SIZE
    ensures ContentBuilds(s, c) && |SentContent(s, c).data| < DEFAULT_OPTIONS.maxSize
  {
    hide Idle, ObjAt, ContentVal, ContentOps, Run, RunOk, Finish, Extends, Aligned, ReadUnsigned, GetRoot, GetSizePrefixedRoot;
    ContentRuns(s, c);
    ContentStands(s, c);
    var (s', offs) := Run(s, ContentOps(c), []);
    FinishFits(s', offs[|offs| - 1], ContentVal(c, s.forceDefaults), false);
  }

  // ----- accepted bytes are safe

  lemma {:induction false} FieldsDecoded(sc: Schema, t: nat, i: nat, j: nat, buf: seq<byte>, table: nat)
    requires SchemaOk(sc) && t < |sc| && i <= j < |sc[t]| && DecodeFields(sc, t, i, buf, table).Got?
    ensures DecodeField(sc, t, j, buf, table).Got?
    decreases j - i
  {
    hide DecodeField, SchemaOk;
    if i < j {
      FieldsDecoded(sc, t, i + 1, j, buf, table);
    }
  }

  /** Any bytes the verifier accepts can be read as a message: no accessor leaves the buffer. */
  lemma AcceptedIsReadable(buf: seq<byte>, opts: Options)
    requires SchemaOk(SCHEMA) && BufferOk(buf)
    requires |SCHEMA| == 5 && VerifyBuffer(SCHEMA, RANKING_PROTOCOL, buf, opts).Accept?
    ensures ReadMessage(buf).Got?
  {
    hide VerifyBuffer, Decode, DecodeFields, DecodeField, GetRoot, ReadMessageAt, SchemaOk, Terminated, Height, Count;
    VerifyBufferSound(SCHEMA, RANKING_PROTOCOL, buf, opts);
    MessageReadable(buf, GetRoot(buf).value);
  }

  /** The same for a message behind a size prefix. */
  lemma AcceptedPrefixedIsReadable(buf: seq<byte>, opts: Options)
    requires SchemaOk(SCHEMA) && BufferOk(buf)
    requires |SCHEMA| == 5 && VerifySizePrefixedBuffer(SCHEMA, RANKING_PROTOCOL, buf, opts).Accept?
    ensures ReadSizePrefixedMessage(buf).Got?
  {
    hide VerifySizePrefixedBuffer, Decode, DecodeFields, DecodeField, GetSizePrefixedRoot, ReadMessageAt, SchemaOk, Terminated, Height, Count;
    VerifySizePrefixedBufferSound(SCHEMA, RANKING_PROTOCOL, buf, opts);
    MessageReadable(buf, GetSizePrefixedRoot(buf).value);
  }

  lemma MessageReadable(buf: seq<byte>, table: nat)
    requires SchemaOk(SCHEMA) && |SCHEMA| == 5 && Decode(SCHEMA, RANKING_PROTOCOL, buf, table).Got?
    ensures ReadMessageAt(buf, table).Got?
  {
    hide SchemaOk, ReadContent, GetOptionalFieldOffset, DecodeFields;
    assert |SCHEMA[4]| == 3;
    assert SCHEMA[4][0] == FieldDef(4, ScalarKind(4));
    assert SCHEMA[4][2] == FieldDef(8, UnionKind(6, map[1 := 0, 2 := 1, 3 := 2, 4 := 3]));
    assert DecodeFields(SCHEMA, 4, 0, buf, table).Got?;
    hide Decode;
    FieldsDecoded(SCHEMA, 4, 0, 0, buf, table);
    SignedReadable(buf, table, 4, 4);
    FieldsDecoded(SCHEMA, 4, 0, 2, buf, table);
    assert GetField(buf, table, 6, 1, 0).Got? && GetPointer(buf, table, 8).Got?;
    var ty := GetField(buf, table, 6, 1, 0).value;
    var p := GetPointer(buf, table, 8).value;
    if p.Some? {
      if 1 <= ty <= 4 {
        assert Decode(SCHEMA, ty - 1, buf, p.value).Got?;
        ContentReadable(buf, p.value, ty);
      } else {
        ForeignContent(buf, p.value, ty);
      }
    }
  }

  lemma ForeignContent(buf: seq<byte>, table: int, ty: nat)
    requires !(1 <= ty <= 4)
    ensures ReadContent(buf, table, ty) == Got(None)
  {}

  lemma SignedReadable(buf: seq<byte>, table: nat, id: nat, n: nat)
    requires GetField(buf, table, id, n, 0).Got?
    ensures GetSignedField(buf, table, id, n, 0).Got?
  {}

  lemma TextReadable(sc: Schema, t: nat, i: nat, buf: seq<byte>, table: nat)
    requires SchemaOk(sc) && t < |sc| && i < |sc[t]| && DecodeField(sc, t, i, buf, table).Got? && sc[t][i].kind.StringKind?
    ensures GetStringField(buf, table, sc[t][i].id).Got?
  {
    hide GetPointer, ReadCString, SchemaOk;
  }

  lemma ScalarReadable(sc: Schema, t: nat, i: nat, buf: seq<byte>, table: nat)
    requires SchemaOk(sc) && t < |sc| && i < |sc[t]| && DecodeField(sc, t, i, buf, table).Got? && sc[t][i].kind.ScalarKind?
    ensures GetSignedField(buf, table, sc[t][i].id, sc[t][i].kind.size, 0).Got?
    ensures GetField(buf, table, sc[t][i].id, sc[t][i].kind.size, 0).Got?
  {
    hide SchemaOk;
  }

  /** Every field of a content table is readable, whatever its type. */
  lemma ContentFieldReadable(buf: seq<byte>, table: nat, t: nat, i: nat, def: FieldDef)
    requires SchemaOk(SCHEMA) && t < |SCHEMA| && Decode(SCHEMA, t, buf, table).Got?
    requires i < |SCHEMA[t]| && SCHEMA[t][i] == def
    ensures def.kind.StringKind? ==> GetStringField(buf, table, def.id).Got?
    ensures def.kind.ScalarKind? ==> GetField(buf, table, def.id, def.kind.size, 0).Got?
    ensures def.kind.ScalarKind? ==> GetSignedField(buf, table, def.id, def.kind.size, 0).Got?
  {
    hide SchemaOk, DecodeField, DecodeFields, GetStringField, GetSignedField, GetField;
    FieldsDecoded(SCHEMA, t, 0, i, buf, table);
    if def.kind.StringKind? {
      TextReadable(SCHEMA, t, i, buf, table);
    } else if def.kind.ScalarKind? {
      ScalarReadable(SCHEMA, t, i, buf, table);
    }
  }

  lemma ContentReadable(buf: seq<byte>, table: nat, ty: nat)
    requires SchemaOk(SCHEMA) && |SCHEMA| == 5 && 1 <= ty <= 4 && Decode(SCHEMA, ty - 1, buf, table).Got?
    ensures ReadContent(buf, table, ty).Got?
  {
    hide SchemaOk, Decode, GetStringField, GetSignedField, GetField;
    var t := ty - 1;
    ContentFieldReadable(buf, table, t, 0, FieldDef(4, StringKind));
    if ty == 1 {
      ContentFieldReadable(buf, table, 0, 1, FieldDef(6, ScalarKind(4)));
      ContentFieldReadable(buf, table, 0, 2, FieldDef(8, ScalarKind(8)));
    } else if ty == 2 {
      ContentFieldReadable(buf, table, 1, 1, FieldDef(6, ScalarKind(1)));
    } else if ty == 4 {
      ContentFieldReadable(buf, table, 3, 1, FieldDef(6, ScalarKind(4)));
      ContentFieldReadable(buf, table, 3, 2, FieldDef(8, ScalarKind(4)));
      ContentFieldReadable(buf, table, 3, 3, FieldDef(10, ScalarKind(1)));
      ContentFieldReadable(buf, table, 3, 4, FieldDef(12, ScalarKind(1)));
    }
  }
}
