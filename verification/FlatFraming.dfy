/** Streams of size-prefixed buffers: the four-byte prefix is enough to take a stream apart again. */
module FlatFraming {
  import opened Bytes
  import opened Common
  import opened FlatReader
  import opened FlatBuilder
  import opened FlatBuilderProofs
  import opened FlatObjects
  import opened FlatRuns
  import opened FlatVerifier
  import opened RankingProtocol
  import opened RankingProofs
  import opened RankingTheorems

  /** GetPrefixedSize and GetSizePrefixedBufferLength; the sum is returned as a 32-bit number. */
  function BufferLength(stream: seq<byte>): Read<nat> {
    var size :- ReadUnsigned(stream, 0, 4);
    Got((size + 4) % 0x1_0000_0000)
  }

  predicate IsFrame(buf: seq<byte>) {
    BufferLength(buf) == Got(|buf|)
  }

  function Concat(bufs: seq<seq<byte>>): seq<byte> {
    if bufs == [] then [] else bufs[0] + Concat(bufs[1..])
  }

  /** Take one buffer after the other off a stream, by its length. */
  function Split(stream: seq<byte>): Read<seq<seq<byte>>> {
    if stream == [] then Got([])
    else
      var n :- BufferLength(stream);
      if n < 4 then Fault else
      var first :- ReadBytes(stream, 0, n);
      var rest :- Split(stream[n..]);
      Got([first] + rest)
  }

  /** A finished size-prefixed buffer is a frame, whatever its root. */
  lemma FinishedIsFrame(s: State, root: nat, v: Value, identifier: Option<seq<byte>>)
    requires ObjAt(s.data, root, v, s.minalign) && IsAlignment(s.minalign)
    requires identifier.Some? ==> |identifier.value| == 4
    requires |s.data| < MAX_BUFFER_SIZE && 0 < root <= |s.data|
    ensures IsFrame(Finish(s, root, identifier, true).data)
  {
    hide ObjAt, Finish, Extends, ReadUnsigned, Aligned, GetSizePrefixedRoot;
    FinishBuilds(s, root, v, identifier, true);
  }

  /** A stream is split back into exactly the buffers it was made of, and only frames can be split off. */
  lemma {:induction false} SplitConcat(bufs: seq<seq<byte>>)
    requires forall i :: 0 <= i < |bufs| ==> IsFrame(bufs[i])
    ensures Split(Concat(bufs)) == Got(bufs)
  {
    if bufs != [] {
      hide BufferLength, IsFrame, ReadBytes;
      FrameFirst(bufs[0], Concat(bufs[1..]));
      SplitConcat(bufs[1..]);
      assert [bufs[0]] + bufs[1..] == bufs;
    }
  }

  lemma FrameFirst(buf: seq<byte>, rest: seq<byte>)
    requires IsFrame(buf)
    ensures 4 <= |buf| && BufferLength(buf + rest) == Got(|buf|)
    ensures ReadBytes(buf + rest, 0, |buf|) == Got(buf) && (buf + rest)[|buf|..] == rest
  {
    assert buf[0..4] == (buf + rest)[0..4];
  }

  lemma {:induction false} ConcatSplit(stream: seq<byte>)
    requires Split(stream).Got?
    ensures Concat(Split(stream).value) == stream
    ensures forall i :: 0 <= i < |Split(stream).value| ==> IsFrame(Split(stream).value[i])
  {
    if stream != [] {
      var n := BufferLength(stream).value;
      ConcatSplit(stream[n..]);
      var first := stream[0..n];
      assert first[0..4] == stream[0..4];
      assert IsFrame(first);
      assert Split(stream).value == [first] + Split(stream[n..]).value;
    }
  }

  // ----- a stream of messages

  /** Building the message fails no assertion, and the bytes are below the limit that the verifier asserts. */
  ghost predicate Sendable(s: State, m: Message) {
    && Idle(s) && MessageOk(m)
    && MessageBuilds(s, m, true) && |Sent(s, m, true).data| < DEFAULT_OPTIONS.maxSize
  }

  /** What the builders of a list of messages finish. */
  function SentAll(builders: seq<State>, messages: seq<Message>): (bufs: seq<seq<byte>>)
    requires |builders| == |messages|
    requires forall i :: 0 <= i < |messages| ==> MessageOk(messages[i]) && MessageBuilds(builders[i], messages[i], true)
    ensures |bufs| == |messages|
    ensures forall i :: 0 <= i < |messages| ==> bufs[i] == Sent(builders[i], messages[i], true).data
  {
    seq(|messages|, i requires 0 <= i < |messages| => Sent(builders[i], messages[i], true).data)
  }

  /** Split a stream and read every buffer in it. */
  function ReadStream(stream: seq<byte>): Read<seq<Message>> {
    var bufs :- Split(stream);
    ReadAll(bufs)
  }

  function ReadAll(bufs: seq<seq<byte>>): Read<seq<Message>> {
    if bufs == [] then Got([])
    else
      var m :- ReadSizePrefixedMessage(bufs[0]);
      var rest :- ReadAll(bufs[1..]);
      Got([m] + rest)
  }

  lemma {:induction false} ReadsEach(bufs: seq<seq<byte>>, messages: seq<Message>)
    requires |bufs| == |messages|
    requires forall i :: 0 <= i < |bufs| ==> ReadSizePrefixedMessage(bufs[i]) == Got(messages[i])
    ensures ReadAll(bufs) == Got(messages)
  {
    hide ReadSizePrefixedMessage;
    if bufs != [] {
      ReadsEach(bufs[1..], messages[1..]);
      assert ReadSizePrefixedMessage(bufs[0]) == Got(messages[0]);
      assert messages == [messages[0]] + messages[1..];
    }
  }

  lemma SendableIsSent(s: State, m: Message)
    requires Sendable(s, m)
    ensures MessageOk(m) && MessageBuilds(s, m, true)
    ensures IsFrame(Sent(s, m, true).data) && ReadSizePrefixedMessage(Sent(s, m, true).data) == Got(m)
  {
    hide Idle, MessageBuilds, Sent, ReadSizePrefixedMessage, ReadUnsigned, SchemaOk, VerifySizePrefixedBuffer;
    MessageRoundTrip(s, m, true);
  }

  /** Messages sent one after the other, each from its own builder, are read back in order and unchanged. */
  lemma StreamRoundTrip(builders: seq<State>, messages: seq<Message>)
    requires |builders| == |messages|
    requires forall i :: 0 <= i < |messages| ==> Sendable(builders[i], messages[i])
    ensures forall i :: 0 <= i < |messages| ==> MessageOk(messages[i]) && MessageBuilds(builders[i], messages[i], true)
    ensures ReadStream(Concat(SentAll(builders, messages))) == Got(messages)
  {
    hide Sendable, MessageBuilds, Sent, ReadSizePrefixedMessage, IsFrame, MessageOk;
    forall i | 0 <= i < |messages|
      ensures MessageOk(messages[i]) && MessageBuilds(builders[i], messages[i], true)
      ensures IsFrame(Sent(builders[i], messages[i], true).data)
      ensures ReadSizePrefixedMessage(Sent(builders[i], messages[i], true).data) == Got(messages[i])
    {
      SendableIsSent(builders[i], messages[i]);
    }
    var bufs := SentAll(builders, messages);
    SplitConcat(bufs);
    ReadsEach(bufs, messages);
  }
}
