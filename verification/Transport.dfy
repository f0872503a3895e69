/** Messages as bytes, and a whole TCP stream of them
    (paxos-wasm/runner-ws/src/host_serializer.rs and host_network_server.rs). */
module Transport {
  import opened Prelude
  import opened Serializer
  import opened WireFormat
  import opened WireExact
  import opened WireGrammar
  import opened Bytes
  import opened Framing

  /** The UTF-8 encoder and decoder. */
  datatype Codec = Codec(encode: string -> Blob, decode: Blob -> Option<string>) {
    ghost predicate Lossless() { forall s :: decode(encode(s)) == Some(s) }
  }

  /** `Err` stands for the panic on a text of four gigabytes. */
  function Serialize(codec: Codec, m: NetworkMessage): Result<Blob> {
    var body := codec.encode(MessageText(m));
    if |body| < TWO_TO_THE_32 then Ok(ToBigEndian(|body|) + body) else Err("Message too long")
  }

  function TryDeserialize(codec: Codec, bytes: Blob): Result<NetworkMessage> {
    if |bytes| < 4 then Err("Serialized message too short to contain length prefix")
    else if |bytes| - 4 != FromBigEndian(bytes[..4]) then Err("unexpected message length")
    else
      match codec.decode(bytes[4..])
      case None => Err("Invalid UTF-8 sequence in payload")
      case Some(text) => ParseMessage(text)
  }

  lemma SerializedFrame(codec: Codec, m: NetworkMessage)
    requires codec.Lossless() && Serialize(codec, m).Ok?
    ensures var body := codec.encode(MessageText(m)); Serialize(codec, m) == Ok(Frame(body)) && |body| < TWO_TO_THE_32
    ensures TryDeserialize(codec, Serialize(codec, m).value) == ParseMessage(MessageText(m))
  {
    hide ParseMessage, MessageText, ToBigEndian, FromBigEndian;
    var body := codec.encode(MessageText(m));
    FrameHeader(body, []);
    assert |body| % TWO_TO_THE_32 == |body|;
    assert Frame(body) + [] == Frame(body);
    assert Frame(body)[4..] == body;
  }

  /** Serialising and deserialising gives the message back exactly when it is safe, and
      no bytes at all deserialise to an unsafe message. */
  lemma MessageRoundTrip(codec: Codec, m: NetworkMessage, bytes: Blob)
    requires codec.Lossless()
    ensures Serialize(codec, m).Ok? ==> (TryDeserialize(codec, Serialize(codec, m).value) == Ok(m) <==> WireSafe(m))
    ensures TryDeserialize(codec, bytes) == Ok(m) ==> WireSafe(m)
  {
    hide ParseMessage, MessageText, WireSafe, Serialize;
    TextRoundTrip(m);
    if Serialize(codec, m).Ok? {
      SerializedFrame(codec, m);
    }
    if TryDeserialize(codec, bytes) == Ok(m) {
      OnlySafeMessagesParse(codec.decode(bytes[4..]).value);
    }
  }

  /** A single frame whose body decodes to a text that says this message. */
  ghost predicate FrameSays(codec: Codec, bytes: Blob, body: Blob, m: NetworkMessage) {
    && |body| < TWO_TO_THE_32 && bytes == Frame(body)
    && codec.decode(body).Some? && MessageIs(codec.decode(body).value, m)
  }

  /** Which bytes are read as which message.  A message that fits a frame is sent as the
      frame of its text, and no other is sent. */
  lemma FramesAreRead(codec: Codec, bytes: Blob, m: NetworkMessage)
    ensures TryDeserialize(codec, bytes) == Ok(m) <==> exists body :: FrameSays(codec, bytes, body, m)
    ensures var body := codec.encode(MessageText(m));
      if |body| < TWO_TO_THE_32 then Serialize(codec, m) == Ok(Frame(body)) else Serialize(codec, m).Err?
  {
    hide MessageText, FrameSays, TryDeserialize, Serialize;
    if TryDeserialize(codec, bytes) == Ok(m) {
      var body := ReadIsFrame(codec, bytes, m);
    }
    forall body | FrameSays(codec, bytes, body, m) ensures TryDeserialize(codec, bytes) == Ok(m) {
      FrameIsRead(codec, bytes, body, m);
    }
    SentIsFrame(codec, m);
  }

  lemma ReadIsFrame(codec: Codec, bytes: Blob, m: NetworkMessage) returns (body: Blob)
    requires TryDeserialize(codec, bytes) == Ok(m)
    ensures FrameSays(codec, bytes, body, m)
  {
    hide ParseMessage, MessageIs, ToBigEndian, FromBigEndian;
    body := bytes[4..];
    BigEndianIsOnto(bytes[..4]);
    ReadingIsExact(codec.decode(bytes[4..]).value, m);
    assert bytes == bytes[..4] + bytes[4..];
  }

  lemma FrameIsRead(codec: Codec, bytes: Blob, body: Blob, m: NetworkMessage)
    requires FrameSays(codec, bytes, body, m)
    ensures TryDeserialize(codec, bytes) == Ok(m)
  {
    hide ParseMessage, MessageIs, ToBigEndian, FromBigEndian;
    FrameHeader(body, []);
    assert Frame(body) + [] == Frame(body) && bytes[4..] == body;
    ReadingIsExact(codec.decode(body).value, m);
  }

  lemma SentIsFrame(codec: Codec, m: NetworkMessage)
    ensures var body := codec.encode(MessageText(m));
      if |body| < TWO_TO_THE_32 then Serialize(codec, m) == Ok(Frame(body)) else Serialize(codec, m).Err?
  {
    hide MessageText, ToBigEndian;
  }

  // ----- a stream of messages ------------------------------------------------------------

  function Bodies(codec: Codec, ms: seq<NetworkMessage>): seq<Blob> {
    seq(|ms|, i requires 0 <= i < |ms| => codec.encode(MessageText(ms[i])))
  }

  /** Every message fits a frame. */
  ghost predicate Sendable(codec: Codec, ms: seq<NetworkMessage>) { forall m :: m in ms ==> Serialize(codec, m).Ok? }

  /** What the sender writes. */
  function Stream(codec: Codec, ms: seq<NetworkMessage>): Blob {
    if ms == [] then []
    else
      Stream(codec, ms[..|ms| - 1]) +
      match Serialize(codec, ms[|ms| - 1]) case Ok(b) => b case Err(_) => []
  }

  /** What the receiver has taken off the connection after these reads. */
  function Delivered(codec: Codec, chunks: seq<Blob>): seq<NetworkMessage> {
    Decoded(b => TryDeserialize(codec, b), Received(chunks).0)
  }

  lemma {:induction false} StreamIsFrames(codec: Codec, ms: seq<NetworkMessage>)
    requires codec.Lossless() && Sendable(codec, ms)
    ensures Stream(codec, ms) == Frames(Bodies(codec, ms)) && Short(Bodies(codec, ms))
  {
    hide Frame, MessageText, Serialize;
    if ms != [] {
      var (init, last) := (ms[..|ms| - 1], ms[|ms| - 1]);
      assert last in ms;
      StreamIsFrames(codec, init);
      SerializedFrame(codec, last);
      var bodies := Bodies(codec, ms);
      assert bodies[..|bodies| - 1] == Bodies(codec, init);
      forall b | b in bodies ensures |b| < TWO_TO_THE_32 {
        var i :| 0 <= i < |bodies| && bodies[i] == b;
        assert ms[i] in ms;
        SerializedFrame(codec, ms[i]);
      }
    }
  }

  lemma {:induction false} FramesDecode(codec: Codec, ms: seq<NetworkMessage>)
    requires codec.Lossless() && Sendable(codec, ms) && forall m :: m in ms ==> WireSafe(m)
    ensures Decoded(b => TryDeserialize(codec, b), FrameAll(Bodies(codec, ms))) == ms
  {
    hide Frame, MessageText, Serialize, TryDeserialize, WireSafe;
    var decode := b => TryDeserialize(codec, b);
    if ms == [] {
      assert FrameAll(Bodies(codec, ms)) == [];
    } else {
      var (init, last) := (ms[..|ms| - 1], ms[|ms| - 1]);
      assert last in ms && ms == init + [last];
      FramesDecode(codec, init);
      SerializedFrame(codec, last);
      MessageRoundTrip(codec, last, []);
      var frame := Frame(codec.encode(MessageText(last)));
      assert FrameAll(Bodies(codec, ms)) == FrameAll(Bodies(codec, init)) + [frame];
      DecodedSnoc(decode, FrameAll(Bodies(codec, init)), frame);
    }
  }

  lemma {:induction false} DecodedAreSafe(codec: Codec, frames: seq<Blob>, m: NetworkMessage)
    requires codec.Lossless() && m in Decoded(b => TryDeserialize(codec, b), frames)
    ensures WireSafe(m)
  {
    hide TryDeserialize, WireSafe;
    var decode := b => TryDeserialize(codec, b);
    var (init, last) := (frames[..|frames| - 1], frames[|frames| - 1]);
    if m in Decoded(decode, init) {
      DecodedAreSafe(codec, init, m);
    } else {
      MessageRoundTrip(codec, m, last);
    }
  }

  /** Whatever the messages and however the network cuts the stream into reads: once all
      of it is in, the receiver has exactly the messages sent if and only if every one of
      them is safe. */
  lemma StreamArrives(codec: Codec, ms: seq<NetworkMessage>, chunks: seq<Blob>)
    requires codec.Lossless() && Sendable(codec, ms) && Flatten(chunks) == Stream(codec, ms)
    ensures Delivered(codec, chunks) == ms <==> forall m :: m in ms ==> WireSafe(m)
    ensures Received(chunks).1 == []
  {
    hide TryDeserialize, WireSafe, Serialize, Stream, Received;
    StreamIsFrames(codec, ms);
    FramesArrive(Bodies(codec, ms), chunks);
    if forall m :: m in ms ==> WireSafe(m) {
      FramesDecode(codec, ms);
    } else if Delivered(codec, chunks) == ms {
      forall m | m in ms ensures WireSafe(m) {
        DecodedAreSafe(codec, Received(chunks).0, m);
      }
    }
  }

  /** Before all of it is in, the receiver has a prefix of the messages sent. */
  lemma StreamArrivesInOrder(codec: Codec, ms: seq<NetworkMessage>, chunks: seq<Blob>, pending: Blob)
    requires codec.Lossless() && Sendable(codec, ms) && Flatten(chunks) + pending == Stream(codec, ms)
    requires forall m :: m in ms ==> WireSafe(m)
    ensures Delivered(codec, chunks) <= ms
  {
    hide TryDeserialize, WireSafe, Serialize, Stream, Received, Extract;
    StreamIsFrames(codec, ms);
    FramesExtract(Bodies(codec, ms));
    FramesDecode(codec, ms);
    ChunkInvariance(chunks);
    ExtractSplit(Flatten(chunks), pending);
    var (frames, rest) := Extract(Flatten(chunks));
    DecodedConcat(b => TryDeserialize(codec, b), frames, Extract(rest + pending).0);
  }
}
