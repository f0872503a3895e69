/** Taking messages off a TCP stream (paxos-wasm/runner-ws/src/host_network_server.rs):
    chunks cut the stream anywhere, a buffer holds what is not yet a whole frame. */
module Framing {
  import opened Prelude
  import opened Bytes

  predicate Complete(b: Blob) { |b| >= 4 && |b| >= 4 + FromBigEndian(b[..4]) }

  function Head(b: Blob): Blob
    requires Complete(b)
  {
    var len := FromBigEndian(b[..4]);
    ToBigEndian(len) + b[4..4 + len]
  }

  function AfterHead(b: Blob): (rest: Blob)
    requires Complete(b)
    ensures |rest| < |b|
  {
    b[4 + FromBigEndian(b[..4])..]
  }

  /** The whole frames at the front, header included, and what is left over. */
  function Extract(b: Blob): (seq<Blob>, Blob)
  {
    if !Complete(b) then ([], b)
    else
      var (frames, rest) := Extract(AfterHead(b));
      ([Head(b)] + frames, rest)
  }

  lemma HeadAndRest(b: Blob)
    requires Complete(b)
    ensures Head(b) + AfterHead(b) == b
  {
    BigEndianIsOnto(b[..4]);
  }

  lemma HeadStays(a: Blob, c: Blob)
    requires Complete(a)
    ensures Complete(a + c) && Head(a + c) == Head(a) && AfterHead(a + c) == AfterHead(a) + c
  {
  }

  lemma FlattenCons<T>(x: seq<T>, xs: seq<seq<T>>)
    ensures Flatten([x] + xs) == x + Flatten(xs)
  {
  }

  /** One-shot extraction loses and invents no byte. */
  lemma {:induction false} ExtractConserves(b: Blob)
    ensures Flatten(Extract(b).0) + Extract(b).1 == b
    decreases |b|
  {
    hide Complete, Head, AfterHead, Flatten;
    if Complete(b) {
      var (frames, rest) := Extract(AfterHead(b));
      ExtractConserves(AfterHead(b));
      HeadAndRest(b);
      FlattenCons(Head(b), frames);
      ConcatAssociative(Head(b), Flatten(frames), rest);
    } else {
      FlattenNothing(b);
    }
  }

  lemma FlattenNothing(b: Blob)
    ensures Flatten([]) + b == b
  {
  }

  /** More bytes do not disturb the frames already there. */
  lemma {:induction false} ExtractSplit(a: Blob, c: Blob)
    ensures var (frames, rest) := Extract(a);
      Extract(a + c) == (frames + Extract(rest + c).0, Extract(rest + c).1)
    decreases |a|
  {
    hide Complete, Head, AfterHead;
    if Complete(a) {
      var tail := AfterHead(a);
      ExtractSplit(tail, c);
      HeadStays(a, c);
      ConcatAssociative([Head(a)], Extract(tail).0, Extract(Extract(tail).1 + c).0);
    } else {
      assert [] + Extract(a + c).0 == Extract(a + c).0;
    }
  }

  /** What a connection has extracted and still buffers after these reads. */
  function Received(chunks: seq<Blob>): (seq<Blob>, Blob) {
    if chunks == [] then ([], [])
    else
      var (frames, buffer) := Received(chunks[..|chunks| - 1]);
      var (more, rest) := Extract(buffer + chunks[|chunks| - 1]);
      (frames + more, rest)
  }

  /** Chunk invariance: however the stream is cut into reads, the frames and the
      remaining buffer are those of parsing the whole stream at once. */
  lemma {:induction false} ChunkInvariance(chunks: seq<Blob>)
    ensures Received(chunks) == Extract(Flatten(chunks))
    ensures Flatten(Received(chunks).0) + Received(chunks).1 == Flatten(chunks)
  {
    if chunks != [] {
      var (init, last) := (chunks[..|chunks| - 1], chunks[|chunks| - 1]);
      ChunkInvariance(init);
      assert chunks == init + [last];
      FlattenSnoc(init, last);
      ExtractSplit(Flatten(init), last);
    }
    ExtractConserves(Flatten(chunks));
  }

  function FrameAll(bodies: seq<Blob>): seq<Blob> { seq(|bodies|, i requires 0 <= i < |bodies| => Frame(bodies[i])) }

  lemma OneFrameExtracts(body: Blob)
    requires |body| < TWO_TO_THE_32
    ensures Extract(Frame(body)) == ([Frame(body)], [])
  {
    hide ToBigEndian, FromBigEndian;
    FrameHeader(body, []);
    var b := Frame(body);
    assert b + [] == b;
    assert Head(b) == b && AfterHead(b) == [];
    assert Extract([]) == ([], []);
    assert [b] + [] == [b];
  }

  lemma {:induction false} FramesExtract(bodies: seq<Blob>)
    requires Short(bodies)
    ensures Extract(Frames(bodies)) == (FrameAll(bodies), [])
  {
    if bodies == [] {
      assert FrameAll(bodies) == [];
    } else {
      var (init, last) := (bodies[..|bodies| - 1], bodies[|bodies| - 1]);
      assert last in bodies;
      FramesExtract(init);
      assert FrameAll(bodies) == FrameAll(init) + [Frame(last)];
      hide Frame, Extract;
      ExtractSplit(Frames(init), Frame(last));
      OneFrameExtracts(last);
      assert [] + Frame(last) == Frame(last);
    }
  }

  /** Whole frames sent come out whole and in order, for every way of cutting them. */
  lemma FramesArrive(bodies: seq<Blob>, chunks: seq<Blob>)
    requires Short(bodies) && Flatten(chunks) == Frames(bodies)
    ensures Received(chunks) == (FrameAll(bodies), [])
  {
    ChunkInvariance(chunks);
    FramesExtract(bodies);
  }

  /** The messages of the frames that decode; the others are dropped with a log line. */
  function Decoded<M>(decode: Blob -> Result<M>, frames: seq<Blob>): seq<M> {
    if frames == [] then []
    else
      var init := Decoded(decode, frames[..|frames| - 1]);
      match decode(frames[|frames| - 1])
      case Ok(m) => init + [m]
      case Err(_) => init
  }

  lemma {:induction false} DecodedConcat<M>(decode: Blob -> Result<M>, a: seq<Blob>, b: seq<Blob>)
    ensures Decoded(decode, a + b) == Decoded(decode, a) + Decoded(decode, b)
  {
    if b == [] {
      assert a + b == a;
    } else {
      var (init, last) := (b[..|b| - 1], b[|b| - 1]);
      DecodedConcat(decode, a, init);
      assert (a + b)[..|a + b| - 1] == a + init;
    }
  }

  class Connection<M> {
    const decode: Blob -> Result<M>
    var buffer: Blob
    var messages: seq<M>

    constructor (decode: Blob -> Result<M>)
      ensures this.decode == decode && buffer == [] && messages == []
    {
      this.decode, buffer, messages := decode, [], [];
    }

    method OnRead(chunk: Blob)
      modifies this
      ensures buffer == Extract(old(buffer) + chunk).1
      ensures messages == old(messages) + Decoded(decode, Extract(old(buffer) + chunk).0)
    {
      hide FromBigEndian, ToBigEndian, Extract, Decoded, Complete;
      var b := buffer + chunk;
      var offset := 0;
      ghost var frames: seq<Blob> := [];
      assert b[0..] == b && frames + Extract(b).0 == Extract(b).0;
      NothingDecoded(decode);
      while |b| >= offset + 4
        invariant 0 <= offset <= |b|
        invariant Extract(b) == (frames + Extract(b[offset..]).0, Extract(b[offset..]).1)
        invariant messages == old(messages) + Decoded(decode, frames)
        invariant buffer == old(buffer)
        decreases |b| - offset
      {
        var len := FromBigEndian(b[offset..offset + 4]);
        if |b| < offset + 4 + len {
          Incomplete(b, offset);
          break;
        }
        var frame := ToBigEndian(len) + b[offset + 4..offset + 4 + len];
        HeadAt(b, offset);
        DecodedSnoc(decode, frames, frame);
        ConcatAssociative(frames, [frame], Extract(b[offset + 4 + len..]).0);
        offset := offset + 4 + len;
        match decode(frame) {
          case Ok(m) => messages := messages + [m];
          case Err(_) =>
        }
        frames := frames + [frame];
      }
      if |b| < offset + 4 {
        TooShort(b[offset..]);
      }
      assert frames + [] == frames;
      buffer := if offset > 0 then b[offset..] else b;
    }
  }

  lemma NothingDecoded<M>(decode: Blob -> Result<M>)
    ensures Decoded(decode, []) == []
  {
  }

  lemma TooShort(b: Blob)
    requires |b| < 4
    ensures Extract(b) == ([], b)
  {
  }

  lemma Incomplete(b: Blob, offset: nat)
    requires offset + 4 <= |b| < offset + 4 + FromBigEndian(b[offset..offset + 4])
    ensures Extract(b[offset..]) == ([], b[offset..])
  {
  }

  lemma DecodedSnoc<M>(decode: Blob -> Result<M>, frames: seq<Blob>, frame: Blob)
    ensures Decoded(decode, frames + [frame]) ==
      Decoded(decode, frames) + match decode(frame) case Ok(m) => [m] case Err(_) => []
  {
  }

  lemma HeadAt(b: Blob, offset: nat)
    requires offset + 4 <= |b|
    requires var len := FromBigEndian(b[offset..offset + 4]); offset + 4 + len <= |b|
    ensures var (len, rest) := (FromBigEndian(b[offset..offset + 4]), b[offset..]);
      && Complete(rest) && Head(rest) == ToBigEndian(len) + b[offset + 4..offset + 4 + len]
      && AfterHead(rest) == b[offset + 4 + len..]
      && Extract(rest) == ([Head(rest)] + Extract(AfterHead(rest)).0, Extract(AfterHead(rest)).1)
  {
  }
}
