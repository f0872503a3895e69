/** Length-prefixed records: four big-endian bytes, then the body.  The changelog
    and the network use the same layout. */
module Bytes {
  import opened Prelude

  type Blob = seq<byte>

  function ToBigEndian(n: nat): (b: Blob)
    requires n < TWO_TO_THE_32
    ensures |b| == 4
  {
    [n / 0x100_0000, n / 0x1_0000 % 0x100, n / 0x100 % 0x100, n % 0x100]
  }

  function FromBigEndian(b: Blob): (n: nat)
    requires |b| == 4
    ensures n < TWO_TO_THE_32
  {
    b[0] as int * 0x100_0000 + b[1] as int * 0x1_0000 + b[2] as int * 0x100 + b[3] as int
  }

  lemma BigEndianRoundTrip(n: nat)
    requires n < TWO_TO_THE_32
    ensures FromBigEndian(ToBigEndian(n)) == n
  {
    var (a, b) := (n / 0x100, n / 0x1_0000);
    assert n == a * 0x100 + n % 0x100;
    assert a == b * 0x100 + a % 0x100;
    assert b == n / 0x100_0000 * 0x100 + b % 0x100;
  }

  lemma BigEndianIsOnto(b: Blob)
    requires |b| == 4
    ensures ToBigEndian(FromBigEndian(b)) == b
  {
    var n := FromBigEndian(b);
    assert n % 0x100 == b[3];
    assert n / 0x100 == b[0] as int * 0x1_0000 + b[1] as int * 0x100 + b[2] as int;
    assert n / 0x1_0000 == b[0] as int * 0x100 + b[1] as int;
    assert n / 0x100_0000 == b[0];
  }

  lemma FirstByteDecides(a: Blob, b: Blob, k: nat)
    requires |a| == 4 && |b| == 4 && k < 4 && a[k] < b[k] && forall i :: 0 <= i < k ==> a[i] == b[i]
    ensures FromBigEndian(a) < FromBigEndian(b)
  {
  }

  lemma FirstDifference(a: Blob, b: Blob) returns (k: nat)
    requires |a| == 4 && |b| == 4 && a != b
    ensures k < 4 && a[k] != b[k] && forall i :: 0 <= i < k ==> a[i] == b[i]
  {
    k := if a[0] != b[0] then 0 else if a[1] != b[1] then 1 else if a[2] != b[2] then 2 else 3;
  }

  /** The most significant byte comes first: numbers are in the order of their bytes. */
  lemma BigEndianOrders(m: nat, n: nat)
    requires m < TWO_TO_THE_32 && n < TWO_TO_THE_32
    ensures var (a, b) := (ToBigEndian(m), ToBigEndian(n));
      m < n <==> exists k :: 0 <= k < 4 && a[k] < b[k] && forall i :: 0 <= i < k ==> a[i] == b[i]
  {
    var (a, b) := (ToBigEndian(m), ToBigEndian(n));
    hide ToBigEndian, FromBigEndian;
    BigEndianRoundTrip(m);
    BigEndianRoundTrip(n);
    forall k | 0 <= k < 4 && a[k] < b[k] && forall i :: 0 <= i < k ==> a[i] == b[i] ensures m < n {
      FirstByteDecides(a, b, k);
    }
    if m < n {
      var k := FirstDifference(a, b);
      if b[k] < a[k] {
        FirstByteDecides(b, a, k);
      }
    }
  }

  /** The host writes the length as a u32, which drops the bits above it. */
  function Frame(body: Blob): (f: Blob)
    ensures |f| == 4 + |body|
  {
    ToBigEndian(|body| % TWO_TO_THE_32) + body
  }

  function Frames(bodies: seq<Blob>): Blob {
    if bodies == [] then [] else Frames(bodies[..|bodies| - 1]) + Frame(bodies[|bodies| - 1])
  }

  ghost predicate Short(bodies: seq<Blob>) { forall b :: b in bodies ==> |b| < TWO_TO_THE_32 }

  lemma {:induction false} FramesCons(body: Blob, bodies: seq<Blob>)
    ensures Frames([body] + bodies) == Frame(body) + Frames(bodies)
  {
    hide Frame;
    var all := [body] + bodies;
    if bodies == [] {
      assert all == [body] && [body][..0] == [];
      assert Frames([]) + Frame(body) == Frame(body) + Frames([]);
    } else {
      var (init, last) := (bodies[..|bodies| - 1], bodies[|bodies| - 1]);
      FramesCons(body, init);
      assert all[..|all| - 1] == [body] + init;
      ConcatAssociative(Frame(body), Frames(init), Frame(last));
    }
  }

  lemma FrameHeader(body: Blob, rest: Blob)
    requires |body| < TWO_TO_THE_32
    ensures var b := Frame(body) + rest;
      FromBigEndian(b[..4]) == |body| && b[4..4 + |body|] == body && b[4 + |body|..] == rest
  {
    hide ToBigEndian, FromBigEndian;
    BigEndianRoundTrip(|body|);
    var b := Frame(body) + rest;
    assert |body| % TWO_TO_THE_32 == |body|;
    assert b[..4] == ToBigEndian(|body|);
  }
}
