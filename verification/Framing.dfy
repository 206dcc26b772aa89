/** The wire format between an ENTA and the far ENTA: every packet is preceded by its length
    as four big-endian bytes; the length does not count the header; frames longer than 8 MiB
    are refused on both sides. */
module Framing {

  type byte = x: int | 0 <= x < 256
  type Packet = seq<byte>

  const HEADER_LEN: nat := 4
  const MAX_FRAME_LEN: nat := 8 * 1024 * 1024
  const FRAME_CAP: nat := HEADER_LEN + MAX_FRAME_LEN

  function EncodeLength(n: nat): (h: seq<byte>)
    requires n <= MAX_FRAME_LEN
    ensures |h| == HEADER_LEN
    ensures DecodeLength(h) == n
  {
    var a := n / 0x100;
    var b := a / 0x100;
    var c := b / 0x100;
    [c, b % 0x100, a % 0x100, n % 0x100]
  }

  function DecodeLength(h: seq<byte>): nat
    requires |h| == HEADER_LEN
  {
    (h[0] as int) * 0x100_0000 + (h[1] as int) * 0x1_0000 + (h[2] as int) * 0x100 + h[3] as int
  }

  function Encode(p: Packet): (b: seq<byte>)
    requires |p| <= MAX_FRAME_LEN
  {
    EncodeLength(|p|) + p
  }

  ghost predicate AllFit(ps: seq<Packet>) {
    forall i :: 0 <= i < |ps| ==> |ps[i]| <= MAX_FRAME_LEN
  }

  function EncodeAll(ps: seq<Packet>): seq<byte>
    requires AllFit(ps)
  {
    if ps == [] then [] else Encode(ps[0]) + EncodeAll(ps[1..])
  }

  /** What a reader finds at the front of a byte sequence. */
  datatype Head = NeedMore | TooBig | Frame(packet: Packet, size: nat)

  function Front(b: seq<byte>): (h: Head)
    ensures h.Frame? ==> HEADER_LEN <= h.size <= |b| && |h.packet| + HEADER_LEN == h.size
    ensures h.Frame? ==> |h.packet| <= MAX_FRAME_LEN
  {
    if |b| < HEADER_LEN then NeedMore
    else
      var n := DecodeLength(b[..HEADER_LEN]);
      if n > MAX_FRAME_LEN then TooBig
      else if |b| < HEADER_LEN + n then NeedMore
      else
        Frame(b[HEADER_LEN..HEADER_LEN + n], HEADER_LEN + n)
  }

  /** A header is determined by the length it carries. */
  lemma LengthIsInjective(h: seq<byte>)
    requires |h| == HEADER_LEN && DecodeLength(h) <= MAX_FRAME_LEN
    ensures EncodeLength(DecodeLength(h)) == h
  {
  }

  /** The packets wholly contained in b, in order, up to the first refused header. */
  function Frames(b: seq<byte>): seq<Packet>
    decreases |b|
  {
    match Front(b)
    case Frame(p, size) => [p] + Frames(b[size..])
    case _ => []
  }

  /** What is left of b once those packets are taken away. */
  function Rest(b: seq<byte>): (r: seq<byte>)
    ensures |r| <= |b| && r == b[|b| - |r|..]
    ensures !Front(r).Frame?
    decreases |b|
  {
    match Front(b)
    case Frame(_, size) => Rest(b[size..])
    case _ => b
  }

  predicate Whole(b: seq<byte>) { Rest(b) == [] }

  predicate Poisoned(b: seq<byte>) { Front(Rest(b)).TooBig? }

  // ---------------------------------------------------------------- the header

  /** The most significant byte comes first: of two lengths the smaller one has the smaller byte
      at the first place where their headers differ. */
  lemma HeaderOrder(m: nat, n: nat) returns (i: nat)
    requires m < n <= MAX_FRAME_LEN
    ensures i < HEADER_LEN && EncodeLength(m)[..i] == EncodeLength(n)[..i]
    ensures EncodeLength(m)[i] < EncodeLength(n)[i]
  {
    var a, b := EncodeLength(m), EncodeLength(n);
    i := if a[0] != b[0] then 0 else if a[1] != b[1] then 1 else if a[2] != b[2] then 2 else 3;
  }

  /** A short packet is announced by three zero bytes and its length, the longest one by the bytes
      0, 128, 0, 0. */
  lemma HeaderBytes(n: nat)
    requires n < 256
    ensures EncodeLength(n) == [0, 0, 0, n]
    ensures EncodeLength(256) == [0, 0, 1, 0] && EncodeLength(0x1_0000) == [0, 1, 0, 0]
    ensures EncodeLength(MAX_FRAME_LEN) == [0, 128, 0, 0]
  {
  }

  /** What a peer sends in that form is read as the packet behind it. */
  lemma ShortPacketIsRead(p: Packet, tail: seq<byte>)
    requires |p| < 256
    ensures Front([0, 0, 0, |p|] + p + tail) == Frame(p, HEADER_LEN + |p|)
  {
    HeaderBytes(|p|);
    FrontOfEncode(p, tail);
  }

  /** A header is refused if and only if it is complete and no bytes behind it could ever make a
      frame. */
  lemma RefusedIff(b: seq<byte>)
    ensures Front(b).TooBig? <==> |b| >= HEADER_LEN && forall c: seq<byte> :: !Front(b + c).Frame?
  {
    if Front(b).TooBig? {
      forall c: seq<byte> ensures !Front(b + c).Frame? { FrontExtends(b, c); }
    } else if |b| >= HEADER_LEN {
      var h := b[..HEADER_LEN];
      var c: seq<byte> := seq(DecodeLength(h), _ => 0);
      assert (b + c)[..HEADER_LEN] == h;
      assert Front(b + c).Frame?;
    }
  }

  // ---------------------------------------------------------------- one frame

  /** The bytes taken for a frame are the encoding of the packet handed out. */
  lemma FrontIsEncoded(b: seq<byte>)
    requires Front(b).Frame?
    ensures b == Encode(Front(b).packet) + b[Front(b).size..]
  {
    LengthIsInjective(b[..HEADER_LEN]);
  }

  lemma FrontOfEncode(p: Packet, tail: seq<byte>)
    requires |p| <= MAX_FRAME_LEN
    ensures Front(Encode(p) + tail) == Frame(p, HEADER_LEN + |p|)
    ensures (Encode(p) + tail)[HEADER_LEN + |p|..] == tail
  {
    var b := Encode(p) + tail;
    assert b[..HEADER_LEN] == EncodeLength(|p|);
    assert b[HEADER_LEN..HEADER_LEN + |p|] == p;
  }

  lemma FrontExtends(b: seq<byte>, c: seq<byte>)
    requires !Front(b).NeedMore?
    ensures Front(b + c) == Front(b)
    ensures Front(b).Frame? ==> (b + c)[Front(b).size..] == b[Front(b).size..] + c
  {
    assert (b + c)[..HEADER_LEN] == b[..HEADER_LEN];
    if Front(b).Frame? {
      var n := Front(b).size;
      assert (b + c)[HEADER_LEN..n] == b[HEADER_LEN..n];
    }
  }

  // ---------------------------------------------------------------- many frames

  lemma Appended<T>(a: seq<T>, b: seq<T>, c: seq<T>)
    ensures a + (b + c) == a + b + c
  {
  }

  lemma Middle<T>(a: seq<T>, b: seq<T>, c: seq<T>)
    ensures (a + (b + c))[|a|..|a| + |b|] == b
  {
  }

  /** Reading b and then c is reading b, keeping what is left over, and going on with c. */
  lemma {:induction false} FramesSplit(b: seq<byte>, c: seq<byte>)
    ensures Frames(b + c) == Frames(b) + Frames(Rest(b) + c)
    ensures Rest(b + c) == Rest(Rest(b) + c)
    decreases |b|
  {
    if Front(b).Frame? {
      FrontExtends(b, c);
      FramesSplit(b[Front(b).size..], c);
    }
  }

  /** A longer input never changes the packets a shorter one gave. */
  lemma FramesMonotone(b: seq<byte>, c: seq<byte>)
    requires b <= c
    ensures Frames(b) <= Frames(c)
  {
    assert c == b + c[|b|..];
    FramesSplit(b, c[|b|..]);
  }

  lemma PoisonStays(b: seq<byte>, c: seq<byte>)
    requires b <= c && Poisoned(b)
    ensures Poisoned(c) && Frames(c) == Frames(b)
  {
    assert c == b + c[|b|..];
    FramesSplit(b, c[|b|..]);
    FrontExtends(Rest(b), c[|b|..]);
  }

  lemma NoFrames()
    ensures Frames([]) == [] && Rest([]) == [] && Whole([]) && !Poisoned([])
  {
  }

  lemma FramesOfOne(p: Packet)
    requires |p| <= MAX_FRAME_LEN
    ensures Frames(Encode(p)) == [p] && Whole(Encode(p))
  {
    FramesAfterEncode(p, []);
    NoFrames();
    assert Encode(p) + [] == Encode(p);
  }

  lemma FramesAfterEncode(p: Packet, tail: seq<byte>)
    requires |p| <= MAX_FRAME_LEN
    ensures Frames(Encode(p) + tail) == [p] + Frames(tail)
    ensures Rest(Encode(p) + tail) == Rest(tail)
  {
    FrontOfEncode(p, tail);
  }

  /** Appending one encoded packet to whole frames appends exactly that packet. */
  lemma FramesAppend(b: seq<byte>, p: Packet)
    requires Whole(b) && |p| <= MAX_FRAME_LEN
    ensures Frames(b + Encode(p)) == Frames(b) + [p] && Whole(b + Encode(p))
  {
    FramesSplit(b, Encode(p));
    assert Rest(b) + Encode(p) == Encode(p);
    FramesOfOne(p);
  }

  /** Decoding is the inverse of encoding. */
  lemma {:induction false} RoundTrip(ps: seq<Packet>)
    requires AllFit(ps)
    ensures Frames(EncodeAll(ps)) == ps && Whole(EncodeAll(ps))
  {
    if ps == [] {
      NoFrames();
    } else {
      FramesAfterEncode(ps[0], EncodeAll(ps[1..]));
      RoundTrip(ps[1..]);
    }
  }

  /** And the other way round: the packets read, encoded again, are the bytes read. */
  lemma {:induction false} FramesRebuild(b: seq<byte>)
    ensures AllFit(Frames(b))
    ensures EncodeAll(Frames(b)) + Rest(b) == b
    decreases |b|
  {
    if Front(b).Frame? {
      var tail := b[Front(b).size..];
      FrontIsEncoded(b);
      FramesRebuild(tail);
      RebuildStep(Front(b).packet, Frames(tail), Rest(tail));
    }
  }

  lemma RebuildStep(p: Packet, ps: seq<Packet>, rest: seq<byte>)
    requires |p| <= MAX_FRAME_LEN && AllFit(ps)
    ensures AllFit([p] + ps)
    ensures EncodeAll([p] + ps) + rest == Encode(p) + (EncodeAll(ps) + rest)
  {
    assert ([p] + ps)[1..] == ps;
  }

  lemma {:induction false} EncodeAllConcat(ps: seq<Packet>, qs: seq<Packet>)
    requires AllFit(ps) && AllFit(qs)
    ensures AllFit(ps + qs) && EncodeAll(ps + qs) == EncodeAll(ps) + EncodeAll(qs)
  {
    if ps == [] {
      assert ps + qs == qs;
    } else {
      EncodeAllConcat(ps[1..], qs);
      assert (ps + qs)[0] == ps[0] && (ps + qs)[1..] == ps[1..] + qs;
      Appended(Encode(ps[0]), EncodeAll(ps[1..]), EncodeAll(qs));
    }
  }

  lemma EncodeAllTake(ps: seq<Packet>, k: nat)
    requires AllFit(ps) && k <= |ps|
    ensures EncodeAll(ps[..k]) <= EncodeAll(ps)
  {
    assert ps == ps[..k] + ps[k..];
    EncodeAllConcat(ps[..k], ps[k..]);
  }

  /** Truncation. However an encoded packet list is cut, the reader gets a prefix of the
      packets and never takes the cut for a refused header ... */
  lemma TruncationIsPrefix(ps: seq<Packet>, b: seq<byte>)
    requires AllFit(ps) && b <= EncodeAll(ps)
    ensures Frames(b) <= ps && !Poisoned(b)
  {
    RoundTrip(ps);
    FramesMonotone(b, EncodeAll(ps));
    if Poisoned(b) {
      PoisonStays(b, EncodeAll(ps));
      NoFrames();
    }
  }

  /** ... and that prefix is exactly the frames wholly inside the cut: the k-th packet is
      delivered if and only if its last byte is there. */
  lemma TruncationIsExact(ps: seq<Packet>, b: seq<byte>, k: nat)
    requires AllFit(ps) && b <= EncodeAll(ps) && k <= |ps|
    ensures k <= |Frames(b)| <==> |EncodeAll(ps[..k])| <= |b|
  {
    TruncationIsPrefix(ps, b);
    FramesRebuild(b);
    EncodeAllTake(ps, k);
    var head := EncodeAll(ps[..k]);
    if |head| <= |b| {
      assert head <= b;
      RoundTrip(ps[..k]);
      FramesMonotone(head, b);
    }
    if k <= |Frames(b)| {
      assert Frames(b)[..k] == ps[..k];
      EncodeAllTake(Frames(b), k);
    }
  }
}
