/** The reading half of the framed stream, as a mutable object: bytes are fed in as they come,
    frames are taken out one at a time. A complete header is taken off the buffer at once and
    remembered, so the buffer may be empty while a frame is still incomplete. */
module Codec {
  import opened Framing

  datatype Awaiting = Header | Payload(length: nat)

  class FrameDecoder {
    var buffer: seq<byte>
    var awaiting: Awaiting

    ghost predicate Valid()
      reads this
    {
      awaiting.Payload? ==> awaiting.length <= MAX_FRAME_LEN
    }

    /** The bytes taken in and not yet handed out as frames. */
    ghost function Pending(): seq<byte>
      reads this
      requires Valid()
    {
      if awaiting.Payload? then EncodeLength(awaiting.length) + buffer else buffer
    }

    constructor ()
      ensures Valid() && Pending() == [] && awaiting.Header?
    {
      buffer := [];
      awaiting := Header;
    }

    method Feed(chunk: seq<byte>)
      requires Valid()
      modifies this
      ensures Valid() && Pending() == old(Pending()) + chunk && awaiting == old(awaiting)
    {
      buffer := buffer + chunk;
    }

    /** Takes the first frame out if it is complete; otherwise takes at most its header. */
    method Decode() returns (r: Head)
      requires Valid()
      modifies this
      ensures Valid() && r == Front(old(Pending()))
      ensures r.Frame? ==> Pending() == old(Pending())[r.size..] && awaiting.Header?
      ensures !r.Frame? ==> Pending() == old(Pending())
      ensures r.NeedMore? ==> (awaiting.Header? <==> |Pending()| < HEADER_LEN)
    {
      ghost var all := Pending();
      if awaiting.Header? {
        if |buffer| < HEADER_LEN {
          return NeedMore;
        }
        var n := DecodeLength(buffer[..HEADER_LEN]);
        if n > MAX_FRAME_LEN {
          return TooBig;
        }
        LengthIsInjective(buffer[..HEADER_LEN]);
        buffer := buffer[HEADER_LEN..];
        awaiting := Payload(n);
      }
      assert Pending() == all && all[..HEADER_LEN] == EncodeLength(awaiting.length) && all[HEADER_LEN..] == buffer;
      var n := awaiting.length;
      if |buffer| < n {
        return NeedMore;
      }
      assert all[HEADER_LEN..HEADER_LEN + n] == buffer[..n];
      r := Frame(buffer[..n], HEADER_LEN + n);
      buffer := buffer[n..];
      awaiting := Header;
    }
  }

  function Concat(chunks: seq<seq<byte>>): seq<byte> {
    if chunks == [] then [] else chunks[0] + Concat(chunks[1..])
  }

  lemma {:induction false} ConcatSnoc(chunks: seq<seq<byte>>, c: seq<byte>)
    ensures Concat(chunks + [c]) == Concat(chunks) + c
  {
    if chunks == [] {
      assert [] + [c] == [c];
    } else {
      assert (chunks + [c])[1..] == chunks[1..] + [c];
      ConcatSnoc(chunks[1..], c);
    }
  }

  /** How the stream ended: at a frame boundary or so it seems, with bytes left in the buffer
      (reported as an error), or at a refused header. */
  datatype Outcome = Clean | Leftover | Refused

  /** Takes out every complete frame. */
  method Drain(d: FrameDecoder) returns (out: seq<Packet>, refused: bool)
    requires d.Valid()
    modifies d
    ensures d.Valid()
    ensures out == Frames(old(d.Pending())) && d.Pending() == Rest(old(d.Pending()))
    ensures refused <==> Poisoned(old(d.Pending()))
    ensures !refused ==> (d.awaiting.Header? <==> |d.Pending()| < HEADER_LEN)
  {
    ghost var all := d.Pending();
    out, refused := [], false;
    while true
      invariant d.Valid()
      invariant Frames(all) == out + Frames(d.Pending()) && Rest(all) == Rest(d.Pending())
      decreases |d.Pending()|
    {
      ghost var before := d.Pending();
      var r := d.Decode();
      match r {
        case Frame(p, _) =>
          Appended(out, [p], Frames(d.Pending()));
          out := out + [p];
        case NeedMore =>
          assert Rest(before) == before;
          return;
        case TooBig =>
          assert Rest(before) == before;
          return out, true;
      }
    }
  }

  /** The next chunk: what comes out is what the longer stream has more. */
  method Absorb(d: FrameDecoder, ghost seen: seq<byte>, chunk: seq<byte>) returns (more: seq<Packet>, refused: bool)
    requires d.Valid() && d.Pending() == Rest(seen)
    modifies d
    ensures d.Valid() && d.Pending() == Rest(seen + chunk)
    ensures Frames(seen + chunk) == Frames(seen) + more
    ensures refused <==> Poisoned(seen + chunk)
    ensures !refused ==> (d.awaiting.Header? <==> |d.Pending()| < HEADER_LEN)
  {
    FramesSplit(seen, chunk);
    d.Feed(chunk);
    more, refused := Drain(d);
  }

  /** Reading a whole stream, cut into chunks in any way. The packets do not depend on the
      chunks; nor does the report. A stream that stops right behind a header passes for a clean
      end, because the header has left the buffer. */
  method DecodeStream(chunks: seq<seq<byte>>) returns (out: seq<Packet>, end: Outcome)
    ensures out == Frames(Concat(chunks))
    ensures end.Refused? <==> Poisoned(Concat(chunks))
    ensures end.Clean? <==> !Poisoned(Concat(chunks)) && (Whole(Concat(chunks)) || |Rest(Concat(chunks))| == HEADER_LEN)
  {
    var d := new FrameDecoder();
    out := [];
    ghost var seen: seq<byte> := [];
    NoFrames();
    for i := 0 to |chunks|
      invariant d.Valid() && fresh(d)
      invariant seen == Concat(chunks[..i])
      invariant out == Frames(seen) && d.Pending() == Rest(seen) && !Poisoned(seen)
      invariant d.awaiting.Header? <==> |d.Pending()| < HEADER_LEN
    {
      assert chunks[..i + 1] == chunks[..i] + [chunks[i]];
      ConcatSnoc(chunks[..i], chunks[i]);
      var more, refused := Absorb(d, seen, chunks[i]);
      out, seen := out + more, seen + chunks[i];
      if refused {
        ConcatPrefix(chunks, i + 1);
        PoisonStays(seen, Concat(chunks));
        return out, Refused;
      }
    }
    assert chunks[..|chunks|] == chunks;
    end := if d.buffer == [] then Clean else Leftover;
  }

  lemma {:induction false} ConcatPrefix(chunks: seq<seq<byte>>, k: nat)
    requires k <= |chunks|
    ensures Concat(chunks[..k]) <= Concat(chunks)
  {
    if k > 0 {
      assert chunks[..k][1..] == chunks[1..][..k - 1];
      ConcatPrefix(chunks[1..], k - 1);
    }
  }

  /** Chunking and truncation together: for every packet list, every cut of its encoding and
      every way to chunk the cut, exactly the packets wholly inside the cut come out, in order,
      and the cut is never taken for a refused header. */
  method DecodeCut(ps: seq<Packet>, chunks: seq<seq<byte>>) returns (out: seq<Packet>, end: Outcome)
    requires AllFit(ps) && Concat(chunks) <= EncodeAll(ps)
    ensures out <= ps && !end.Refused?
    ensures forall k :: 0 <= k <= |ps| ==> (k <= |out| <==> |EncodeAll(ps[..k])| <= |Concat(chunks)|)
    ensures Concat(chunks) == EncodeAll(ps) ==> out == ps && end.Clean?
  {
    out, end := DecodeStream(chunks);
    TruncationIsPrefix(ps, Concat(chunks));
    forall k | 0 <= k <= |ps| ensures k <= |out| <==> |EncodeAll(ps[..k])| <= |Concat(chunks)| {
      TruncationIsExact(ps, Concat(chunks), k);
    }
    RoundTrip(ps);
  }
}
