/** The four loops of an ENTA, each against the channel halves and streams it works with. What
    the other tasks and the devices do meanwhile is chosen anew each time a loop waits. */
module Enta {
  import opened Framing
  import opened Codec
  import opened Pump
  import opened Wrappers
  import Line
  import Relay

  /** The receiving half of a channel. upcoming: what its sender still sends before it is gone. */
  class Inbox {
    var queue: seq<Packet>
    var upcoming: seq<Packet>

    ghost predicate Valid()
      reads this
    {
      |queue| <= Relay.CHANNEL_CAP
    }

    ghost function Rest(): seq<Packet>
      reads this
    {
      queue + upcoming
    }

    constructor (packets: seq<Packet>)
      ensures Valid() && queue == [] && upcoming == packets
    {
      queue, upcoming := [], packets;
    }

    /** The outbound channel and to_entg behind it, as that loop sees them. */
    ghost function AsOutbound(framer: seq<Line.Hop>): Relay.State
      reads this
    {
      SenderState(upcoming != [], queue, framer)
    }

    /** The inbound channel and to_tun behind it. */
    ghost function AsInbound(held: seq<Packet>, written: seq<Packet>): Relay.State
      reads this
    {
      Relay.State([], false, [], [], [], upcoming != [], [], [], queue, true, held, written)
    }

    /** Blocks until there is a packet or the sender is gone. */
    method Await()
      requires Valid()
      modifies this
      ensures Valid() && Rest() == old(Rest()) && old(queue) <= queue
      ensures queue == [] ==> upcoming == []
    {
      if queue == [] && upcoming != [] {
        var n: nat :| 1 <= n <= |upcoming| && n <= Relay.CHANNEL_CAP;
        queue, upcoming := upcoming[..n], upcoming[n..];
      }
    }

    /** Takes the front: for to_tun the step SnkRecv. */
    method Take(ghost written: seq<Packet>) returns (p: Packet)
      requires Valid() && queue != []
      modifies this`queue
      ensures Valid() && old(queue) == [p] + queue
      ensures Relay.Enabled(old(AsInbound([], written)), Relay.SnkRecv)
      ensures AsInbound([p], written) == Relay.Next(old(AsInbound([], written)), Relay.SnkRecv)
    {
      p := queue[0];
      queue := queue[1..];
    }

    /** None only when the channel is empty and the sender is gone. */
    method Recv(ghost written: seq<Packet>) returns (r: Option<Packet>)
      requires Valid()
      modifies this
      ensures Valid()
      ensures r.None? <==> old(Rest()) == []
      ensures r.None? ==> Rest() == []
      ensures r.Some? ==> old(Rest()) == [r.value] + Rest()
    {
      Await();
      if queue == [] { return None; }
      var p := Take(written);
      r := Some(p);
    }
  }

  /** The sending half of a channel. sent: what was accepted so far. */
  class Outbox {
    var sent: seq<Packet>
    var waiting: nat
    var receiverLive: bool

    ghost predicate Valid()
      reads this
    {
      waiting <= Relay.CHANNEL_CAP && waiting <= |sent|
    }

    constructor ()
      ensures Valid() && sent == [] && receiverLive
    {
      sent, waiting, receiverLive := [], 0, true;
    }

    /** What the receiver has not taken yet. */
    ghost function Queue(): seq<Packet>
      reads this
      requires Valid()
    {
      sent[|sent| - waiting..]
    }

    /** from_tun holding a packet for the outbound channel; the receiver is to_entg. */
    ghost function AsSource(held: seq<Packet>): Relay.State
      reads this
      requires Valid()
    {
      Relay.State([], true, held, Queue(), [Line.Hop(Line.Framer, receiverLive, 0, [], 1, [])],
                  true, [], [], [], true, [], [])
    }

    /** from_entg holding a packet for the inbound channel; the receiver is to_tun. */
    ghost function AsDecoder(held: seq<Packet>): Relay.State
      reads this
      requires Valid()
    {
      Relay.State([], false, [], [], [], true, [], held, Queue(), receiverLive, [], [])
    }

    /** Blocks until there is room or the receiver is gone. */
    method AwaitRoom()
      requires Valid()
      modifies this`waiting, this`receiverLive
      ensures Valid() && (receiverLive ==> waiting < Relay.CHANNEL_CAP && old(receiverLive))
    {
      var gone: bool := *;
      receiverLive := receiverLive && !gone;
      if receiverLive && waiting == Relay.CHANNEL_CAP {
        var n: nat :| 1 <= n <= waiting;
        waiting := waiting - n;
      }
    }

    /** Puts a packet in: for from_tun the step SrcSend, for from_entg the step DecSend. */
    method Push(p: Packet)
      requires Valid() && receiverLive && waiting < Relay.CHANNEL_CAP
      modifies this`sent, this`waiting
      ensures Valid() && sent == old(sent) + [p] && Queue() == old(Queue()) + [p]
      ensures Relay.Enabled(old(AsSource([p])), Relay.SrcSend)
      ensures AsSource([]) == Relay.Next(old(AsSource([p])), Relay.SrcSend)
      ensures Relay.Enabled(old(AsDecoder([p])), Relay.DecSend)
      ensures AsDecoder([]) == Relay.Next(old(AsDecoder([p])), Relay.DecSend)
    {
      sent, waiting := sent + [p], waiting + 1;
    }

    /** Waits for room; fails once the receiver is gone, and the sender then breaks off. */
    method Send(p: Packet) returns (ok: bool)
      requires Valid()
      modifies this
      ensures Valid()
      ensures ok ==> sent == old(sent) + [p]
      ensures !ok ==> sent == old(sent) && !receiverLive
      ensures !ok ==> Relay.Enabled(AsSource([p]), Relay.SrcBreak) && Relay.Enabled(AsDecoder([p]), Relay.DecBreak)
    {
      AwaitRoom();
      ok := receiverLive;
      if ok { Push(p); }
    }
  }

  /** to_entg, with rest still to be written, as the first hop of a line. */
  ghost function AsFramer(out: Pipe, rest: seq<byte>): seq<Line.Hop>
    reads out`data
  {
    [Line.Hop(Line.Framer, true, 0, rest, out.cap, out.data)]
  }

  /** One partial write of a frame is the hop's Emit. */
  method WriteSome(out: Pipe, b: seq<byte>, i: nat) returns (n: nat)
    requires out.Valid() && i < |b| && |out.data| < out.cap
    modifies out`data
    ensures out.Valid() && 1 <= n <= |b| - i
    ensures out.data == old(out.data) + b[i..i + n]
    ensures var a := Line.Emit(0, n);
            && Line.Enabled(old(AsFramer(out, b[i..])), true, a)
            && AsFramer(out, b[i + n..]) == Line.Next(old(AsFramer(out, b[i..])), true, a)
  {
    n :| 1 <= n <= |b| - i && |out.data| + n <= out.cap;
    assert b[i..][..n] == b[i..i + n] && b[i..][n..] == b[i + n..];
    out.data := out.data + b[i..i + n];
  }

  /** Writes b to the stream in pieces of any size; any write may fail. */
  method WriteFrame(out: Pipe, b: seq<byte>) returns (ok: bool, ghost done: seq<byte>)
    requires out.Valid()
    modifies out`data, out`taken, out`writeFailed
    ensures out.Valid() && done <= b && out.Written() == old(out.Written()) + done
    ensures ok ==> done == b
    ensures out.writeFailed <==> old(out.writeFailed) || !ok
  {
    var i := 0;
    done, ok := [], true;
    while i < |b|
      invariant out.Valid() && 0 <= i <= |b| && done == b[..i]
      invariant out.Written() == old(out.Written()) + done
      invariant ok && out.writeFailed == old(out.writeFailed)
    {
      out.AwaitWritable();
      ok := out.TryWrite();
      if !ok { return; }
      ghost var taken, data := out.taken, out.data;
      var n := WriteSome(out, b, i);
      assert b[..i + n] == b[..i] + b[i..i + n];
      Appended(old(out.Written()), done, b[i..i + n]);
      Appended(taken, data, b[i..i + n]);
      i, done := i + n, b[..i + n];
    }
  }

  /** The packets before the first one over the frame limit. */
  function Fitting(ps: seq<Packet>): (r: seq<Packet>)
    ensures AllFit(r) && r <= ps
    ensures r == ps <==> AllFit(ps)
    ensures |r| < |ps| ==> |ps[|r|]| > MAX_FRAME_LEN
  {
    if ps == [] then []
    else if |ps[0]| <= MAX_FRAME_LEN then
      var r := [ps[0]] + Fitting(ps[1..]);
      assert AllFit(ps) ==> AllFit(ps[1..]);
      assert AllFit(ps[1..]) ==> AllFit(ps);
      r
    else []
  }

  lemma FittingCons(p: Packet, ps: seq<Packet>)
    requires |p| <= MAX_FRAME_LEN
    ensures Fitting([p] + ps) == [p] + Fitting(ps)
    ensures EncodeAll(Fitting([p] + ps)) == Encode(p) + EncodeAll(Fitting(ps))
    ensures AllFit([p] + ps) ==> AllFit(ps)
  {
    assert ([p] + ps)[1..] == ps;
    assert ([p] + Fitting(ps))[1..] == Fitting(ps);
    assert AllFit([p] + ps) ==> AllFit(ps) by {
      if AllFit([p] + ps) {
        forall i | 0 <= i < |ps| ensures |ps[i]| <= MAX_FRAME_LEN { assert ps[i] == ([p] + ps)[i + 1]; }
      }
    }
  }

  lemma RefusedFirst(p: Packet, ps: seq<Packet>)
    requires |p| > MAX_FRAME_LEN
    ensures Fitting([p] + ps) == [] && EncodeAll([]) == [] && !AllFit([p] + ps)
  {
    assert ([p] + ps)[0] == p;
  }

  /** What to_entg finds when it goes for the next packet: one to frame, one the codec refuses, or
      the end of the channel. */
  datatype Outbound = Load(frame: seq<byte>) | Refuse(size: nat) | NoMore

  ghost function SenderState(more: bool, queue: seq<Packet>, framer: seq<Line.Hop>): Relay.State {
    Relay.State([], more, [], queue, framer, true, [], [], [], true, [], [])
  }

  lemma RecvStep(more: bool, p: Packet, q: seq<Packet>, h: Line.Hop)
    requires h.live && h.buf == [] && |p| <= MAX_FRAME_LEN
    ensures var s := SenderState(more, [p] + q, [h]);
            && Relay.Enabled(s, Relay.EncRecv)
            && Relay.Next(s, Relay.EncRecv) == SenderState(more, q, [h.(buf := Encode(p))])
  {
    assert ([p] + q)[1..] == q;
    assert [h][0 := h.(buf := Encode(p))] == [h.(buf := Encode(p))];
  }

  lemma RefuseStep(more: bool, p: Packet, q: seq<Packet>, h: Line.Hop)
    requires h.live && h.buf == [] && |p| > MAX_FRAME_LEN
    ensures var s := SenderState(more, [p] + q, [h]);
            && Relay.Enabled(s, Relay.EncTooBig)
            && Relay.Next(s, Relay.EncTooBig) == SenderState(more, q, [h.Ended()])
  {
    assert ([p] + q)[1..] == q;
    var m := Line.Kill([h], {0});
    assert |m| == 1 && m[0] == h.Ended();
  }

  lemma EndStep(h: Line.Hop)
    requires h.live && h.buf == []
    ensures var s := SenderState(false, [], [h]);
            && Relay.Enabled(s, Relay.EncEnd)
            && Relay.Next(s, Relay.EncEnd) == SenderState(false, [], [h.Ended()])
  {
    var m := Line.Kill([h], {0});
    assert |m| == 1 && m[0] == h.Ended();
  }

  /** Taking a packet to frame it is the step EncRecv; when the codec refuses it, EncTooBig. */
  method TakeOutbound(rx: Inbox, out: Pipe) returns (r: Outbound, ghost p: Packet)
    requires rx.Valid() && rx.queue != []
    modifies rx`queue
    ensures rx.Valid() && old(rx.queue) == [p] + rx.queue
    ensures r == if |p| <= MAX_FRAME_LEN then Load(Encode(p)) else Refuse(|p|)
    ensures var l := if r.Load? then Relay.EncRecv else Relay.EncTooBig;
            var s := old(rx.AsOutbound(AsFramer(out, [])));
            && Relay.Enabled(s, l)
            && Relay.Next(s, l)
               == rx.AsOutbound(if r.Load? then AsFramer(out, r.frame) else [AsFramer(out, [])[0].Ended()])
  {
    var packet := rx.Take([]);
    p := packet;
    ghost var more, h := rx.upcoming != [], AsFramer(out, [])[0];
    if |packet| <= MAX_FRAME_LEN {
      r := Load(Encode(packet));
      RecvStep(more, p, rx.queue, h);
    } else {
      r := Refuse(|packet|);
      RefuseStep(more, p, rx.queue, h);
    }
  }

  /** One turn of to_entg up to the write. At the end of the channel the step EncEnd follows. */
  method LoadNext(rx: Inbox, out: Pipe) returns (r: Outbound, ghost p: Packet)
    requires rx.Valid()
    modifies rx
    ensures rx.Valid()
    ensures r.NoMore? <==> old(rx.Rest()) == []
    ensures r.NoMore? ==> rx.Rest() == [] && Relay.Enabled(rx.AsOutbound(AsFramer(out, [])), Relay.EncEnd)
    ensures !r.NoMore? ==> old(rx.Rest()) == [p] + rx.Rest()
    ensures !r.NoMore? ==> r == if |p| <= MAX_FRAME_LEN then Load(Encode(p)) else Refuse(|p|)
  {
    rx.Await();
    if rx.queue == [] {
      r, p := NoMore, [];
      EndStep(AsFramer(out, [])[0]);
    } else {
      r, p := TakeOutbound(rx, out);
    }
  }

  datatype LoopExit = Drained | Stopped

  /** to_entg: queued packets go out framed, one after the other. */
  method ToEntg(rx: Inbox, out: Pipe) returns (exit: LoopExit, rounds: nat, ghost done: seq<byte>)
    requires rx.Valid() && out.Valid()
    modifies rx, out`data, out`taken, out`writeFailed
    ensures out.Valid() && rx.Valid()
    ensures out.Written() == old(out.Written()) + done
    // whatever happens the stream holds a cut of the encoding of the packets that fit
    ensures done <= EncodeAll(Fitting(old(rx.Rest())))
    // and all of it when the loop ends because the channel is empty and closed
    ensures exit.Drained? ==> AllFit(old(rx.Rest())) && done == EncodeAll(old(rx.Rest()))
    // it stops before that only if a write fails or a packet is refused: with all writes working
    // everything before the first refused packet goes out, and there is none iff it ends drained
    ensures exit.Drained? ==> out.writeFailed == old(out.writeFailed)
    ensures !out.writeFailed ==> done == EncodeAll(Fitting(old(rx.Rest())))
    ensures !out.writeFailed ==> (exit.Drained? <==> AllFit(old(rx.Rest())))
    // the loop goes round once for each packet left, and once more to see the end
    ensures rounds <= |old(rx.Rest())| + 1
  {
    ghost var all := rx.Rest();
    exit, rounds, done := Stopped, 0, [];
    while true
      invariant rx.Valid() && out.Valid() && exit.Stopped? && out.writeFailed == old(out.writeFailed)
      invariant AllFit(all) ==> AllFit(rx.Rest())
      invariant out.Written() == old(out.Written()) + done
      invariant EncodeAll(Fitting(all)) == done + EncodeAll(Fitting(rx.Rest()))
      invariant AllFit(rx.Rest()) ==> AllFit(all)
      invariant rounds + |rx.Rest()| == |all|
      decreases |rx.Rest()|
    {
      var r, p := LoadNext(rx, out);
      rounds := rounds + 1;
      if r.NoMore? {
        exit := Drained;
        break;
      }
      if r.Refuse? {                                // the codec refuses the packet
        RefusedFirst(p, rx.Rest());
        Appended(done, [], []);
        break;
      }
      FittingCons(p, rx.Rest());
      var ok, w := WriteFrame(out, r.frame);
      Appended(old(out.Written()), done, w);
      Appended(done, r.frame, EncodeAll(Fitting(rx.Rest())));
      done := done + w;
      if !ok { break; }                             // the stream failed
    }
  }

  datatype Next = Got(packet: Packet) | Closed | Failed

  ghost function Ahead(d: FrameDecoder, src: Pipe): seq<byte>
    reads d, src`data, src`upcoming
    requires d.Valid()
  {
    d.Pending() + src.Rest()
  }

  /** The decoder and the stream it reads, as the reading end of a direction whose line has
      nothing more to come than what is in its last pipe. */
  ghost function AsReader(d: FrameDecoder, src: Pipe): Relay.State
    reads d, src`data
    requires d.Valid()
  {
    Relay.State([], false, [], [], [Line.Hop(Line.Framer, false, 0, [], src.cap, src.data)],
                true, d.Pending(), [], [], true, [], [])
  }

  /** One read: a chunk goes from the stream into the decoder. It is the step DecFetch. */
  method FeedSome(d: FrameDecoder, src: Pipe) returns (ghost n: nat)
    requires src.Valid() && d.Valid() && src.data != [] && Front(d.Pending()).NeedMore?
    modifies d, src`data, src`taken
    ensures src.Valid() && d.Valid() && Ahead(d, src) == old(Ahead(d, src))
    ensures |src.Rest()| < |old(src.Rest())|
    ensures Relay.Enabled(old(AsReader(d, src)), Relay.DecFetch(n))
    ensures AsReader(d, src) == Relay.Next(old(AsReader(d, src)), Relay.DecFetch(n))
  {
    var k: nat :| 1 <= k <= |src.data|;
    n := k;
    var chunk := src.data[..k];
    assert src.Rest() == chunk + (src.data[k..] + src.upcoming);
    Appended(d.Pending(), chunk, src.data[k..] + src.upcoming);
    src.data, src.taken := src.data[k..], src.taken + chunk;
    d.Feed(chunk);
  }

  /** What is left of it when from_entg has returned. */
  ghost function AsReaderGone(src: Pipe): Relay.State
    reads src`data
  {
    Relay.State([], false, [], [], [Line.Hop(Line.Framer, false, 0, [], src.cap, src.data)],
                false, [], [], [], true, [], [])
  }

  /** One attempt to decode. It is the step DecFrame or DecBad, or there is none to take. */
  method TryDecode(d: FrameDecoder, src: Pipe) returns (r: Head)
    requires d.Valid()
    modifies d
    ensures d.Valid() && r == Front(old(d.Pending()))
    ensures r.Frame? ==> Relay.Enabled(old(AsReader(d, src)), Relay.DecFrame)
    ensures r.Frame? ==> AsReader(d, src).(decHeld := [r.packet]) == Relay.Next(old(AsReader(d, src)), Relay.DecFrame)
    ensures r.TooBig? ==> Relay.Enabled(old(AsReader(d, src)), Relay.DecBad)
                          && AsReaderGone(src) == Relay.Next(old(AsReader(d, src)), Relay.DecBad)
    ensures !r.Frame? ==> d.Pending() == old(d.Pending())
    // with nothing in the pipe either, the stream has ended
    ensures r.NeedMore? && src.data == [] ==> Relay.Enabled(AsReader(d, src), Relay.DecEnd)
                                              && AsReaderGone(src) == Relay.Next(AsReader(d, src), Relay.DecEnd)
  {
    r := d.Decode();
  }

  /** The next item of the framed stream. */
  method NextFrame(d: FrameDecoder, src: Pipe) returns (r: Next)
    requires src.Valid() && d.Valid()
    modifies d, src`data, src`upcoming, src`taken, src`readFailed
    ensures src.Valid() && d.Valid()
    ensures r.Got? ==> Frames(old(Ahead(d, src))) == [r.packet] + Frames(Ahead(d, src))
    ensures r.Got? ==> Rest(old(Ahead(d, src))) == Rest(Ahead(d, src)) && src.readFailed == old(src.readFailed)
    ensures r.Got? ==> |Ahead(d, src)| < |old(Ahead(d, src))|
    ensures r.Closed? ==> Frames(old(Ahead(d, src))) == [] && !Poisoned(old(Ahead(d, src)))
    ensures r.Closed? ==> src.readFailed == old(src.readFailed)
    // an error is a refused header or a read that failed
    ensures r.Failed? && !src.readFailed ==> Frames(old(Ahead(d, src))) == [] && Poisoned(old(Ahead(d, src)))
  {
    ghost var all := Ahead(d, src);
    while true
      invariant src.Valid() && d.Valid() && Ahead(d, src) == all && src.readFailed == old(src.readFailed)
      decreases |src.Rest()|
    {
      ghost var before, rest := d.Pending(), src.Rest();
      var head := TryDecode(d, src);
      if head.Frame? {
        FrontExtends(before, rest);
        return Got(head.packet);
      }
      if head.TooBig? {                             // an error, after which the stream ends
        FrontExtends(before, rest);
        return Failed;
      }
      src.AwaitReadable();
      var ok := src.TryRead();
      if !ok { return Failed; }                     // a read error, likewise
      if src.data == [] {
        assert all == before;
        return Closed;
      }
      ghost var n := FeedSome(d, src);
    }
  }

  /** Of all bytes of the stream, passed are the packets read, and ahead is what comes after. */
  ghost predicate ReadSoFar(all: seq<byte>, passed: seq<Packet>, ahead: seq<byte>) {
    Frames(all) == passed + Frames(ahead) && Rest(all) == Rest(ahead)
  }

  lemma ReadNothing(all: seq<byte>)
    ensures ReadSoFar(all, [], all)
  {
  }

  lemma ReadIsPrefix(all: seq<byte>, passed: seq<Packet>, ahead: seq<byte>)
    requires ReadSoFar(all, passed, ahead)
    ensures passed <= Frames(all)
    ensures Frames(ahead) == [] ==> passed == Frames(all)
    ensures Poisoned(all) <==> Poisoned(ahead)
  {
  }

  lemma ReadOneMore(all: seq<byte>, passed: seq<Packet>, before: seq<byte>, p: Packet, after: seq<byte>)
    requires ReadSoFar(all, passed, before) && Frames(before) == [p] + Frames(after) && Rest(before) == Rest(after)
    ensures ReadSoFar(all, passed + [p], after)
  {
    Appended(passed, [p], Frames(after));
  }

  datatype Passing = PassedOn(packet: Packet) | ToTunGone | StreamEnded | StreamFailed

  /** One turn of from_entg: the next frame is queued, or the loop has a reason to end. */
  method PassNext(d: FrameDecoder, src: Pipe, tx: Outbox, ghost all: seq<byte>, ghost passed: seq<Packet>)
    returns (end: Passing)
    requires src.Valid() && tx.Valid() && d.Valid() && ReadSoFar(all, passed, Ahead(d, src))
    modifies d, tx, src`data, src`upcoming, src`taken, src`readFailed
    ensures src.Valid() && tx.Valid() && d.Valid()
    ensures end.PassedOn? ==> ReadSoFar(all, passed + [end.packet], Ahead(d, src))
    ensures end.PassedOn? ==> |Ahead(d, src)| < |old(Ahead(d, src))| && src.readFailed == old(src.readFailed)
    ensures tx.sent == if end.PassedOn? then old(tx.sent) + [end.packet] else old(tx.sent)
    ensures !end.PassedOn? ==> passed <= Frames(all)
    ensures end.ToTunGone? ==> !tx.receiverLive
    ensures end.StreamEnded? ==> passed == Frames(all) && !Poisoned(all) && src.readFailed == old(src.readFailed)
    ensures end.StreamFailed? && !src.readFailed ==> passed == Frames(all) && Poisoned(all)
  {
    ghost var ahead := Ahead(d, src);
    ReadIsPrefix(all, passed, ahead);
    var r := NextFrame(d, src);
    match r {
      case Got(p) =>
        var ok := tx.Send(p);
        if !ok { return ToTunGone; }
        ReadOneMore(all, passed, ahead, p, Ahead(d, src));
        end := PassedOn(p);
      case Failed => end := StreamFailed;
      case Closed => end := StreamEnded;
    }
  }

  /** from_entg: whatever frames come out of the stream are queued. */
  method FromEntg(src: Pipe, tx: Outbox) returns (exit: LoopExit, ghost passed: seq<Packet>)
    requires src.Valid() && tx.Valid()
    modifies tx, src`data, src`upcoming, src`taken, src`readFailed
    ensures tx.Valid() && tx.sent == old(tx.sent) + passed
    ensures passed <= Frames(old(src.Rest()))
    ensures exit.Drained? ==> passed == Frames(old(src.Rest())) && src.readFailed == old(src.readFailed)
    // it stops before the end only if to_tun is gone, a read failed, or a header is refused
    ensures tx.receiverLive && !src.readFailed ==> passed == Frames(old(src.Rest()))
    ensures tx.receiverLive && !src.readFailed ==> (exit.Drained? <==> !Poisoned(old(src.Rest())))
  {
    ghost var all := src.Rest();
    var d := new FrameDecoder();
    passed := [];
    assert Ahead(d, src) == all;
    ReadNothing(all);
    while true
      invariant src.Valid() && tx.Valid() && d.Valid() && fresh(d)
      invariant tx.sent == old(tx.sent) + passed && src.readFailed == old(src.readFailed)
      invariant ReadSoFar(all, passed, Ahead(d, src))
      decreases |Ahead(d, src)|
    {
      var end := PassNext(d, src, tx, all, passed);
      if !end.PassedOn? {
        return if end.StreamEnded? then Drained else Stopped, passed;
      }
      Appended(old(tx.sent), passed, [end.packet]);
      passed := passed + [end.packet];
    }
  }

  /** The TUN device as to_tun sees it: a write succeeds or fails. */
  class Device {
    var written: seq<Packet>
    var failed: bool

    constructor ()
      ensures written == [] && !failed
    {
      written, failed := [], false;
    }

    /** A write that succeeds is the step SnkDeliver. */
    method Write(ghost rx: Inbox, p: Packet) returns (ok: bool)
      modifies this
      ensures failed <==> old(failed) || !ok
      ensures written == if ok then old(written) + [p] else old(written)
      ensures ok ==> Relay.Enabled(rx.AsInbound([p], old(written)), Relay.SnkDeliver)
      ensures ok ==> rx.AsInbound([], written) == Relay.Next(rx.AsInbound([p], old(written)), Relay.SnkDeliver)
    {
      ok := *;
      if ok { written := written + [p]; } else { failed := true; }
    }
  }

  datatype Delivery = Delivered | ChannelEnd | DeviceFailed

  /** One turn of to_tun. At the end of the channel the step SnkEnd follows. */
  method DeliverNext(rx: Inbox, dev: Device) returns (end: Delivery)
    requires rx.Valid()
    modifies rx, dev
    ensures rx.Valid()
    ensures end.ChannelEnd? <==> old(rx.Rest()) == []
    ensures end.ChannelEnd? ==> Relay.Enabled(rx.AsInbound([], dev.written), Relay.SnkEnd)
    ensures dev.written == if end.Delivered? then old(dev.written) + old(rx.Rest())[..1] else old(dev.written)
    ensures dev.failed <==> old(dev.failed) || end.DeviceFailed?
    ensures rx.Rest() == if end.ChannelEnd? then [] else old(rx.Rest())[1..]
  {
    var r := rx.Recv(dev.written);
    if r.None? { return ChannelEnd; }
    var ok := dev.Write(rx, r.value);
    end := if ok then Delivered else DeviceFailed;
  }

  /** to_tun: queued packets are written to the device, until the channel ends or a write fails. */
  method ToTun(rx: Inbox, dev: Device) returns (exit: LoopExit, rounds: nat, ghost out: seq<Packet>)
    requires rx.Valid()
    modifies rx, dev
    ensures dev.written == old(dev.written) + out && out <= old(rx.Rest())
    ensures exit.Drained? ==> out == old(rx.Rest())
    // it stops before the channel's end if and only if the device fails
    ensures dev.failed <==> old(dev.failed) || exit.Stopped?
    ensures rounds <= |old(rx.Rest())| + 1
  {
    ghost var all := rx.Rest();
    exit, rounds, out := Drained, 0, [];
    while true
      invariant rx.Valid() && exit.Drained? && dev.failed == old(dev.failed)
      invariant dev.written == old(dev.written) + out && all == out + rx.Rest()
      invariant rounds + |rx.Rest()| == |all|
      decreases |rx.Rest()|
    {
      ghost var rest := rx.Rest();
      var end := DeliverNext(rx, dev);
      rounds := rounds + 1;
      if end.DeviceFailed? { exit := Stopped; }
      if !end.Delivered? { break; }
      NextOut(old(dev.written), out, rest);
      out := out + rest[..1];
    }
  }

  lemma NextOut(w: seq<Packet>, out: seq<Packet>, rest: seq<Packet>)
    requires rest != []
    ensures w + out + rest[..1] == w + (out + rest[..1])
    ensures out + rest == out + rest[..1] + rest[1..]
  {
  }

  /** What the TUN device yields: packets, and now and then an error. */
  datatype TunRead = Read(packet: Packet) | ReadError

  function Packets(frames: seq<TunRead>): seq<Packet> {
    if frames == [] then []
    else if frames[0].Read? then [frames[0].packet] + Packets(frames[1..])
    else Packets(frames[1..])
  }

  /** Errors count for nothing and packets for themselves, wherever they come. */
  lemma {:induction false} PacketsOf(a: seq<TunRead>, b: seq<TunRead>)
    ensures Packets(a + b) == Packets(a) + Packets(b)
    ensures Packets([ReadError]) == [] && forall p: Packet :: Packets([Read(p)]) == [p]
  {
    if a == [] {
      assert a + b == b;
    } else {
      assert (a + b)[1..] == a[1..] + b;
      PacketsOf(a[1..], b);
    }
  }

  /** from_tun: read errors are skipped; it stops when the device ends or to_entg is gone. */
  method FromTun(frames: seq<TunRead>, tx: Outbox) returns (exit: LoopExit, ghost passed: seq<Packet>)
    requires tx.Valid()
    modifies tx
    ensures tx.Valid() && tx.sent == old(tx.sent) + passed
    ensures passed <= Packets(frames)
    ensures exit.Drained? ==> passed == Packets(frames)
    ensures exit.Stopped? ==> !tx.receiverLive
  {
    passed := [];
    for i := 0 to |frames|
      invariant tx.Valid() && tx.sent == old(tx.sent) + passed
      invariant Packets(frames) == passed + Packets(frames[i..])
    {
      if frames[i].Read? {
        var ok := tx.Send(frames[i].packet);
        if !ok { return Stopped, passed; }
        passed := passed + [frames[i].packet];
      }
      assert frames[i..][1..] == frames[i + 1..];
    }
    exit := Drained;
  }
}
