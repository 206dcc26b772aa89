/** The ENTG: it waits for its two peers in whatever order they come, then copies bytes both ways
    until either copy is done. */
module Entg {
  import opened Framing
  import Line
  import opened Pump
  import opened Wrappers

  datatype Stream = Stream(id: nat)
  /** One of the two set-up futures. Polling it again after it has finished would panic. */
  class SetUp {
    var finished: bool
    var produced: Option<Stream>

    constructor ()
      ensures !finished
    {
      finished, produced := false, None;
    }

    /** The select picked this branch: the future has run to its end. */
    method Finish() returns (r: Option<Stream>)
      requires !finished
      modifies this
      ensures finished && r == produced
    {
      finished := true;
      if * { produced := None; } else { var id: nat := *; produced := Some(Stream(id)); }
      r := produced;
    }
  }

  /** The rendezvous loop. A branch is guarded by its slot being empty, and a slot is empty as
      long as its future has not finished: so no finished future is polled, some branch can
      always be taken, and both slots are full when forwarding starts. */
  method Rendezvous(task1: SetUp, task2: SetUp)
    returns (ok: bool, enta: Option<Stream>, entg: Option<Stream>, rounds: nat)
    requires task1 != task2 && !task1.finished && !task2.finished
    modifies task1, task2
    // on success each slot holds what its own future produced, so both can be unwrapped
    ensures ok ==> task1.finished && task2.finished && enta.Some? && entg.Some?
    ensures ok ==> enta == task1.produced && entg == task2.produced && rounds == 2
    // otherwise one of the futures that finished had failed, and nothing is forwarded
    ensures !ok ==> (task1.finished && task1.produced.None?) || (task2.finished && task2.produced.None?)
    ensures rounds <= 2
  {
    enta, entg, rounds := None, None, 0;
    while enta.None? || entg.None?
      invariant task1.finished <==> enta.Some?
      invariant task2.finished <==> entg.Some?
      invariant enta.Some? ==> enta == task1.produced
      invariant entg.Some? ==> entg == task2.produced
      invariant rounds == (if enta.Some? then 1 else 0) + (if entg.Some? then 1 else 0)
      decreases (if enta.None? then 1 else 0) + (if entg.None? then 1 else 0)
    {
      var first: bool :| if first then enta.None? else entg.None?;   // an enabled branch
      rounds := rounds + 1;
      if first {
        var v := task1.Finish();
        if v.None? { return false, enta, entg, rounds; }
        enta := v;
      } else {
        var v := task2.Finish();
        if v.None? { return false, enta, entg, rounds; }
        entg := v;
      }
    }
    ok := true;
  }

  // ------------------------------------------------------------ forwarding

  datatype Polled = Progress | Eof | Failed

  /** All the bytes this copy has passed on, holds, or will still be given. */
  ghost function Flow(t: Task): seq<byte>
    reads t`wOff, t`rLen, t.buf, t.src`data, t.src`upcoming, t.dst`taken, t.dst`data
    requires t.wOff <= t.rLen <= t.buf.Length
  {
    t.dst.Written() + t.Pending() + t.src.Rest()
  }

  ghost function Remaining(t: Task): nat
    reads t`wOff, t`rLen, t.src`data, t.src`upcoming
    requires t.wOff <= t.rLen
  {
    2 * |t.src.Rest()| + (t.rLen - t.wOff)
  }

  ghost predicate Copying(t: Task)
    reads t`wOff, t`rLen, t`live, t.src`data, t.dst`data, t.dst`closes
  {
    t.Valid() && t.live && t.dst.closes == 0
  }

  /** A read or a write of this copy has failed. */
  predicate Broken(t: Task)
    reads t.src`readFailed, t.dst`writeFailed
  {
    t.src.readFailed || t.dst.writeFailed
  }

  /** One step of a copy with an empty buffer: it fills it, or stops. */
  method PollRead(t: Task, ghost up: Line.Hop) returns (r: Polled)
    requires Copying(t) && t.wOff == t.rLen
    modifies t`wOff, t`rLen, t.buf, t.src`data, t.src`upcoming, t.src`taken, t.src`readFailed
    ensures Copying(t) && Flow(t) == old(Flow(t))
    ensures t.src.readFailed <==> old(t.src.readFailed) || r.Failed?
    ensures r.Progress? ==> Remaining(t) < old(Remaining(t))
    ensures r.Eof? ==> t.Pending() == [] && t.src.Rest() == []
    ensures Remaining(t) <= old(Remaining(t))
  {
    var ok := t.src.TryRead();
    if !ok { return Failed; }
    t.src.AwaitReadable();
    if t.src.data == [] { return Eof; }
    ghost var w, rest := t.dst.Written(), t.src.Rest();
    t.Refill(up);
    Appended(w, t.Pending(), t.src.Rest());
    r := Progress;
  }

  /** One step of a copy with bytes in its buffer: it writes some of them, or fails. */
  method PollWrite(t: Task, ghost up: Line.Hop) returns (r: Polled)
    requires Copying(t) && t.wOff < t.rLen
    modifies t`wOff, t.dst`data, t.dst`taken, t.dst`writeFailed
    ensures Copying(t) && Flow(t) == old(Flow(t))
    ensures t.dst.writeFailed <==> old(t.dst.writeFailed) || r.Failed?
    ensures !r.Eof? && (r.Progress? ==> Remaining(t) < old(Remaining(t)))
    ensures Remaining(t) <= old(Remaining(t))
  {
    t.dst.AwaitWritable();
    var ok := t.dst.TryWrite();
    if !ok { return Failed; }
    t.WriteSome(up);
    r := Progress;
  }

  /** One step of a copy: fill the empty buffer, write some of it, or stop. */
  method Poll(t: Task, ghost up: Line.Hop) returns (r: Polled)
    requires Copying(t)
    modifies t`wOff, t`rLen, t.buf, t.src`data, t.src`upcoming, t.src`taken, t.src`readFailed
    modifies t.dst`data, t.dst`taken, t.dst`writeFailed
    ensures Copying(t) && Flow(t) == old(Flow(t))
    // it fails only if a read or a write fails
    ensures Broken(t) <==> old(Broken(t)) || r.Failed?
    ensures r.Progress? ==> Remaining(t) < old(Remaining(t))
    ensures r.Eof? ==> t.Pending() == [] && t.src.Rest() == []
    ensures Remaining(t) <= old(Remaining(t))
  {
    if t.wOff == t.rLen {
      r := PollRead(t, up);
    } else {
      r := PollWrite(t, up);
    }
  }

  datatype Winner = FromEnta(end: Polled) | FromEntg(end: Polled)

  /** The two copies work on different buffers and pipes. */
  predicate Apart(a: Task, b: Task) {
    && a != b && a.buf != b.buf
    && a.src != b.src && a.src != b.dst && a.dst != b.src && a.dst != b.dst
  }

  /** One round of the select: a step of the one copy or of the other. */
  method Round(a: Task, b: Task, first: bool, ghost up: Line.Hop) returns (r: Polled)
    requires Copying(a) && Copying(b) && Apart(a, b)
    modifies a`wOff, a`rLen, a.buf, a.src`data, a.src`upcoming, a.src`taken, a.src`readFailed
    modifies a.dst`data, a.dst`taken, a.dst`writeFailed
    modifies b`wOff, b`rLen, b.buf, b.src`data, b.src`upcoming, b.src`taken, b.src`readFailed
    modifies b.dst`data, b.dst`taken, b.dst`writeFailed
    ensures Copying(a) && Copying(b)
    ensures Flow(a) == old(Flow(a)) && Flow(b) == old(Flow(b))
    ensures Broken(a) <==> old(Broken(a)) || (first && r.Failed?)
    ensures Broken(b) <==> old(Broken(b)) || (!first && r.Failed?)
    ensures r.Progress? ==> Remaining(a) + Remaining(b) < old(Remaining(a) + Remaining(b))
    ensures r.Eof? && first ==> a.Pending() == [] && a.src.Rest() == []
    ensures r.Eof? && !first ==> b.Pending() == [] && b.src.Rest() == []
  {
    if first {
      r := Poll(a, up);
    } else {
      r := Poll(b, up);
    }
  }

  /** The select: steps of the two copies in any order, until one of them is done. The order is
      given: in round i the copy from the ENTA is polled iff turns(i). */
  method Race(a: Task, b: Task, turns: nat -> bool, ghost up: Line.Hop) returns (w: Winner, rounds: nat)
    requires Copying(a) && Copying(b) && Apart(a, b)
    modifies a`wOff, a`rLen, a.buf, a.src`data, a.src`upcoming, a.src`taken, a.src`readFailed
    modifies a.dst`data, a.dst`taken, a.dst`writeFailed
    modifies b`wOff, b`rLen, b.buf, b.src`data, b.src`upcoming, b.src`taken, b.src`readFailed
    modifies b.dst`data, b.dst`taken, b.dst`writeFailed
    ensures Copying(a) && Copying(b)
    ensures Flow(a) == old(Flow(a)) && Flow(b) == old(Flow(b))
    ensures w == FromEnta(Eof) ==> a.Pending() == [] && a.src.Rest() == []
    ensures w == FromEntg(Eof) ==> b.Pending() == [] && b.src.Rest() == []
    // the copy polled last is the one that is done, at end of file or because it failed
    ensures rounds >= 1 && (w.FromEnta? <==> turns(rounds - 1)) && !w.end.Progress?
    ensures Broken(a) <==> old(Broken(a)) || w == FromEnta(Failed)
    ensures Broken(b) <==> old(Broken(b)) || w == FromEntg(Failed)
  {
    ghost var flowA, flowB := Flow(a), Flow(b);
    ghost var brokenA, brokenB := Broken(a), Broken(b);
    rounds := 0;
    while true
      invariant Copying(a) && Copying(b)
      invariant Flow(a) == flowA && Flow(b) == flowB
      invariant Broken(a) == brokenA && Broken(b) == brokenB
      decreases Remaining(a) + Remaining(b)
    {
      var first := turns(rounds);
      var r := Round(a, b, first, up);
      rounds := rounds + 1;
      if !r.Progress? {
        return if first then FromEnta(r) else FromEntg(r), rounds;
      }
    }
  }

  lemma FlowParts(out: seq<byte>, pending: seq<byte>, rest: seq<byte>, out0: seq<byte>, rest0: seq<byte>)
    requires out + pending + rest == out0 + [] + rest0
    ensures out <= out0 + rest0
    ensures pending == [] && rest == [] ==> out == out0 + rest0
  {
    assert out + pending + rest == out0 + rest0;
  }

  /** Forwarding, for fresh copies. */
  method Forward(a: Task, b: Task, turns: nat -> bool, ghost up: Line.Hop) returns (w: Winner)
    requires Copying(a) && Copying(b) && Apart(a, b) && a.Pending() == [] && b.Pending() == []
    modifies a`wOff, a`rLen, a.buf, a.src`data, a.src`upcoming, a.src`taken, a.src`readFailed
    modifies a.dst`data, a.dst`taken, a.dst`writeFailed
    modifies b`wOff, b`rLen, b.buf, b.src`data, b.src`upcoming, b.src`taken, b.src`readFailed
    modifies b.dst`data, b.dst`taken, b.dst`writeFailed
    // each side has received a prefix of what the other side sent
    ensures a.dst.Written() <= old(a.dst.Written()) + old(a.src.Rest())
    ensures b.dst.Written() <= old(b.dst.Written()) + old(b.src.Rest())
    // and everything, in the direction whose end of file ended the forwarding
    ensures w == FromEnta(Eof) ==> a.dst.Written() == old(a.dst.Written()) + old(a.src.Rest())
    ensures w == FromEntg(Eof) ==> b.dst.Written() == old(b.dst.Written()) + old(b.src.Rest())
    // unless something has failed it does end that way
    ensures !Broken(a) && !Broken(b) ==> w.end.Eof?
  {
    var rounds;
    w, rounds := Race(a, b, turns, up);
    FlowParts(a.dst.Written(), a.Pending(), a.src.Rest(), old(a.dst.Written()), old(a.src.Rest()));
    FlowParts(b.dst.Written(), b.Pending(), b.src.Rest(), old(b.dst.Written()), old(b.src.Rest()));
  }
}
