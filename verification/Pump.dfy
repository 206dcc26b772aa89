/** Tasks that move bytes from one pipe to another through a buffer of their own, and the two
    blocking ones behind a rats-tls stream. */
module Pump {
  import opened Framing
  import Line

  /** A byte FIFO between two tasks, as one of them sees it. The other one acts whenever this one
      waits: a writer adds bytes it still has (upcoming) up to the capacity, a reader takes some. */
  class Pipe {
    const cap: nat
    var data: seq<byte>       // in the pipe
    var upcoming: seq<byte>   // what its writer will still write before it closes the pipe
    var taken: seq<byte>      // what its reader has taken out
    var closes: nat           // how often the writing end was shut down
    var readFailed: bool      // a read from it has failed
    var writeFailed: bool     // a write to it has failed

    ghost predicate Valid()
      reads `data
    {
      1 <= cap && |data| <= cap
    }

    /** Everything that will ever come out of the pipe from now on. */
    ghost function Rest(): seq<byte>
      reads `data, `upcoming
    {
      data + upcoming
    }

    /** Everything that was ever put into the pipe. */
    ghost function Written(): seq<byte>
      reads `taken, `data
    {
      taken + data
    }

    constructor (capacity: nat, content: seq<byte>)
      requires 1 <= capacity
      ensures Valid() && cap == capacity && data == [] && taken == [] && upcoming == content && closes == 0
      ensures !readFailed && !writeFailed
    {
      cap, readFailed, writeFailed := capacity, false, false;
      data, upcoming, taken, closes := [], content, [], 0;
    }

    /** Any read may fail; that it did is recorded. */
    method TryRead() returns (ok: bool)
      modifies this`readFailed
      ensures readFailed <==> old(readFailed) || !ok
    {
      ok := *;
      readFailed := readFailed || !ok;
    }

    method TryWrite() returns (ok: bool)
      modifies this`writeFailed
      ensures writeFailed <==> old(writeFailed) || !ok
    {
      ok := *;
      writeFailed := writeFailed || !ok;
    }

    /** Blocks until there is a byte to read or the writer has closed the pipe. */
    method AwaitReadable()
      requires Valid()
      modifies this`data, this`upcoming
      ensures Valid() && Rest() == old(Rest())
      ensures old(data) <= data
      ensures data == [] ==> upcoming == []
    {
      if data == [] && upcoming != [] {
        var n: nat :| 1 <= n <= |upcoming| && n <= cap;
        data, upcoming := upcoming[..n], upcoming[n..];
      }
    }

    /** Blocks until there is room to write. */
    method AwaitWritable()
      requires Valid()
      modifies this`data, this`taken
      ensures Valid() && Written() == old(Written()) && |data| < cap
    {
      if |data| == cap {
        var n: nat :| 1 <= n <= |data|;
        data, taken := data[n..], taken + data[..n];
      }
    }
  }

  /** A task between two pipes: buf[wOff..rLen] is what it has read and not yet written. */
  class Task {
    const kind: Line.Kind
    const src: Pipe
    const dst: Pipe
    const buf: array<byte>
    var wOff: nat
    var rLen: nat
    var live: bool

    ghost predicate Valid()
      reads `wOff, `rLen, src`data, dst`data
    {
      && src != dst && src.Valid() && dst.Valid()
      && 1 <= buf.Length
      && wOff <= rLen <= buf.Length
    }

    ghost function Pending(): seq<byte>
      reads `wOff, `rLen, buf
      requires wOff <= rLen <= buf.Length
    {
      buf[wOff..rLen]
    }

    /** This task and its upstream neighbour as two hops of a line. */
    ghost function View(up: Line.Hop): seq<Line.Hop>
      reads this, buf, src, dst
      requires Valid()
    {
      [up.(pipe := src.data, cap := src.cap),
       Line.Hop(kind, live, buf.Length, if live then Pending() else [], dst.cap, dst.data)]
    }

    constructor (k: Line.Kind, room: nat, source: Pipe, sink: Pipe)
      requires 1 <= room && source != sink && source.Valid() && sink.Valid()
      ensures Valid() && fresh(buf) && live && Pending() == []
      ensures kind == k && buf.Length == room && src == source && dst == sink
    {
      kind, src, dst, live := k, source, sink, true;
      buf := new byte[room](_ => 0);
      wOff, rLen := 0, 0;
    }

    /** One read into the empty buffer is the line's Fetch. */
    method Refill(ghost up: Line.Hop)
      requires Valid() && live && wOff == rLen && src.data != []
      modifies this`wOff, this`rLen, buf, src`data, src`taken
      ensures Valid() && wOff == 0 < rLen
      ensures old(src.Rest()) == Pending() + src.Rest() && src.taken == old(src.taken) + Pending()
      ensures var a := Line.Fetch(1, rLen);
              Line.Enabled(old(View(up)), true, a) && View(up) == Line.Next(old(View(up)), true, a)
    {
      var n: nat :| 1 <= n <= |src.data| && n <= buf.Length;
      var chunk := src.data[..n];
      assert src.data == chunk + src.data[n..];
      forall i | 0 <= i < n { buf[i] := chunk[i]; }
      wOff, rLen := 0, n;
      assert Pending() == chunk;
      src.data, src.taken := src.data[n..], src.taken + chunk;
      assert chunk + src.Rest() == (chunk + src.data) + src.upcoming;
    }

    /** One partial write is the line's Emit. */
    method WriteSome(ghost up: Line.Hop)
      requires Valid() && live && wOff < rLen && |dst.data| < dst.cap && dst.closes == 0
      modifies this`wOff, dst`data
      ensures Valid() && old(wOff) < wOff
      ensures dst.Written() + Pending() == old(dst.Written() + Pending())
      ensures var a := Line.Emit(1, wOff - old(wOff));
              Line.Enabled(old(View(up)), true, a) && View(up) == Line.Next(old(View(up)), true, a)
    {
      var n: nat :| 1 <= n <= rLen - wOff && |dst.data| + n <= dst.cap;
      var chunk := buf[wOff..wOff + n];
      assert chunk == Pending()[..n];
      assert buf[wOff + n..rLen] == Pending()[n..];
      assert dst.taken + (dst.data + chunk) + Pending()[n..] == dst.taken + dst.data + (chunk + Pending()[n..]);
      dst.data := dst.data + chunk;
      wOff := wOff + n;
    }

    /** Returning at end of file is the line's End; returning for any other reason is a Kill.
        The writing end of the pipe is shut down, once, and never written to again. */
    method Finish(ghost up: Line.Hop)
      requires Valid() && live
      modifies this`live, dst`closes
      ensures Valid() && !live && dst.closes == old(dst.closes) + 1
      ensures View(up) == Line.Kill(old(View(up)), {1})
      ensures var a := Line.End(1);
              Line.Enabled(old(View(up)), true, a) ==> View(up) == Line.Next(old(View(up)), true, a)
    {
      live := false;
      dst.closes := dst.closes + 1;
      assert Line.Kill(old(View(up)), {1}) == View(up);
    }

    /** Writes out the whole buffer in as many pieces as it takes; a write may fail. */
    method WriteAll(ghost up: Line.Hop) returns (ok: bool)
      requires Valid() && live && dst.closes == 0
      modifies this`wOff, dst`data, dst`taken, dst`writeFailed
      ensures Valid() && old(wOff) <= wOff
      ensures dst.Written() + Pending() == old(dst.Written() + Pending())
      ensures ok ==> wOff == rLen
      ensures dst.writeFailed <==> old(dst.writeFailed) || !ok
    {
      ghost var whole := dst.Written() + Pending();
      ok := true;
      while wOff < rLen
        invariant Valid() && old(wOff) <= wOff && dst.Written() + Pending() == whole
        invariant ok && dst.writeFailed == old(dst.writeFailed)
        decreases rLen - wOff
      {
        dst.AwaitWritable();
        ok := dst.TryWrite();
        if !ok { return; }
        WriteSome(up);
      }
    }

    /** One round: read once, then write it all out, or as much as goes. */
    method Round(ghost up: Line.Hop) returns (ok: bool, ghost chunk: seq<byte>, ghost out: seq<byte>)
      requires Valid() && live && wOff == rLen && src.data != [] && dst.closes == 0
      modifies this`wOff, this`rLen, buf, src`data, src`taken, dst`data, dst`taken, dst`writeFailed
      ensures Valid() && chunk != [] && out <= chunk
      ensures dst.writeFailed <==> old(dst.writeFailed) || !ok
      ensures old(src.Rest()) == chunk + src.Rest() && src.taken == old(src.taken) + chunk
      ensures dst.Written() == old(dst.Written()) + out
      ensures ok ==> out == chunk && wOff == rLen
    {
      Refill(up);
      chunk := Pending();
      ghost var w := dst.Written();
      ok := WriteAll(up);
      out := chunk[..|chunk| - |Pending()|];
      AssociateWritten(w, chunk, dst.Written(), Pending());
    }

    /** One turn of the loop: wait for input and move it on. Either side may fail. */
    method Turn(ghost up: Line.Hop) returns (end: TurnEnd, ghost chunk: seq<byte>, ghost out: seq<byte>)
      requires Valid() && live && wOff == rLen && dst.closes == 0
      modifies this`wOff, this`rLen, buf, src`data, src`upcoming, src`taken, src`readFailed
      modifies dst`data, dst`taken, dst`writeFailed
      ensures Valid() && out <= chunk
      ensures old(src.Rest()) == chunk + src.Rest() && src.taken == old(src.taken) + chunk
      ensures dst.Written() == old(dst.Written()) + out
      ensures end.SourceEnded? ==> src.Rest() == []
      ensures end.SourceEnded? || end.SourceFailed? ==> chunk == out == []
      ensures end.Moved? ==> out == chunk != [] && wOff == rLen
      ensures src.readFailed <==> old(src.readFailed) || end.SourceFailed?
      ensures dst.writeFailed <==> old(dst.writeFailed) || end.SinkFailed?
    {
      chunk, out := [], [];
      var ok := src.TryRead();
      if !ok { return SourceFailed, [], []; }
      src.AwaitReadable();
      if src.data == [] { return SourceEnded, [], []; }
      ok, chunk, out := Round(up);
      end := if ok then Moved else SinkFailed;
    }
  }

  datatype TurnEnd = Moved | SourceEnded | SourceFailed | SinkFailed

  /** The writer task: duplex pipe to rats-tls session. */
  method WriterTask(t: Task, ghost up: Line.Hop) returns (exit: TurnEnd, ghost got: seq<byte>, ghost sent: seq<byte>)
    requires t.Valid() && t.live && t.wOff == t.rLen && t.dst.closes == 0
    modifies t`wOff, t`rLen, t`live, t.buf
    modifies t.src`data, t.src`upcoming, t.src`taken, t.src`readFailed
    modifies t.dst`data, t.dst`taken, t.dst`closes, t.dst`writeFailed
    // what went out is a prefix of what was taken in, which is a prefix of what there was
    ensures t.dst.Written() == old(t.dst.Written()) + sent
    ensures t.src.taken == old(t.src.taken) + got && sent <= got
    ensures got + t.src.Rest() == old(t.src.Rest())
    // at end of file it is everything: all was taken in, and all that was taken in went out
    ensures exit.SourceEnded? ==> sent == got && t.src.Rest() == []
    // before that it ends only because a read or a transmit has failed
    ensures !exit.Moved?
    ensures t.src.readFailed <==> old(t.src.readFailed) || exit.SourceFailed?
    ensures t.dst.writeFailed <==> old(t.dst.writeFailed) || exit.SinkFailed?
    ensures exit.SourceFailed? ==> sent == got
    // the connection is shut down for writing exactly once, after the last transmit
    ensures t.Valid() && !t.live && t.dst.closes == 1
  {
    ghost var all := t.src.Rest();
    got, sent := [], [];
    while true
      invariant t.Valid() && t.live && t.wOff == t.rLen && t.dst.closes == 0
      invariant t.src.readFailed == old(t.src.readFailed) && t.dst.writeFailed == old(t.dst.writeFailed)
      invariant sent == got && got + t.src.Rest() == all
      invariant t.dst.Written() == old(t.dst.Written()) + sent
      invariant t.src.taken == old(t.src.taken) + got
      decreases |t.src.Rest()|
    {
      var end, chunk, out := t.Turn(up);
      Appended(old(t.dst.Written()), sent, out);
      Appended(old(t.src.taken), got, chunk);
      Appended(got, chunk, t.src.Rest());
      got, sent, exit := got + chunk, sent + out, end;
      if !end.Moved? { break; }                  // read 0 bytes, or the read or the transmit failed
    }
    t.Finish(up);
  }

  lemma AssociateWritten(w: seq<byte>, chunk: seq<byte>, w': seq<byte>, left: seq<byte>)
    requires w' + left == w + chunk && |left| <= |chunk|
    ensures w' == w + chunk[..|chunk| - |left|]
    ensures left == chunk[|chunk| - |left|..]
  {
    var n := |w'|;
    assert w' == (w' + left)[..n] && left == (w' + left)[n..];
  }

  /** The reader task: rats-tls session to duplex pipe. The session fails once the peer has shut
      down and everything was received; before that it may hand out empty chunks (at most idle
      of them in this run), or fail. The duplex pipe is closed when the reader is gone. */
  method ReaderTask(t: Task, ghost up: Line.Hop, idle: nat)
    returns (exit: TurnEnd, ghost got: seq<byte>, ghost passed: seq<byte>)
    requires t.Valid() && t.live && t.wOff == t.rLen && t.dst.closes == 0
    modifies t`wOff, t`rLen, t`live, t.buf
    modifies t.src`data, t.src`upcoming, t.src`taken, t.src`readFailed
    modifies t.dst`data, t.dst`taken, t.dst`closes, t.dst`writeFailed
    ensures t.dst.Written() == old(t.dst.Written()) + passed
    ensures t.src.taken == old(t.src.taken) + got && passed <= got
    ensures got + t.src.Rest() == old(t.src.Rest())
    // when it was the session that ended, the user gets exactly the chunks received, which is
    // everything the peer sent if the session failed only because it had ended
    ensures !exit.SinkFailed? ==> passed == got
    ensures exit.SourceEnded? ==> t.src.Rest() == []
    // before that it ends only because the session has failed or the user has dropped the stream
    ensures !exit.Moved?
    ensures t.src.readFailed <==> old(t.src.readFailed) || exit.SourceFailed?
    ensures t.dst.writeFailed <==> old(t.dst.writeFailed) || exit.SinkFailed?
    // the user sees the end after the last byte, once
    ensures t.Valid() && !t.live && t.dst.closes == 1
  {
    ghost var all := t.src.Rest();
    got, passed := [], [];
    var spare := idle;
    while true
      invariant t.Valid() && t.live && t.wOff == t.rLen && t.dst.closes == 0
      invariant t.src.readFailed == old(t.src.readFailed) && t.dst.writeFailed == old(t.dst.writeFailed)
      invariant passed == got && got + t.src.Rest() == all
      invariant t.dst.Written() == old(t.dst.Written()) + passed
      invariant t.src.taken == old(t.src.taken) + got
      decreases |t.src.Rest()| + spare
    {
      var empty: bool := *;
      if spare > 0 && empty {                    // an empty chunk: write_all has nothing to do
        spare := spare - 1;
      } else {
        var end, chunk, out := t.Turn(up);
        Appended(old(t.dst.Written()), passed, out);
        Appended(old(t.src.taken), got, chunk);
        Appended(got, chunk, t.src.Rest());
        got, passed, exit := got + chunk, passed + out, end;
        if !end.Moved? { break; }                // the user is gone, or the session failed or ended
      }
    }
    t.Finish(up);
  }
}
