/** The byte-carrying part of one direction, from the framer of the near ENTA to the last byte
    pipe before the far ENTA. It is a row of hops; a hop is one task (its local buffer holds
    what it has read and not yet written) together with the pipe it writes to. Hop 0 is the
    framer; every later hop reads the pipe of the hop before it.

    A pipe is a bounded byte FIFO. Its reader sees end of file when the pipe is empty and its
    writer has ended; its writer fails once its reader has ended. */
module Line {
  import opened Framing

  datatype Kind = Framer | TlsWriter | TlsReader | Copy(node: nat)

  /** live: it still runs. room: size of its buffer. cap: capacity of its pipe. */
  datatype Hop = Hop(kind: Kind, live: bool, room: nat, buf: seq<byte>, cap: nat, pipe: seq<byte>)
  {
    /** It has returned or was cancelled; what it held locally is gone. */
    function Ended(): Hop { this.(live := false, buf := []) }

    /** The most it can hold locally: the framer holds one frame, a pump its buffer. */
    function BufferSize(): nat { if kind.Framer? then FRAME_CAP else room }
  }

  const TLS_BUFFER: nat := 1024

  predicate HopOk(h: Hop) {
    && 1 <= h.cap && |h.pipe| <= h.cap
    && (!h.live ==> h.buf == [])
    && |h.buf| <= h.BufferSize()
    && (!h.kind.Framer? ==> 1 <= h.room)
    && (h.kind.TlsWriter? ==> h.room == TLS_BUFFER)
    && (h.kind.TlsReader? ==> h.room == TLS_BUFFER && h.cap == TLS_BUFFER)
  }

  ghost predicate LineOk(l: seq<Hop>) {
    && l != []
    && (forall i :: 0 <= i < |l| ==> HopOk(l[i]) && (l[i].kind.Framer? <==> i == 0))
    // a rats-tls writer reads from the 1024-byte duplex pipe
    && (forall i :: 0 < i < |l| && l[i].kind.TlsWriter? ==> l[i - 1].cap == TLS_BUFFER)
  }

  /** What a task does by itself: fetch bytes into its empty buffer, emit some of its buffer,
      return at end of file, or return because nobody reads its pipe any more. */
  datatype Action = Fetch(i: nat, k: nat) | Emit(i: nat, k: nat) | End(i: nat) | Break(i: nat)

  predicate ReaderLive(l: seq<Hop>, i: nat, downLive: bool)
    requires i < |l|
  {
    if i + 1 < |l| then l[i + 1].live else downLive
  }

  predicate Enabled(l: seq<Hop>, downLive: bool, a: Action) {
    match a
    case Fetch(i, k) =>
      0 < i < |l| && l[i].live && l[i].buf == [] && 1 <= k <= l[i].room && k <= |l[i - 1].pipe|
    case Emit(i, k) =>
      i < |l| && l[i].live && 1 <= k <= |l[i].buf| && |l[i].pipe| + k <= l[i].cap
    case End(i) =>
      0 < i < |l| && l[i].live && l[i].buf == [] && l[i - 1].pipe == [] && !l[i - 1].live
    case Break(i) =>
      i < |l| && l[i].live && l[i].buf != [] && !ReaderLive(l, i, downLive)
  }

  function Next(l: seq<Hop>, downLive: bool, a: Action): (m: seq<Hop>)
    requires Enabled(l, downLive, a)
    ensures |m| == |l|
  {
    match a
    case Fetch(i, k) =>
      l[i - 1 := l[i - 1].(pipe := l[i - 1].pipe[k..])]
       [i := l[i].(buf := l[i - 1].pipe[..k])]
    case Emit(i, k) =>
      l[i := l[i].(buf := l[i].buf[k..], pipe := l[i].pipe + l[i].buf[..k])]
    case End(i) => l[i := l[i].Ended()]
    case Break(i) => l[i := l[i].Ended()]
  }

  /** Cancellation and errors: any set of tasks may end at any time, whatever they hold. */
  function Kill(l: seq<Hop>, dead: set<nat>): (m: seq<Hop>)
    ensures |m| == |l|
    ensures forall i :: 0 <= i < |l| ==> m[i] == if i in dead then l[i].Ended() else l[i]
  {
    if l == [] then []
    else Kill(l[..|l| - 1], dead) + [if |l| - 1 in dead then l[|l| - 1].Ended() else l[|l| - 1]]
  }

  // ------------------------------------------------------------ what can still arrive

  ghost predicate Open(l: seq<Hop>) { forall i :: 0 <= i < |l| ==> l[i].live }

  /** The bytes that can still reach the end of the line, first to arrive first: nothing
      held at or before an ended task can, except what that task already wrote. */
  function Reach(l: seq<Hop>): seq<byte> {
    if l == [] then []
    else
      var h := l[|l| - 1];
      if h.live then h.pipe + h.buf + Reach(l[..|l| - 1]) else h.pipe
  }

  /** A change confined to the first j hops shows at the end of the line as it shows at j. */
  lemma {:induction false} ReachLocal(l: seq<Hop>, m: seq<Hop>, j: nat)
    requires |l| == |m| && j <= |l| && (forall i :: j <= i < |l| ==> l[i] == m[i])
    requires Reach(l[..j]) == Reach(m[..j])
    ensures Reach(l) == Reach(m)
  {
    if j == |l| {
      assert l[..j] == l && m[..j] == m;
    } else {
      var l0, m0 := l[..|l| - 1], m[..|m| - 1];
      assert l0[..j] == l[..j] && m0[..j] == m[..j];
      ReachLocal(l0, m0, j);
    }
  }

  lemma ReachOfFetch(l: seq<Hop>, downLive: bool, i: nat, k: nat)
    requires Enabled(l, downLive, Fetch(i, k))
    ensures Reach(Next(l, downLive, Fetch(i, k))) == Reach(l)
  {
    var m := Next(l, downLive, Fetch(i, k));
    var up := l[..i - 1];
    assert l[..i + 1] == up + [l[i - 1]] + [l[i]] && m[..i + 1] == up + [m[i - 1]] + [m[i]];
    FetchOfTwo(up, l[i - 1], l[i], k);
    ReachLocal(l, m, i + 1);
  }

  lemma FetchOfTwo(up: seq<Hop>, h: Hop, g: Hop, k: nat)
    requires g.live && g.buf == [] && k <= |h.pipe|
    ensures Reach(up + [h.(pipe := h.pipe[k..])] + [g.(buf := h.pipe[..k])]) == Reach(up + [h] + [g])
  {
    var h', g' := h.(pipe := h.pipe[k..]), g.(buf := h.pipe[..k]);
    ReachSnoc(up + [h], g);
    ReachSnoc(up + [h'], g');
    ReachSnoc(up, h);
    ReachSnoc(up, h');
    PipeSplit(g.pipe, h.pipe, k, if h.live then h.buf + Reach(up) else []);
  }

  lemma ReachSnoc(up: seq<Hop>, h: Hop)
    ensures Reach(up + [h]) == if h.live then h.pipe + (h.buf + Reach(up)) else h.pipe + []
  {
    assert (up + [h])[..|up|] == up;
  }

  lemma PipeSplit(a: seq<byte>, p: seq<byte>, k: nat, c: seq<byte>)
    requires k <= |p|
    ensures a + (p[..k] + (p[k..] + c)) == a + ([] + (p + c))
  {
  }

  lemma ReachOfEmit(l: seq<Hop>, downLive: bool, i: nat, k: nat)
    requires Enabled(l, downLive, Emit(i, k))
    ensures Reach(Next(l, downLive, Emit(i, k))) == Reach(l)
  {
    var m := Next(l, downLive, Emit(i, k));
    var h := l[i];
    assert l[..i + 1][..i] == l[..i] && m[..i + 1][..i] == l[..i];
    assert h.pipe + h.buf[..k] + h.buf[k..] == h.pipe + h.buf;
    ReachLocal(l, m, i + 1);
  }

  lemma ReachOfEnd(l: seq<Hop>, downLive: bool, i: nat)
    requires Enabled(l, downLive, End(i))
    ensures Reach(Next(l, downLive, End(i))) == Reach(l)
  {
    var m := Next(l, downLive, End(i));
    assert l[..i + 1][..i] == l[..i] && m[..i + 1][..i] == l[..i];
    assert Reach(l[..i]) == [];
    ReachLocal(l, m, i + 1);
  }

  /** Ending tasks only shortens, at its far end, what can still arrive. */
  lemma {:induction false} ReachOfKill(l: seq<Hop>, dead: set<nat>)
    ensures Reach(Kill(l, dead)) <= Reach(l)
  {
    if l != [] {
      ReachOfKill(l[..|l| - 1], dead);
      assert Kill(l, dead)[..|l| - 1] == Kill(l[..|l| - 1], dead);
    }
  }

  lemma BreakIsKill(l: seq<Hop>, downLive: bool, i: nat)
    requires Enabled(l, downLive, Break(i))
    ensures Next(l, downLive, Break(i)) == Kill(l, {i})
  {
  }

  /** A task that ends because its reader is gone takes nothing away that could still arrive,
      unless the line's own reader is the one that is gone. */
  lemma {:induction false} ReachOfBreak(l: seq<Hop>, downLive: bool, i: nat)
    requires Enabled(l, downLive, Break(i))
    ensures downLive || i + 1 < |l| ==> Reach(Next(l, downLive, Break(i))) == Reach(l)
  {
    var m := Next(l, downLive, Break(i));
    if i + 1 < |l| {
      assert Reach(l[..i + 2]) == l[i + 1].pipe == Reach(m[..i + 2]);
      ReachLocal(l, m, i + 2);
    }
  }

  /** Pipe j gets bytes only from hop j, at its end, and loses bytes only to hop j + 1, at its front;
      nothing is lost on the way. */
  lemma PipesAtTheirEnds(l: seq<Hop>, downLive: bool, a: Action, j: nat)
    requires Enabled(l, downLive, a) && j < |l|
    ensures var m := Next(l, downLive, a);
            if a.Emit? && a.i == j then m[j].pipe + m[j].buf == l[j].pipe + l[j].buf && |m[j].buf| == |l[j].buf| - a.k
            else if a.Fetch? && a.i == j + 1 then l[j].pipe == m[j + 1].buf + m[j].pipe && |m[j + 1].buf| == a.k
            else m[j].pipe == l[j].pipe
  {
  }

  /** What a hop waits for. With an empty buffer it can fetch from its pipe, or end at end of file,
      and waits only while that pipe is empty and its writer runs; with bytes to write it can emit,
      or break off, and waits only while its own pipe is full and read. It may move any number of
      bytes that are there and fit. */
  lemma HopWaitsFor(l: seq<Hop>, downLive: bool, i: nat)
    requires LineOk(l) && i < |l| && l[i].live
    ensures i > 0 && l[i].buf == [] ==>
              && (forall k: nat :: 1 <= k <= l[i].room && k <= |l[i - 1].pipe| <==> Enabled(l, downLive, Fetch(i, k)))
              && (l[i - 1].pipe == [] && !l[i - 1].live <==> Enabled(l, downLive, End(i)))
    ensures l[i].buf == [] ==> !Enabled(l, downLive, Break(i)) && forall k :: !Enabled(l, downLive, Emit(i, k))
    ensures l[i].buf != [] ==>
              && (forall k: nat ::
                    1 <= k <= |l[i].buf| && |l[i].pipe| + k <= l[i].cap <==> Enabled(l, downLive, Emit(i, k)))
              && (!ReaderLive(l, i, downLive) <==> Enabled(l, downLive, Break(i)))
              && !Enabled(l, downLive, End(i)) && forall k :: !Enabled(l, downLive, Fetch(i, k))
  {
    assert HopOk(l[i]);
  }

  // ------------------------------------------------------------ the line stays well formed

  lemma NextOk(l: seq<Hop>, downLive: bool, a: Action)
    requires LineOk(l) && Enabled(l, downLive, a)
    ensures LineOk(Next(l, downLive, a))
  {
  }

  lemma UpdateOk(l: seq<Hop>, i: nat, h: Hop)
    requires LineOk(l) && i < |l| && HopOk(h) && SameHop(l[i], h)
    ensures LineOk(l[i := h])
  {
  }

  lemma KillOk(l: seq<Hop>, dead: set<nat>)
    requires LineOk(l)
    ensures LineOk(Kill(l, dead))
  {
  }

  /** What one line can become of another: the same hops, with no ended task running again. */
  ghost predicate NoRevival(l: seq<Hop>, m: seq<Hop>) {
    && |m| == |l|
    && forall i :: 0 <= i < |l| ==> SameHop(l[i], m[i]) && (m[i].live ==> l[i].live)
  }

  predicate SameHop(h: Hop, g: Hop) { g.kind == h.kind && g.room == h.room && g.cap == h.cap }

  lemma NextStays(l: seq<Hop>, downLive: bool, a: Action)
    requires Enabled(l, downLive, a)
    ensures NoRevival(l, Next(l, downLive, a))
  {
  }

  lemma KillStays(l: seq<Hop>, dead: set<nat>)
    ensures NoRevival(l, Kill(l, dead))
  {
  }

  /** The two kilobytes of a rats-tls writer side: at most 2048 bytes have been accepted into
      the duplex pipe and not yet been handed to the session. */
  lemma WriterSideBound(l: seq<Hop>, i: nat)
    requires LineOk(l) && 0 < i < |l| && l[i].kind.TlsWriter?
    ensures |l[i - 1].pipe| + |l[i].buf| <= 2048
  {
    assert HopOk(l[i - 1]) && HopOk(l[i]);
  }

  /** All the room there is on the line. */
  function Capacity(l: seq<Hop>): nat {
    if l == [] then 0
    else
      var h := l[|l| - 1];
      Capacity(l[..|l| - 1]) + h.BufferSize() + h.cap
  }

  lemma {:induction false} ReachFits(l: seq<Hop>)
    requires forall i :: 0 <= i < |l| ==> HopOk(l[i])
    ensures |Reach(l)| <= Capacity(l)
  {
    if l != [] {
      ReachFits(l[..|l| - 1]);
      assert HopOk(l[|l| - 1]);
    }
  }

  lemma {:induction false} CapacityStays(l: seq<Hop>, m: seq<Hop>)
    requires NoRevival(l, m)
    ensures Capacity(m) == Capacity(l)
  {
    if l != [] {
      var n := |l| - 1;
      assert SameHop(l[n], m[n]);
      CapacityStays(l[..n], m[..n]);
    }
  }

  /** And that is how much it can be: both kilobytes full. */
  lemma WriterSideCanBeFull() returns (l: seq<Hop>)
    ensures LineOk(l) && |l| == 2 && l[1].kind.TlsWriter?
    ensures |l[0].pipe| == 1024 && |l[1].buf| == 1024
  {
    var full: seq<byte> := seq(1024, _ => 0);
    l := [Hop(Framer, true, 0, [], 1024, full), Hop(TlsWriter, true, 1024, full, 1, [])];
  }

  // ------------------------------------------------------------ work left to do

  function Held(h: Hop): nat { |h.buf| + |h.pipe| }

  function Bytes(l: seq<Hop>): nat {
    if l == [] then 0 else Held(l[0]) + Bytes(l[1..])
  }

  /** Work left, given c bytes waiting before the line: each byte counts once for every place
      it has yet to leave, and each running task counts one. */
  function Work(l: seq<Hop>, c: nat): nat {
    if l == [] then 0
    else
      var h := l[0];
      (if h.live then 1 else 0) + (c + |h.buf|) + (c + Held(h)) + Work(l[1..], c + Held(h))
  }

  lemma {:induction false} WorkMonotone(l: seq<Hop>, c: nat, d: nat)
    requires c <= d
    ensures Work(l, c) <= Work(l, d)
  {
    if l != [] {
      WorkMonotone(l[1..], c + Held(l[0]), d + Held(l[0]));
    }
  }

  /** More bytes in front add twice their number for every hop. */
  lemma {:induction false} WorkOfMore(l: seq<Hop>, c: nat, d: nat)
    ensures Work(l, c + d) == Work(l, c) + 2 * (|l| * d)
  {
    if l != [] {
      WorkOfMore(l[1..], c + Held(l[0]), d);
      assert c + d + Held(l[0]) == c + Held(l[0]) + d;
      assert |l| * d == d + |l[1..]| * d;
    }
  }

  lemma {:induction false} WorkOfFetch(l: seq<Hop>, downLive: bool, i: nat, k: nat, c: nat)
    requires Enabled(l, downLive, Fetch(i, k))
    ensures Work(Next(l, downLive, Fetch(i, k)), c) < Work(l, c)
    ensures Bytes(Next(l, downLive, Fetch(i, k))) == Bytes(l)
    decreases i
  {
    var m := Next(l, downLive, Fetch(i, k));
    if i == 1 {
      assert m[1..][1..] == l[1..][1..];
    } else {
      WorkOfFetch(l[1..], downLive, i - 1, k, c + Held(l[0]));
      assert m[1..] == Next(l[1..], downLive, Fetch(i - 1, k));
    }
  }

  lemma {:induction false} WorkOfEmit(l: seq<Hop>, downLive: bool, i: nat, k: nat, c: nat)
    requires Enabled(l, downLive, Emit(i, k))
    ensures Work(Next(l, downLive, Emit(i, k)), c) < Work(l, c)
    ensures Bytes(Next(l, downLive, Emit(i, k))) == Bytes(l)
    decreases i
  {
    var m := Next(l, downLive, Emit(i, k));
    if i == 0 {
      assert m[1..] == l[1..];
    } else {
      WorkOfEmit(l[1..], downLive, i - 1, k, c + Held(l[0]));
      assert m[1..] == Next(l[1..], downLive, Emit(i - 1, k));
    }
  }

  predicate EndedVersion(h: Hop, g: Hop) { h == g || h == g.Ended() }

  /** Ending tasks never adds work, and takes some away when a running task ends. */
  lemma {:induction false} WorkOfEnding(l: seq<Hop>, m: seq<Hop>, c: nat, d: nat)
    requires |m| == |l| && d <= c
    requires forall i :: 0 <= i < |l| ==> EndedVersion(m[i], l[i])
    ensures Work(m, d) <= Work(l, c) && Bytes(m) <= Bytes(l)
    ensures (exists i :: 0 <= i < |l| && l[i].live && !m[i].live) ==> Work(m, d) < Work(l, c)
  {
    if l != [] {
      assert EndedVersion(m[0], l[0]);
      forall i | 0 <= i < |l| - 1
        ensures EndedVersion(m[1..][i], l[1..][i])
      {
        assert EndedVersion(m[i + 1], l[i + 1]);
      }
      WorkOfEnding(l[1..], m[1..], c + Held(l[0]), d + Held(m[0]));
      if i :| 0 < i < |l| && l[i].live && !m[i].live {
        assert l[1..][i - 1].live && !m[1..][i - 1].live;
      }
    }
  }

  lemma WorkOfKill(l: seq<Hop>, dead: set<nat>, c: nat, d: nat)
    requires d <= c
    ensures Work(Kill(l, dead), d) <= Work(l, c) && Bytes(Kill(l, dead)) <= Bytes(l)
    ensures l != [] && l[0].live && 0 in dead ==> Work(Kill(l, dead), d) < Work(l, c)
  {
    var m := Kill(l, dead);
    forall j | 0 <= j < |l| ensures EndedVersion(m[j], l[j]) {}
    assert l != [] && l[0].live && 0 in dead ==> !m[0].live;
    WorkOfEnding(l, m, c, d);
  }

  /** Every action of a task uses up some of the work left. */
  lemma WorkDecreases(l: seq<Hop>, downLive: bool, a: Action, c: nat)
    requires Enabled(l, downLive, a)
    ensures Work(Next(l, downLive, a), c) < Work(l, c)
    ensures Bytes(Next(l, downLive, a)) <= Bytes(l)
  {
    match a
    case Fetch(i, k) => WorkOfFetch(l, downLive, i, k, c);
    case Emit(i, k) => WorkOfEmit(l, downLive, i, k, c);
    case _ =>
      var m := Next(l, downLive, a);
      assert l[a.i].live && !m[a.i].live;
      WorkOfEnding(l, m, c, c);
  }
}
