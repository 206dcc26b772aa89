/** Safety of one direction: it refines a FIFO that can only be cut at its far end. */
module RelaySafety {
  import opened Framing
  import Line
  import opened Relay

  /** The specification: a bounded queue of packets. Packets enter at the back while it is open,
      leave at the front and are never more than n; a fault may drop a tail of the queue and close
      it, and it never reopens. */
  datatype Fifo = Fifo(open: bool, pulled: seq<Packet>, queue: seq<Packet>, delivered: seq<Packet>)

  ghost function Abs(s: State): Fifo {
    Fifo(Carrying(s), s.pulled, Inflight(s), s.delivered)
  }

  ghost predicate Put(n: nat, f: Fifo, g: Fifo, p: Packet) {
    && g == f.(pulled := f.pulled + [p], queue := if f.open then f.queue + [p] else f.queue)
    && (f.open ==> |f.queue| < n)
  }

  ghost predicate Take(f: Fifo, g: Fifo) {
    f.queue != [] && g == f.(queue := f.queue[1..], delivered := f.delivered + [f.queue[0]])
  }

  ghost predicate Quietly(f: Fifo, g: Fifo) {
    g == f.(open := g.open) && (g.open ==> f.open)
  }

  ghost predicate Cut(f: Fifo, g: Fifo) {
    g == f.(open := g.open, queue := g.queue) && g.queue <= f.queue && (g.open ==> g == f)
  }

  ghost predicate FifoStep(n: nat, l: Label, f: Fifo, g: Fifo) {
    if l.Pull? then Put(n, f, g, l.packet)
    else if l.SnkDeliver? then Take(f, g)
    else if Orderly(l) then Quietly(f, g)
    else Cut(f, g)
  }

  // ------------------------------------------------------------ the framer

  /** Loading a frame into an idle framer appends it to what can arrive, if the line is open. */
  lemma {:induction false} ReachOfLoad(l: seq<Line.Hop>, e: seq<byte>)
    requires l != [] && l[0].buf == []
    ensures Line.Reach(l[0 := l[0].(buf := e)]) == if Line.Open(l) then Line.Reach(l) + e else Line.Reach(l)
  {
    var m := l[0 := l[0].(buf := e)];
    var n := |l| - 1;
    if n == 0 {
      assert l[..0] == m[..0] == [];
      if l[0].live {
        assert Line.Reach(l) == l[0].pipe;
        assert Line.Open(l);
      }
    } else {
      ReachOfLoad(l[..n], e);
      assert m[..n] == l[..n][0 := l[0].(buf := e)];
      OpenSnoc(l);
      Appended(l[n].pipe + l[n].buf, Line.Reach(l[..n]), e);
    }
  }

  lemma OpenSnoc(l: seq<Line.Hop>)
    requires l != []
    ensures Line.Open(l) <==> Line.Open(l[..|l| - 1]) && l[|l| - 1].live
  {
    var n := |l| - 1;
    if Line.Open(l[..n]) && l[n].live {
      forall i | 0 <= i < |l| ensures l[i].live { if i < n { assert l[..n][i].live; } }
    }
  }

  /** An idle framer can end without taking anything away that could still arrive. */
  lemma {:induction false} ReachOfFramerEnd(l: seq<Line.Hop>)
    requires l != [] && l[0].buf == []
    ensures Line.Reach(Line.Kill(l, {0})) == Line.Reach(l)
    ensures !Line.Open(Line.Kill(l, {0}))
  {
    var n := |l| - 1;
    assert !Line.Kill(l, {0})[0].live;
    if n == 0 {
      assert l[..0] == [];
    } else {
      ReachOfFramerEnd(l[..n]);
      assert Line.Kill(l, {0})[..n] == Line.Kill(l[..n], {0});
    }
  }

  /** from_entg taking bytes out of the last pipe leaves its stream as it was. */
  lemma StreamOfFetch(s: State, k: nat)
    requires Enabled(s, DecFetch(k))
    ensures Stream(Next(s, DecFetch(k))) == Stream(s)
  {
    var n := |s.line| - 1;
    var up, h := s.line[..n], s.line[n];
    var g := h.(pipe := h.pipe[k..]);
    assert s.line == up + [h] && s.line[n := g] == up + [g];
    Line.ReachSnoc(up, h);
    Line.ReachSnoc(up, g);
    var c := if h.live then h.buf + Line.Reach(up) else [];
    Associate(s.decBuf, h.pipe, k, c);
  }

  lemma Associate(a: seq<byte>, p: seq<byte>, k: nat, c: seq<byte>)
    requires k <= |p|
    ensures a + p[..k] + (p[k..] + c) == a + (p + c)
  {
  }

  lemma OpenAfterMove(s: State, a: Line.Action)
    requires Enabled(s, Move(a))
    ensures Line.Open(Next(s, Move(a)).line) ==> Line.Open(s.line)
  {
    var m := Next(s, Move(a)).line;
    forall i | 0 <= i < |s.line| && m[i].live ensures s.line[i].live {}
  }

  // ------------------------------------------------------------ one step

  /** Steps never change what the line is made of, and never revive a task. */
  lemma LineStays(s: State, l: Label)
    requires Enabled(s, l)
    ensures var t := Next(s, l);
            && Line.NoRevival(s.line, t.line)
            && (t.srcLive ==> s.srcLive) && (t.decLive ==> s.decLive) && (t.snkLive ==> s.snkLive)
  {
    match l {
      case Move(a) => Line.NextStays(s.line, s.decLive, a);
      case Kill(_, hops, _, _) => Line.KillStays(s.line, hops);
      case EncTooBig => Line.KillStays(s.line, {0});
      case EncEnd => Line.KillStays(s.line, {0});
      case _ =>
    }
  }

  lemma LineKept(s: State, l: Label)
    requires Line.LineOk(s.line) && Enabled(s, l)
    ensures Line.LineOk(Next(s, l).line) && |Next(s, l).line| == |s.line|
  {
    match l {
      case Move(a) => Line.NextOk(s.line, s.decLive, a);
      case Kill(_, hops, _, _) => Line.KillOk(s.line, hops);
      case EncTooBig => Line.KillOk(s.line, {0});
      case EncEnd => Line.KillOk(s.line, {0});
      case EncRecv => Line.UpdateOk(s.line, 0, Next(s, l).line[0]);
      case DecFetch(_) =>
        var n := |s.line| - 1;
        assert Line.HopOk(s.line[n]);
        Line.UpdateOk(s.line, n, Next(s, l).line[n]);
      case _ =>
    }
  }

  lemma LastCapKept(s: State, l: Label)
    requires Enabled(s, l)
    ensures Next(s, l).LastCap() == s.LastCap()
  {
    LineStays(s, l);
    if s.line != [] { assert Line.SameHop(s.line[|s.line| - 1], Next(s, l).line[|s.line| - 1]); }
  }

  lemma ShapeKept(s: State, l: Label)
    requires ShapeOk(s) && Enabled(s, l)
    ensures ShapeOk(Next(s, l))
  {
    LineKept(s, l);
    LastCapKept(s, l);
    if l.DecFetch? { assert Line.HopOk(s.line[|s.line| - 1]); }
  }

  // ------------------------------------------------------------ what a step leaves alone

  datatype Task = FromTun | HopTask(i: nat) | FromEntg | ToTun

  /** Whose step it is. */
  function Actor(l: Label): Task
    requires !l.Kill?
  {
    match l
    case Pull(_) => FromTun
    case SrcEnd => FromTun
    case SrcSend => FromTun
    case SrcBreak => FromTun
    case EncRecv => HopTask(0)
    case EncTooBig => HopTask(0)
    case EncEnd => HopTask(0)
    case Move(a) => HopTask(a.i)
    case SnkRecv => ToTun
    case SnkDeliver => ToTun
    case SnkEnd => ToTun
    case _ => FromEntg
  }

  predicate Chosen(l: Label, k: Task)
    requires l.Kill?
  {
    match k
    case FromTun => l.src
    case HopTask(i) => i in l.hops
    case FromEntg => l.dec
    case ToTun => l.snk
  }

  /** The task runs on, or not, as before, and holds what it held. */
  predicate TaskKept(s: State, t: State, k: Task)
    requires |t.line| == |s.line| && (k.HopTask? ==> k.i < |s.line|)
  {
    match k
    case FromTun => t.srcLive == s.srcLive && t.srcHeld == s.srcHeld
    case HopTask(i) => t.line[i].live == s.line[i].live && t.line[i].buf == s.line[i].buf
    case FromEntg => t.decLive == s.decLive && t.decBuf == s.decBuf && t.decHeld == s.decHeld
    case ToTun => t.snkLive == s.snkLive && t.snkHeld == s.snkHeld
  }

  /** The task has ended and holds nothing. */
  predicate TaskGone(t: State, k: Task)
    requires k.HopTask? ==> k.i < |t.line|
  {
    match k
    case FromTun => !t.srcLive && t.srcHeld == []
    case HopTask(i) => !t.line[i].live && t.line[i].buf == []
    case FromEntg => !t.decLive && t.decBuf == [] && t.decHeld == []
    case ToTun => !t.snkLive && t.snkHeld == []
  }

  /** A step of one task ends no other and takes nothing another one holds. */
  lemma OnlyActorChanges(s: State, l: Label, k: Task)
    requires Enabled(s, l) && !l.Kill? && k != Actor(l) && (k.HopTask? ==> k.i < |s.line|)
    ensures |Next(s, l).line| == |s.line| && TaskKept(s, Next(s, l), k)
  {
    if k.HopTask? { OtherHopsKept(s, l, k.i); }
  }

  lemma OtherHopsKept(s: State, l: Label, i: nat)
    requires Enabled(s, l) && !l.Kill? && HopTask(i) != Actor(l) && i < |s.line|
    ensures |Next(s, l).line| == |s.line| && TaskKept(s, Next(s, l), HopTask(i))
  {
  }

  /** A cancellation or an error ends exactly the chosen tasks, with what they held; channels and
      pipes keep what is in them. */
  lemma KillEndsTheChosen(s: State, l: Label, k: Task)
    requires ShapeOk(s) && l.Kill? && (k.HopTask? ==> k.i < |s.line|)
    ensures var t := Next(s, l);
            && |t.line| == |s.line|
            && (if Chosen(l, k) then TaskGone(t, k) else TaskKept(s, t, k))
            && t.outQ == s.outQ && t.inQ == s.inQ && t.pulled == s.pulled && t.delivered == s.delivered
            && (k.HopTask? ==> t.line[k.i].pipe == s.line[k.i].pipe)
  {
  }

  /** A task that breaks off, or ends, is gone with what it held. */
  lemma EnderIsGone(s: State, l: Label)
    requires ShapeOk(s) && Enabled(s, l)
    requires l.SrcEnd? || l.SrcBreak? || l.EncTooBig? || l.EncEnd? || l.DecBad? || l.DecEnd? || l.DecBreak? || l.SnkEnd?
             || (l.Move? && (l.a.End? || l.a.Break?))
    ensures Actor(l).HopTask? ==> Actor(l).i < |Next(s, l).line|
    ensures TaskGone(Next(s, l), Actor(l))
  {
  }

  /** Channels change at their ends only, by the one packet handed over. */
  lemma ChannelsAtTheirEnds(s: State, l: Label)
    requires ShapeOk(s) && Enabled(s, l)
    ensures var t := Next(s, l);
            && (if l.SrcSend? then t.outQ == s.outQ + [s.srcHeld[0]] && t.srcHeld == []
                else if l.EncRecv? || l.EncTooBig? then s.outQ == [s.outQ[0]] + t.outQ
                else t.outQ == s.outQ)
            && (if l.DecSend? then t.inQ == s.inQ + [s.decHeld[0]] && t.decHeld == []
                else if l.SnkRecv? then s.inQ == t.snkHeld + t.inQ && |t.snkHeld| == 1
                else t.inQ == s.inQ)
  {
  }

  /** Apart from the steps of the line, and from errors and cancellations, which leave pipes alone,
      a pipe changes only when from_entg takes bytes off the front of the last one. */
  lemma LastPipeAtItsFront(s: State, l: Label, i: nat)
    requires Enabled(s, l) && !l.Move? && !l.Kill? && i < |s.line|
    ensures var t := Next(s, l);
            && |t.line| == |s.line|
            && (if l.DecFetch? && i + 1 == |s.line|
                then s.decBuf + s.line[i].pipe == t.decBuf + t.line[i].pipe && |t.decBuf| == |s.decBuf| + l.k
                else t.line[i].pipe == s.line[i].pipe)
  {
    if l.DecFetch? {
      var p := s.line[|s.line| - 1].pipe;
      assert p == p[..l.k] + p[l.k..];
      Appended(s.decBuf, p[..l.k], p[l.k..]);
    }
  }

  /** A step of the byte line that is not a fault changes neither the stream nor the queue. */
  lemma MoveKeepsStream(s: State, a: Line.Action)
    requires Enabled(s, Move(a)) && !a.Break?
    ensures Stream(Next(s, Move(a))) == Stream(s)
    ensures Unframed(Next(s, Move(a))) == Unframed(s)
  {
    match a {
      case Fetch(i, k) => Line.ReachOfFetch(s.line, s.decLive, i, k);
      case Emit(i, k) => Line.ReachOfEmit(s.line, s.decLive, i, k);
      case End(i) => Line.ReachOfEnd(s.line, s.decLive, i);
    }
    var m := Next(s, Move(a)).line;
    if !a.End? {
      forall i | 0 <= i < |s.line| ensures m[i].live == s.line[i].live {}
    } else {
      assert !m[a.i].live && !s.line[a.i - 1].live;
    }
  }

  /** Taking the first frame out of the decoder's buffer takes it off the front of the stream. */
  lemma FrameLeavesStream(s: State)
    requires Enabled(s, DecFrame)
    ensures Frames(Stream(s)) == Next(s, DecFrame).decHeld + Frames(Stream(Next(s, DecFrame)))
    ensures Rest(Stream(s)) == Rest(Stream(Next(s, DecFrame)))
  {
    FrontExtends(s.decBuf, Line.Reach(s.line));
  }

  /** A shorter stream is never poisoned when the longer one is not, and gives a prefix. */
  lemma ShorterStream(b: seq<byte>, c: seq<byte>)
    requires b <= c && !Poisoned(c)
    ensures !Poisoned(b) && Frames(b) <= Frames(c)
  {
    FramesMonotone(b, c);
    if Poisoned(b) { PoisonStays(b, c); }
  }

  lemma KillStream(s: State, hops: set<nat>)
    ensures var m := Line.Kill(s.line, hops);
            && s.decBuf + Line.Reach(m) <= Stream(s)
            && (Line.Open(m) ==> m == s.line)
  {
    var m := Line.Kill(s.line, hops);
    Line.ReachOfKill(s.line, hops);
    assert s.decBuf + Line.Reach(m) == Stream(s)[..|s.decBuf + Line.Reach(m)|];
    if Line.Open(m) {
      forall i | 0 <= i < |m| ensures m[i] == s.line[i] { assert m[i].live; }
    }
  }

  lemma PrefixUnder(a: seq<Packet>, x: seq<Packet>, y: seq<Packet>)
    requires x <= y
    ensures a + x <= a + y
  {
  }

  /** A stream cut short leaves a prefix of the undecoded packets: if the line is no longer
      open nothing behind it counts, and if it still is, it lost nothing. */
  lemma UndecodedCut(s: State, t: State)
    requires t.decLive ==> s.decLive && t.decHeld == s.decHeld && Frames(Stream(t)) <= Frames(Stream(s))
    requires t.decLive && Line.Open(t.line)
             ==> Line.Open(s.line) && Stream(t) == Stream(s) && Unframed(t) <= Unframed(s)
    ensures Undecoded(t) <= Undecoded(s)
  {
    if t.decLive {
      if Line.Open(t.line) {
        PrefixUnder(s.decHeld + Frames(Stream(s)), Unframed(t), Unframed(s));
      } else {
        PrefixUnder(s.decHeld, Frames(Stream(t)), Frames(Stream(s)));
        assert Undecoded(t) == s.decHeld + Frames(Stream(t));
        assert s.decHeld + Frames(Stream(s)) <= Undecoded(s);
      }
    }
  }

  lemma InflightCut(s: State, t: State)
    requires t.snkLive ==> s.snkLive && t.snkHeld == s.snkHeld && t.inQ == s.inQ
    requires Undecoded(t) <= Undecoded(s)
    ensures Inflight(t) <= Inflight(s)
  {
    if t.snkLive { PrefixUnder(s.snkHeld + s.inQ, Undecoded(t), Undecoded(s)); }
  }

  /** A direction that still carries on after a cancellation was not touched by it. */
  lemma KillNobody(s: State, l: Label)
    requires l.Kill?
    ensures Carrying(Next(s, l)) ==> Next(s, l) == s
  {
    KillStream(s, l.hops);
  }

  lemma KillShortensStream(s: State, l: Label)
    requires StreamOk(s) && l.Kill?
    ensures var t := Next(s, l);
            && StreamOk(t)
            && (t.decLive ==> Frames(Stream(t)) <= Frames(Stream(s)))
            && (t.decLive && Line.Open(t.line) ==> t.line == s.line && t.decBuf == s.decBuf)
  {
    var t := Next(s, l);
    KillStream(s, l.hops);
    if t.decLive { ShorterStream(Stream(t), Stream(s)); }
  }

  lemma KillUndecoded(s: State, l: Label)
    requires ShapeOk(s) && StreamOk(s) && l.Kill?
    ensures Undecoded(Next(s, l)) <= Undecoded(s)
  {
    KillShortensStream(s, l);
    UndecodedCut(s, Next(s, l));
  }

  lemma KillCuts(s: State, l: Label)
    requires ShapeOk(s) && StreamOk(s) && l.Kill?
    ensures StreamOk(Next(s, l)) && Cut(Abs(s), Abs(Next(s, l)))
  {
    KillShortensStream(s, l);
    KillUndecoded(s, l);
    InflightCut(s, Next(s, l));
    KillNobody(s, l);
  }

  lemma BreakCuts(s: State, a: Line.Action)
    requires ShapeOk(s) && StreamOk(s) && Enabled(s, Move(a)) && a.Break?
    ensures StreamOk(Next(s, Move(a))) && Cut(Abs(s), Abs(Next(s, Move(a))))
  {
    Line.BreakIsKill(s.line, s.decLive, a.i);
    var k := Kill(false, {a.i}, false, false);
    assert Next(s, Move(a)) == Next(s, k);
    KillCuts(s, k);
  }

  lemma RecvQuietly(s: State)
    requires ShapeOk(s) && StreamOk(s) && Enabled(s, EncRecv)
    ensures StreamOk(Next(s, EncRecv)) && Quietly(Abs(s), Abs(Next(s, EncRecv)))
  {
    RecvStream(s);
    var t, p := Next(s, EncRecv), s.outQ[0];
    if s.decLive && Line.Open(s.line) {
      FramesAppend(Stream(s), p);
      NoFrames();
      Regroup(s.decHeld, Frames(Stream(s)), p, s.outQ, s.srcHeld);
    }
  }

  lemma LoadKeepsOpen(l: seq<Line.Hop>, e: seq<byte>)
    requires l != []
    ensures Line.Open(l[0 := l[0].(buf := e)]) <==> Line.Open(l)
  {
    var m := l[0 := l[0].(buf := e)];
    forall i | 0 <= i < |l| ensures m[i].live == l[i].live {}
  }

  lemma RecvStream(s: State)
    requires s.line != [] && Enabled(s, EncRecv)
    ensures var t := Next(s, EncRecv);
            && (Line.Open(t.line) <==> Line.Open(s.line))
            && Stream(t) == if Line.Open(s.line) then Stream(s) + Encode(s.outQ[0]) else Stream(s)
  {
    LoadKeepsOpen(s.line, Encode(s.outQ[0]));
    ReachOfLoad(s.line, Encode(s.outQ[0]));
    Appended(s.decBuf, Line.Reach(s.line), Encode(s.outQ[0]));
  }

  lemma Regroup(a: seq<Packet>, f: seq<Packet>, p: Packet, q: seq<Packet>, r: seq<Packet>)
    requires q != [] && q[0] == p
    ensures a + (f + [p]) + (q[1..] + r) == a + f + (q + r)
  {
  }

  lemma MoveRefines(n: nat, s: State, a: Line.Action)
    requires ShapeOk(s) && StreamOk(s) && Enabled(s, Move(a))
    ensures StreamOk(Next(s, Move(a))) && FifoStep(n, Move(a), Abs(s), Abs(Next(s, Move(a))))
  {
    if a.Break? {
      BreakCuts(s, a);
    } else {
      MoveKeepsStream(s, a);
      OpenAfterMove(s, a);
    }
  }

  lemma FramerEndStream(s: State, l: Label)
    requires ShapeOk(s) && Enabled(s, l) && (l.EncTooBig? || l.EncEnd?)
    ensures var t := Next(s, l); Stream(t) == Stream(s) && !Line.Open(t.line) && Unframed(t) == []
  {
    ReachOfFramerEnd(s.line);
  }

  lemma FramerEndRefines(n: nat, s: State, l: Label)
    requires ShapeOk(s) && StreamOk(s) && Enabled(s, l) && (l.EncTooBig? || l.EncEnd?)
    ensures StreamOk(Next(s, l)) && FifoStep(n, l, Abs(s), Abs(Next(s, l)))
  {
    var t := Next(s, l);
    FramerEndStream(s, l);
    if l.EncTooBig? {
      UndecodedCut(s, t);
      InflightCut(s, t);
    } else {
      assert Unframed(s) == [];
      assert Undecoded(t) == Undecoded(s);
    }
  }

  lemma DecFetchRefines(s: State, k: nat)
    requires ShapeOk(s) && StreamOk(s) && Enabled(s, DecFetch(k))
    ensures StreamOk(Next(s, DecFetch(k))) && Quietly(Abs(s), Abs(Next(s, DecFetch(k))))
  {
    StreamOfFetch(s, k);
    FetchKeepsOpen(s, k);
  }

  lemma DecFrameRefines(s: State)
    requires ShapeOk(s) && StreamOk(s) && Enabled(s, DecFrame)
    ensures StreamOk(Next(s, DecFrame)) && Quietly(Abs(s), Abs(Next(s, DecFrame)))
  {
    FrameLeavesStream(s);
    var t := Next(s, DecFrame);
    TakeFront(t.decHeld, Frames(Stream(t)), Unframed(s));
    assert Unframed(t) == Unframed(s);
  }

  lemma TakeFront(p: seq<Packet>, f: seq<Packet>, u: seq<Packet>)
    ensures [] + (p + f) + u == p + f + u
  {
  }

  lemma DecOutRefines(n: nat, s: State, l: Label)
    requires ShapeOk(s) && StreamOk(s) && Enabled(s, l)
    requires l.DecBad? || l.DecEnd? || l.DecSend? || l.DecBreak?
    ensures StreamOk(Next(s, l)) && FifoStep(n, l, Abs(s), Abs(Next(s, l)))
  {
    var t := Next(s, l);
    match l
    case DecEnd => DecEndQuietly(s);
    case DecSend =>
      assert Stream(t) == Stream(s);
      HandOver(s.snkHeld, s.inQ, s.decHeld, Frames(Stream(s)), Unframed(s));
    case _ =>
  }

  lemma HandOver(a: seq<Packet>, q: seq<Packet>, h: seq<Packet>, f: seq<Packet>, u: seq<Packet>)
    ensures a + q + (h + f + u) == a + (q + h) + ([] + f + u)
  {
  }

  /** from_tun and to_tun: packets change hands at the two ends. */
  lemma SrcRefines(n: nat, s: State, l: Label)
    requires ShapeOk(s) && StreamOk(s) && Enabled(s, l)
    requires l.Pull? || l.SrcEnd? || l.SrcSend? || l.SrcBreak?
    requires l.Pull? ==> |Inflight(s)| < n
    ensures StreamOk(Next(s, l)) && FifoStep(n, l, Abs(s), Abs(Next(s, l)))
  {
    if l.Pull? { PullUndecoded(s, l.packet); } else { SrcUndecoded(s, l); }
  }

  lemma SrcUndecoded(s: State, l: Label)
    requires ShapeOk(s) && Enabled(s, l) && (l.SrcEnd? || l.SrcSend? || l.SrcBreak?)
    ensures Stream(Next(s, l)) == Stream(s) && Undecoded(Next(s, l)) == Undecoded(s)
  {
    var t := Next(s, l);
    assert Stream(t) == Stream(s);
    assert Unframed(t) == Unframed(s);
  }

  lemma PullUndecoded(s: State, p: Packet)
    requires Enabled(s, Pull(p))
    ensures var t := Next(s, Pull(p));
            && Stream(t) == Stream(s)
            && Undecoded(t) == if s.decLive && Line.Open(s.line) then Undecoded(s) + [p] else Undecoded(s)
  {
    assert Stream(Next(s, Pull(p))) == Stream(s);
    AddLast(s.decHeld, Frames(Stream(s)), s.outQ, p);
  }

  lemma AddLast(a: seq<Packet>, f: seq<Packet>, q: seq<Packet>, p: Packet)
    ensures a + f + (q + [p]) == a + f + (q + []) + [p]
  {
  }

  lemma SnkRefines(n: nat, s: State, l: Label)
    requires ShapeOk(s) && StreamOk(s) && Enabled(s, l)
    requires l.SnkRecv? || l.SnkDeliver? || l.SnkEnd?
    ensures StreamOk(Next(s, l)) && FifoStep(n, l, Abs(s), Abs(Next(s, l)))
  {
    var u := Undecoded(s);
    assert Undecoded(Next(s, l)) == u;
    if s.inQ != [] { TakeNext(s.inQ, u); }
    if s.snkHeld != [] { DropFirst(s.snkHeld, s.inQ, u); }
  }

  lemma TakeNext(q: seq<Packet>, u: seq<Packet>)
    requires q != []
    ensures [] + q + u == [q[0]] + q[1..] + u
  {
  }

  lemma DropFirst(h: seq<Packet>, q: seq<Packet>, u: seq<Packet>)
    requires |h| == 1
    ensures (h + q + u)[1..] == [] + q + u && (h + q + u)[0] == h[0] && [h[0]] == h
  {
  }

  // ------------------------------------------------------------ how much is under way

  lemma {:induction false} FramesTakeRoom(b: seq<byte>)
    ensures HEADER_LEN * |Frames(b)| <= |b|
    decreases |b|
  {
    if Front(b).Frame? { FramesTakeRoom(b[Front(b).size..]); }
  }

  /** Packets in slots of their own: one with each of from_tun, from_entg and to_tun, and two
      channels full. */
  const PACKET_SLOTS: nat := 2 * CHANNEL_CAP + 3

  /** The most packets a direction over this line can hold: its packet slots and one more for
      every header that fits into the bytes under way. */
  function FifoCapacity(line: seq<Line.Hop>): nat { PACKET_SLOTS + ByteRoom(line) / HEADER_LEN }

  /** Room for bytes: the line's, and what from_entg may have taken out of the last pipe. */
  function ByteRoom(line: seq<Line.Hop>): nat {
    FRAME_CAP + (if line == [] then 0 else line[|line| - 1].cap) + Line.Capacity(line)
  }

  lemma CapacityKept(s: State, l: Label)
    requires Enabled(s, l)
    ensures FifoCapacity(Next(s, l).line) == FifoCapacity(s.line)
  {
    LineStays(s, l);
    LastCapKept(s, l);
    Line.CapacityStays(s.line, Next(s, l).line);
  }

  lemma StreamFits(s: State)
    requires ShapeOk(s)
    ensures |Stream(s)| < ByteRoom(s.line)
  {
    Line.ReachFits(s.line);
  }

  lemma FramesFit(b: seq<byte>, n: nat)
    requires |b| <= n
    ensures |Frames(b)| <= n / HEADER_LEN
  {
    FramesTakeRoom(b);
  }

  lemma SlotsFit(s: State)
    requires ShapeOk(s)
    ensures |Inflight(s)| <= PACKET_SLOTS - 1 + |s.srcHeld| + |Frames(Stream(s))|
  {
    assert |Undecoded(s)| <= 1 + |Frames(Stream(s))| + CHANNEL_CAP + |s.srcHeld|;
  }

  /** The FIFO a direction refines is bounded by a number that depends on its line alone; and
      there is room for one more whenever from_tun takes the next packet. */
  lemma FifoIsBounded(s: State)
    requires ShapeOk(s)
    ensures |Inflight(s)| <= FifoCapacity(s.line)
    ensures s.srcHeld == [] ==> |Inflight(s)| < FifoCapacity(s.line)
  {
    StreamFits(s);
    FramesFit(Stream(s), ByteRoom(s.line));
    SlotsFit(s);
  }

  /** Every step of the relay is a step of the FIFO, with the capacity its line gives it, and the
      stream stays readable. */
  lemma StepRefines(s: State, l: Label)
    requires ShapeOk(s) && StreamOk(s) && Enabled(s, l)
    ensures ShapeOk(Next(s, l)) && StreamOk(Next(s, l))
    ensures FifoStep(FifoCapacity(s.line), l, Abs(s), Abs(Next(s, l)))
    ensures FifoCapacity(Next(s, l).line) == FifoCapacity(s.line)
  {
    ShapeKept(s, l);
    CapacityKept(s, l);
    var n := FifoCapacity(s.line);
    match l {
      case Kill(_, _, _, _) => KillCuts(s, l);
      case Move(a) => MoveRefines(n, s, a);
      case EncRecv => RecvQuietly(s);
      case EncTooBig => FramerEndRefines(n, s, l);
      case EncEnd => FramerEndRefines(n, s, l);
      case Pull(_) => FifoIsBounded(s); SrcRefines(n, s, l);
      case SrcEnd => SrcRefines(n, s, l);
      case SrcSend => SrcRefines(n, s, l);
      case SrcBreak => SrcRefines(n, s, l);
      case SnkRecv => SnkRefines(n, s, l);
      case SnkDeliver => SnkRefines(n, s, l);
      case SnkEnd => SnkRefines(n, s, l);
      case DecFetch(k) => DecFetchRefines(s, k);
      case DecFrame => DecFrameRefines(s);
      case _ => DecOutRefines(n, s, l);
    }
  }

  lemma FetchKeepsOpen(s: State, k: nat)
    requires Enabled(s, DecFetch(k))
    ensures Line.Open(Next(s, DecFetch(k)).line) <==> Line.Open(s.line)
  {
    var m := Next(s, DecFetch(k)).line;
    forall i | 0 <= i < |m| ensures m[i].live == s.line[i].live {}
  }

  /** When from_entg sees the end of the line there is nothing left that could be delivered. */
  lemma DecEndQuietly(s: State)
    requires ShapeOk(s) && Enabled(s, DecEnd)
    ensures Undecoded(s) == []
  {
    assert !s.line[|s.line| - 1].live;
    assert Stream(s) == s.decBuf;
  }

  // ------------------------------------------------------------ whole runs

  /** What the FIFO keeps: delivered and queued packets are a prefix of the pulled ones. */
  lemma FifoKeepsPrefix(n: nat, l: Label, f: Fifo, g: Fifo)
    requires FifoStep(n, l, f, g) && f.delivered + f.queue <= f.pulled
    requires f.open ==> f.delivered + f.queue == f.pulled
    ensures g.delivered + g.queue <= g.pulled
    ensures g.open ==> g.delivered + g.queue == g.pulled
    ensures f.pulled <= g.pulled && f.delivered <= g.delivered
  {
    if l.SnkDeliver? {
      assert g.delivered + g.queue == f.delivered + f.queue;
    } else if l.Pull? {
      assert f.delivered + (f.queue + [l.packet]) == (f.delivered + f.queue) + [l.packet];
    }
  }

  /** While a direction is open everything pulled is delivered or in flight. */
  ghost predicate Conserved(s: State) {
    Carrying(s) ==> s.delivered + Inflight(s) == s.pulled
  }

  ghost predicate Good(s: State) { Inv(s) && Conserved(s) }

  lemma InitialGood(s: State)
    requires Initial(s)
    ensures Good(s)
  {
    InitialHoldsNothing(s);
    NoFrames();
  }

  lemma InitialHoldsNothing(s: State)
    requires Initial(s)
    ensures Stream(s) == [] && Inflight(s) == []
  {
    EmptyLine(s.line);
    NoFrames();
    assert Frames(Stream(s)) == [] by { assert Stream(s) == []; }
    assert Unframed(s) == [];
  }

  lemma {:induction false} EmptyLine(l: seq<Line.Hop>)
    requires forall i :: 0 <= i < |l| ==> l[i].buf == [] && l[i].pipe == []
    ensures Line.Reach(l) == []
  {
    if l != [] { EmptyLine(l[..|l| - 1]); }
  }

  lemma StepGood(s: State, l: Label)
    requires Good(s) && Enabled(s, l)
    ensures Good(Next(s, l))
    ensures s.delivered <= Next(s, l).delivered
    ensures FifoCapacity(Next(s, l).line) == FifoCapacity(s.line)
  {
    StepRefines(s, l);
    FifoKeepsPrefix(FifoCapacity(s.line), l, Abs(s), Abs(Next(s, l)));
  }

  /** Safety over whole runs: for a line of any length, whatever the tasks and the outside do
      and whenever, what has been delivered and what can still be delivered is a prefix of
      what was pulled: no packet is altered, duplicated, reordered or merged. While every task
      runs, nothing is missing either. Delivered packets are never taken back, and never more
      are in flight than the line has room for. */
  lemma {:induction false} RunIsSafe(s: State, run: seq<Label>)
    requires Good(s) && Can(s, run)
    ensures var t := After(s, run);
            && Good(t)
            && t.delivered + Inflight(t) <= t.pulled
            && (Carrying(t) ==> t.delivered + Inflight(t) == t.pulled)
            && s.delivered <= t.delivered <= t.pulled
            && |Inflight(t)| <= FifoCapacity(s.line)
    decreases |run|
  {
    if run == [] {
      FifoIsBounded(s);
    } else {
      StepGood(s, run[0]);
      RunIsSafe(Next(s, run[0]), run[1..]);
    }
  }

  /** The reader of the stream never meets a refused header: what it gets is a cut of what the
      far framer wrote. */
  lemma NeverBadHeader(s: State)
    requires StreamOk(s)
    ensures !Enabled(s, DecBad)
  {
    if Enabled(s, DecBad) {
      FrontExtends(s.decBuf, Line.Reach(s.line));
    }
  }

  // ------------------------------------------------------------ bounds

  ghost predicate Busy(h: Line.Hop) { h.buf != [] }

  /** Between its source and its sink an ENTA direction holds at most 130 packets: one waiting
      to be queued, 128 queued, one being written. The same bound holds on the inbound side. */
  lemma Occupancy(s: State)
    requires ShapeOk(s)
    ensures |s.srcHeld| + |s.outQ| + (if Busy(s.line[0]) then 1 else 0) <= 130
    ensures |s.decHeld| + |s.inQ| + |s.snkHeld| <= 130
  {
  }
}
