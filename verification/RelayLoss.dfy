/** What one direction can lose, exactly: for every step and for every run, when everything pulled
    is still delivered or in flight. */
module RelayLoss {
  import opened Framing
  import Line
  import opened Relay
  import opened RelaySafety
  import RelayClose

  // ------------------------------------------------------------ ending tasks of the line

  /** Hop i and everything behind it run, so that what it holds can still arrive. */
  ghost predicate Joined(l: seq<Line.Hop>, i: nat) { forall j :: i <= j < |l| ==> l[j].live }

  /** Hop i holds nothing, and neither does the line before it. */
  ghost predicate NothingUpTo(l: seq<Line.Hop>, i: nat)
    requires i < |l|
  {
    l[i].buf == [] && Line.Reach(l[..i]) == []
  }

  ghost predicate HopsLoseNothing(l: seq<Line.Hop>, dead: set<nat>) {
    forall i: nat :: i < |l| && i in dead && Joined(l, i) ==> NothingUpTo(l, i)
  }

  lemma JoinedSnoc(l: seq<Line.Hop>, i: nat)
    requires i < |l|
    ensures Joined(l, i) <==> Joined(l[..|l| - 1], i) && l[|l| - 1].live
  {
    var l0 := l[..|l| - 1];
    if Joined(l0, i) && l[|l| - 1].live {
      forall j | i <= j < |l| ensures l[j].live { if j < |l0| { assert l0[j].live; } }
    }
  }

  /** An empty line holds nothing up to any joined hop. */
  lemma {:induction false} EmptyUpTo(l: seq<Line.Hop>, i: nat)
    requires i < |l| && Joined(l, i) && Line.Reach(l) == []
    ensures NothingUpTo(l, i)
  {
    var n := |l| - 1;
    JoinedSnoc(l, i);
    if i < n {
      EmptyUpTo(l[..n], i);
      assert l[..n][..i] == l[..i];
    }
  }

  lemma HopsLoseNothingSnoc(l: seq<Line.Hop>, dead: set<nat>)
    requires l != [] && l[|l| - 1].live && |l| - 1 !in dead
    ensures HopsLoseNothing(l, dead) <==> HopsLoseNothing(l[..|l| - 1], dead)
  {
    var n := |l| - 1;
    var l0 := l[..n];
    forall i: nat | i < n
      ensures Joined(l, i) <==> Joined(l0, i)
      ensures NothingUpTo(l, i) <==> NothingUpTo(l0, i)
    {
      JoinedSnoc(l, i);
      assert l0[..i] == l[..i];
    }
    if HopsLoseNothing(l, dead) {
      forall i: nat | i < n && i in dead && Joined(l0, i) ensures NothingUpTo(l0, i) {
        assert Joined(l, i) && NothingUpTo(l, i);
      }
    }
  }

  /** Ending tasks takes nothing away that could still arrive if and only if each of them that is
      joined to the end of the line holds nothing and has nothing before it. */
  lemma {:induction false} ReachOfKillIff(l: seq<Line.Hop>, dead: set<nat>)
    ensures Line.Reach(Line.Kill(l, dead)) == Line.Reach(l) <==> HopsLoseNothing(l, dead)
  {
    if l != [] {
      var n := |l| - 1;
      var l0, h := l[..n], l[n];
      assert Line.Kill(l, dead)[..n] == Line.Kill(l0, dead);
      if !h.live {
        forall i: nat | i < |l| ensures !Joined(l, i) {}
      } else if n in dead {
        LastDies(l, dead);
      } else {
        ReachOfKillIff(l0, dead);
        HopsLoseNothingSnoc(l, dead);
        SamePrefix(h.pipe + h.buf, Line.Reach(Line.Kill(l0, dead)), Line.Reach(l0));
      }
    }
  }

  lemma SamePrefix<T>(a: seq<T>, x: seq<T>, y: seq<T>)
    ensures a + x == a + y <==> x == y
  {
    assert (a + x)[|a|..] == x && (a + y)[|a|..] == y;
  }

  lemma LastDies(l: seq<Line.Hop>, dead: set<nat>)
    requires l != [] && l[|l| - 1].live && |l| - 1 in dead
    ensures Line.Reach(Line.Kill(l, dead)) == Line.Reach(l) <==> HopsLoseNothing(l, dead)
  {
    var n := |l| - 1;
    var l0, h := l[..n], l[n];
    assert Joined(l, n);
    assert Line.Reach(Line.Kill(l, dead)) == h.pipe;
    assert Line.Reach(l) == h.pipe + h.buf + Line.Reach(l0);
    if Line.Reach(l) == h.pipe {
      assert |h.buf| + |Line.Reach(l0)| == 0;
      forall i: nat | i < |l| && i in dead && Joined(l, i) ensures NothingUpTo(l, i) {
        if i < n {
          JoinedSnoc(l, i);
          EmptyUpTo(l0, i);
          assert l0[..i] == l[..i];
        }
      }
    }
  }

  // ------------------------------------------------------------ ending tasks of a direction

  /** to_tun is gone, or nothing at all is under way. */
  ghost predicate SnkMayEnd(s: State) { s.snkLive ==> Inflight(s) == [] }

  ghost predicate DecMayEnd(s: State) { s.snkLive && s.decLive ==> Undecoded(s) == [] }

  ghost predicate HopMayEnd(s: State, i: nat)
    requires i < |s.line|
  {
    s.snkLive && s.decLive && Joined(s.line, i) ==> NothingUpTo(s.line, i) && Unframed(s) == []
  }

  ghost predicate SrcMayEnd(s: State) { s.snkLive && s.decLive && Line.Open(s.line) ==> s.srcHeld == [] }

  /** Each task about to be ended holds nothing, and nothing waits before it, that could still be
      delivered. */
  ghost predicate KillFree(s: State, l: Label)
    requires l.Kill?
  {
    && (l.snk ==> SnkMayEnd(s))
    && (l.dec ==> DecMayEnd(s))
    && (forall i: nat :: i < |s.line| && i in l.hops ==> HopMayEnd(s, i))
    && (l.src ==> SrcMayEnd(s))
  }

  /** Nothing has been lost so far; the stream ends with a whole frame. */
  ghost predicate Snug(s: State) {
    && ShapeOk(s) && StreamOk(s)
    && (s.decLive && s.snkLive ==> Whole(Stream(s)))
    && s.delivered + Inflight(s) == s.pulled
  }

  /** A whole stream cut short gives fewer packets. */
  lemma WholeCut(b: seq<byte>, c: seq<byte>)
    requires b <= c && Whole(c) && |Frames(b)| == |Frames(c)|
    ensures b == c
  {
    FramesMonotone(b, c);
    SameLength(Frames(b), Frames(c));
    EncodedFits(b);
    WholeIsEncoded(c);
    SameLength(b, c);
  }

  lemma SameLength<T>(a: seq<T>, b: seq<T>)
    requires a <= b && |b| <= |a|
    ensures a == b
  {
  }

  lemma EncodedFits(b: seq<byte>)
    ensures AllFit(Frames(b)) && |EncodeAll(Frames(b))| <= |b|
  {
    FramesRebuild(b);
    assert |EncodeAll(Frames(b)) + Rest(b)| == |EncodeAll(Frames(b))| + |Rest(b)|;
  }

  lemma WholeIsEncoded(c: seq<byte>)
    requires Whole(c)
    ensures AllFit(Frames(c)) && EncodeAll(Frames(c)) == c
  {
    FramesRebuild(c);
  }

  lemma StreamOfKillIff(s: State, l: Label)
    requires l.Kill? && !l.dec
    ensures Stream(Next(s, l)) == Stream(s) <==> HopsLoseNothing(s.line, l.hops)
  {
    ReachOfKillIff(s.line, l.hops);
    SamePrefix(s.decBuf, Line.Reach(Next(s, l).line), Line.Reach(s.line));
  }

  /** What waits before the line stays if no task of an open line ends, or nothing waits. */
  ghost predicate WaitingStays(s: State, l: Label)
    requires l.Kill?
  {
    && (forall i: nat :: i < |s.line| && i in l.hops ==> Unframed(s) == [])
    && (l.src && Line.Open(s.line) ==> s.srcHeld == [])
  }

  lemma UnframedOfKill(s: State, l: Label)
    requires l.Kill?
    ensures |Unframed(Next(s, l))| <= |Unframed(s)|
    ensures Unframed(Next(s, l)) == Unframed(s) <==> WaitingStays(s, l)
  {
    var t := Next(s, l);
    if Line.Open(t.line) {
      KillStream(s, l.hops);
      forall i: nat | i < |s.line| && i in l.hops ensures false {}
    } else if Line.Open(s.line) {
      var i :| 0 <= i < |t.line| && !t.line[i].live;
      assert i in l.hops;
    }
  }

  lemma HopsMayEndIff(s: State, l: Label)
    requires l.Kill? && s.snkLive && s.decLive
    ensures (forall i: nat :: i < |s.line| && i in l.hops ==> HopMayEnd(s, i)) && (l.src ==> SrcMayEnd(s))
            <==> HopsLoseNothing(s.line, l.hops) && WaitingStays(s, l)
  {
    if Line.Open(s.line) {
      forall i: nat | i < |s.line| ensures Joined(s.line, i) {}
    } else {
      assert Unframed(s) == [];
    }
    if forall i: nat :: i < |s.line| && i in l.hops ==> HopMayEnd(s, i) {
      forall i: nat | i < |s.line| && i in l.hops && Joined(s.line, i) ensures NothingUpTo(s.line, i) {
        assert HopMayEnd(s, i);
      }
      forall i: nat | i < |s.line| && i in l.hops ensures Unframed(s) == [] { assert HopMayEnd(s, i); }
    }
  }

  lemma UndecodedOfKillIff(s: State, l: Label)
    requires StreamOk(s) && l.Kill? && !l.dec && s.decLive && Whole(Stream(s))
    ensures Undecoded(Next(s, l)) == Undecoded(s)
            <==> HopsLoseNothing(s.line, l.hops) && WaitingStays(s, l)
  {
    var t := Next(s, l);
    StreamOfKillIff(s, l);
    UnframedOfKill(s, l);
    KillStream(s, l.hops);
    FramesMonotone(Stream(t), Stream(s));
    BothParts(s.decHeld, Frames(Stream(t)), Unframed(t), Frames(Stream(s)), Unframed(s));
    if |Frames(Stream(t))| == |Frames(Stream(s))| { WholeCut(Stream(t), Stream(s)); }
  }

  lemma BothParts<T>(a: seq<T>, x: seq<T>, y: seq<T>, x': seq<T>, y': seq<T>)
    requires x <= x' && |y| <= |y'|
    ensures a + x + y == a + x' + y' <==> |x| == |x'| && y == y'
  {
    if a + x + y == a + x' + y' {
      assert |a + x + y| == |a| + |x| + |y| && |a + x' + y'| == |a| + |x'| + |y'|;
      assert x == x';
      SamePrefix(a + x, y, y');
    }
  }

  lemma LiveKillIff(s: State, l: Label)
    requires Snug(s) && l.Kill? && s.snkLive && s.decLive && !l.snk && !l.dec
    ensures Inflight(Next(s, l)) == Inflight(s) <==> KillFree(s, l)
  {
    UndecodedOfKillIff(s, l);
    HopsMayEndIff(s, l);
    SamePrefix(s.snkHeld + s.inQ, Undecoded(Next(s, l)), Undecoded(s));
  }

  lemma UndecodedEmpty(s: State)
    requires Snug(s) && s.snkLive && s.decLive && Undecoded(s) == []
    ensures (forall i: nat :: i < |s.line| ==> HopMayEnd(s, i)) && SrcMayEnd(s)
  {
    assert Stream(s) == [] by { FramesRebuild(Stream(s)); }
    forall i: nat | i < |s.line| ensures HopMayEnd(s, i) {
      if Joined(s.line, i) { EmptyUpTo(s.line, i); }
    }
  }

  /** A cancellation or an error anywhere, of any set of tasks, loses nothing if and only if each
      of them that still matters holds nothing and has nothing waiting before it. */
  lemma KillLosesNothingIff(s: State, l: Label)
    requires Snug(s) && l.Kill?
    ensures Inflight(Next(s, l)) == Inflight(s) <==> KillFree(s, l)
  {
    var t := Next(s, l);
    if s.snkLive && s.decLive {
      if !l.snk && !l.dec {
        LiveKillIff(s, l);
      } else if Undecoded(s) == [] {
        UndecodedEmpty(s);
        if !l.snk { assert Undecoded(t) == []; }
      }
    }
  }

  // ------------------------------------------------------------ the same, field by field

  ghost predicate HopsClear(l: seq<Line.Hop>, i: nat)
    requires i <= |l|
  {
    forall j :: 0 <= j < i ==> l[j].buf == [] && l[j].pipe == []
  }

  predicate SrcClear(s: State) { s.srcHeld == [] }

  ghost predicate HopClear(s: State, i: nat)
    requires i < |s.line|
  {
    s.srcHeld == [] && s.outQ == [] && HopsClear(s.line, i) && s.line[i].buf == []
  }

  ghost predicate DecClear(s: State) {
    s.srcHeld == [] && s.outQ == [] && HopsClear(s.line, |s.line|) && s.decBuf == [] && s.decHeld == []
  }

  ghost predicate SnkClear(s: State) { DecClear(s) && s.inQ == [] && s.snkHeld == [] }

  lemma {:induction false} OpenReachEmptyIff(l: seq<Line.Hop>)
    requires Line.Open(l)
    ensures Line.Reach(l) == [] <==> HopsClear(l, |l|)
  {
    if l != [] {
      var n := |l| - 1;
      forall j | 0 <= j < n ensures l[..n][j].live {}
      OpenReachEmptyIff(l[..n]);
      assert |Line.Reach(l)| == |l[n].pipe| + |l[n].buf| + |Line.Reach(l[..n])|;
      if Line.Reach(l) == [] {
        forall j | 0 <= j < |l| ensures l[j].buf == [] && l[j].pipe == [] {
          if j < n { assert l[..n][j].buf == [] && l[..n][j].pipe == []; }
        }
      }
    }
  }

  lemma OpenHopMayEndIff(s: State, i: nat)
    requires Line.Open(s.line) && s.decLive && s.snkLive && i < |s.line|
    ensures HopMayEnd(s, i) <==> HopClear(s, i)
  {
    var up := s.line[..i];
    forall j | 0 <= j < i ensures up[j].live {}
    OpenReachEmptyIff(up);
    assert HopsClear(up, i) <==> HopsClear(s.line, i) by {
      if HopsClear(up, i) { forall j | 0 <= j < i ensures s.line[j] == up[j] {} }
    }
  }

  lemma OpenDecMayEndIff(s: State)
    requires Snug(s) && Line.Open(s.line) && s.decLive && s.snkLive
    ensures Undecoded(s) == [] <==> DecClear(s)
  {
    OpenReachEmptyIff(s.line);
    FramesRebuild(Stream(s));
    NoFrames();
    assert Frames(Stream(s)) == [] <==> Stream(s) == [];
    assert |Undecoded(s)| == |s.decHeld| + |Frames(Stream(s))| + |s.outQ| + |s.srcHeld|;
  }

  /** In a direction whose line, decoder and sink all run: cancelling from_tun loses nothing iff it
      holds no packet; to_entg iff nothing waits before it either and its frame is all written; a
      copy or pump iff all before it is empty as well; from_entg iff everything up to it is; and
      to_tun iff the whole direction is. */
  lemma OpenKillIff(s: State, l: Label)
    requires Snug(s) && Line.Open(s.line) && s.decLive && s.snkLive && l.Kill?
    ensures Inflight(Next(s, l)) == Inflight(s)
            <==> (l.src ==> SrcClear(s)) && (forall i: nat :: i < |s.line| && i in l.hops ==> HopClear(s, i))
                 && (l.dec ==> DecClear(s)) && (l.snk ==> SnkClear(s))
  {
    KillLosesNothingIff(s, l);
    forall i: nat | i < |s.line| ensures HopMayEnd(s, i) <==> HopClear(s, i) { OpenHopMayEndIff(s, i); }
    OpenDecMayEndIff(s);
    assert |Inflight(s)| == |s.snkHeld| + |s.inQ| + |Undecoded(s)|;
  }

  // ------------------------------------------------------------ every step, and whole runs

  /** What is demanded of a step so that it loses nothing: a packet is read only while all tasks
      run, to_entg refuses a packet only when nobody could get it any more, and a cancellation
      finds nothing. Every other step is free. */
  ghost predicate LosesNothing(s: State, l: Label) {
    match l
    case Pull(_) => Carrying(s)
    case EncTooBig => !(Line.Open(s.line) && s.decLive && s.snkLive)
    case Kill(_, _, _, _) => KillFree(s, l)
    case _ => true
  }

  /** Packets pulled that are neither delivered nor under way. */
  ghost function Missing(s: State): int { |s.pulled| - |s.delivered| - |Inflight(s)| }

  lemma MissingNothing(s: State)
    requires Inv(s)
    ensures Missing(s) >= 0
    ensures Missing(s) == 0 <==> s.delivered + Inflight(s) == s.pulled
  {
    assert |s.delivered + Inflight(s)| == |s.delivered| + |Inflight(s)|;
  }

  /** Once lost, lost for good. */
  lemma MissingGrows(n: nat, l: Label, f: Fifo, g: Fifo)
    requires FifoStep(n, l, f, g)
    ensures |f.pulled| - |f.delivered| - |f.queue| <= |g.pulled| - |g.delivered| - |g.queue|
    ensures l.Pull? && !f.open ==> |f.pulled| - |f.delivered| - |f.queue| < |g.pulled| - |g.delivered| - |g.queue|
  {
  }

  /** Of the steps other than cancellations that are not orderly, only refusing a packet that
      could still arrive loses something. */
  lemma FaultQueue(s: State, l: Label)
    requires Inv(s) && Enabled(s, l) && !Orderly(l) && !l.Kill?
    ensures l.EncTooBig? && Line.Open(s.line) && s.decLive && s.snkLive ==> |Inflight(Next(s, l))| < |Inflight(s)|
    ensures !(l.EncTooBig? && Line.Open(s.line) && s.decLive && s.snkLive) ==> Inflight(Next(s, l)) == Inflight(s)
  {
    match l {
      case EncTooBig => FramerEndStream(s, l);
      case DecBad => NeverBadHeader(s);
      case Move(a) =>
        OpenAfterMove(s, a);
        Line.ReachOfBreak(s.line, s.decLive, a.i);
      case _ =>
    }
  }

  lemma FaultStream(s: State, l: Label)
    requires ShapeOk(s) && Enabled(s, l) && !Orderly(l) && !l.Kill? && Next(s, l).decLive
    ensures Stream(Next(s, l)) == Stream(s)
  {
    match l {
      case EncTooBig => FramerEndStream(s, l);
      case Move(a) =>
        Line.ReachOfBreak(s.line, s.decLive, a.i);
      case _ =>
    }
  }

  lemma OrderlyWhole(s: State, l: Label)
    requires ShapeOk(s) && Enabled(s, l) && Orderly(l) && Whole(Stream(s))
    ensures Next(s, l).decLive ==> Whole(Stream(Next(s, l)))
  {
    match l {
      case EncRecv => RecvStream(s); FramesAppend(Stream(s), s.outQ[0]);
      case EncEnd => ReachOfFramerEnd(s.line);
      case Move(a) => MoveKeepsStream(s, a);
      case DecFetch(k) => StreamOfFetch(s, k);
      case DecFrame => FrameLeavesStream(s);
      case _ =>
    }
  }

  lemma FreeKillStream(s: State, l: Label)
    requires l.Kill? && KillFree(s, l) && Next(s, l).decLive && Next(s, l).snkLive
    ensures Stream(Next(s, l)) == Stream(s)
  {
    StreamOfKillIff(s, l);
    HopsMayEndIff(s, l);
  }

  lemma FreeStepWhole(s: State, l: Label)
    requires Snug(s) && Enabled(s, l) && LosesNothing(s, l)
    ensures var t := Next(s, l); t.decLive && t.snkLive ==> Whole(Stream(t))
  {
    var t := Next(s, l);
    LineStays(s, l);
    if t.decLive && t.snkLive {
      if Orderly(l) { OrderlyWhole(s, l); }
      else if l.Kill? { FreeKillStream(s, l); }
      else { FaultStream(s, l); }
    }
  }

  lemma FreeStepConserves(s: State, l: Label)
    requires Snug(s) && Enabled(s, l) && LosesNothing(s, l)
    ensures Next(s, l).delivered + Inflight(Next(s, l)) == Next(s, l).pulled
  {
    StepRefines(s, l);
    if Orderly(l) {
      RelayClose.OrderlyConserves(FifoCapacity(s.line), l, Abs(s), Abs(Next(s, l)));
    } else if l.Kill? {
      KillLosesNothingIff(s, l);
    } else {
      FaultQueue(s, l);
    }
  }

  lemma LossyStepLoses(s: State, l: Label)
    requires Snug(s) && Enabled(s, l) && !LosesNothing(s, l)
    ensures Missing(Next(s, l)) > 0
  {
    MissingNothing(s);
    match l {
      case Pull(_) =>
        StepRefines(s, l);
        MissingGrows(FifoCapacity(s.line), l, Abs(s), Abs(Next(s, l)));
      case Kill(_, _, _, _) => LossyKillLoses(s, l);
      case EncTooBig => FaultQueue(s, l);
    }
  }

  lemma LossyKillLoses(s: State, l: Label)
    requires Snug(s) && l.Kill? && !KillFree(s, l)
    ensures |Inflight(Next(s, l))| < |Inflight(s)|
  {
    KillCuts(s, l);
    KillLosesNothingIff(s, l);
    if |Inflight(Next(s, l))| >= |Inflight(s)| { SameLength(Inflight(Next(s, l)), Inflight(s)); }
  }

  /** Each step of a run meets its demand. */
  ghost predicate RunLosesNothing(s: State, run: seq<Label>)
    requires Can(s, run)
    decreases |run|
  {
    run != [] ==> LosesNothing(s, run[0]) && RunLosesNothing(Next(s, run[0]), run[1..])
  }

  lemma {:induction false} MissingStays(s: State, run: seq<Label>)
    requires Inv(s) && Good(s) && Can(s, run) && Missing(s) > 0
    ensures Missing(After(s, run)) > 0
    decreases |run|
  {
    if run != [] {
      StepGood(s, run[0]);
      StepRefines(s, run[0]);
      MissingGrows(FifoCapacity(s.line), run[0], Abs(s), Abs(Next(s, run[0])));
      MissingStays(Next(s, run[0]), run[1..]);
    }
  }

  lemma SnugIsGood(s: State)
    requires Snug(s)
    ensures Good(s)
  {
  }

  /** The exact condition. After any run of a direction, whatever ended when and where, everything
      pulled is delivered or still on its way if and only if every step met its demand. */
  lemma {:induction false} RunLosesNothingIff(s: State, run: seq<Label>)
    requires Snug(s) && Can(s, run)
    ensures var t := After(s, run); t.delivered + Inflight(t) == t.pulled <==> RunLosesNothing(s, run)
    decreases |run|
  {
    if run != [] {
      var l := run[0];
      SnugIsGood(s);
      StepGood(s, l);
      if LosesNothing(s, l) {
        FreeStepWhole(s, l);
        FreeStepConserves(s, l);
        RunLosesNothingIff(Next(s, l), run[1..]);
      } else {
        LossyStepLoses(s, l);
        MissingStays(Next(s, l), run[1..]);
        RunIsSafe(s, run);
        MissingNothing(After(s, run));
      }
    }
  }
}
