/** Closing one direction in an orderly way: the near TUN ends, every task ends at end of file
    and nobody is cancelled. Then nothing is lost. */
module RelayClose {
  import opened Framing
  import Line
  import opened Relay
  import opened RelaySafety
  import opened RelayProgress

  /** The tasks that have ended are the ones nearest to the source. */
  ghost predicate EndedFromSource(s: State) {
    && s.line != []
    && (s.srcLive ==> s.line[0].live)
    && (forall i :: 0 < i < |s.line| && s.line[i - 1].live ==> s.line[i].live)
    && (s.LastLive() ==> s.decLive)
    && (s.decLive ==> s.snkLive)
  }

  /** Nothing has been lost or cut so far. */
  ghost predicate Tidy(s: State) {
    && ShapeOk(s) && StreamOk(s) && EndedFromSource(s)
    && (s.decLive ==> Whole(Stream(s)))
    && s.delivered + Inflight(s) == s.pulled
  }

  lemma {:induction false} LiveFromHere(s: State, i: nat)
    requires EndedFromSource(s) && i < |s.line| && s.line[i].live
    ensures forall j :: i <= j < |s.line| ==> s.line[j].live
    ensures s.decLive && s.snkLive
    decreases |s.line| - i
  {
    if i + 1 < |s.line| { LiveFromHere(s, i + 1); }
  }

  lemma SourceLiveIsCarrying(s: State)
    requires EndedFromSource(s)
    ensures s.srcLive ==> Carrying(s)
    ensures s.line[0].live ==> Line.Open(s.line) && s.decLive && s.snkLive
  {
    if s.line[0].live { LiveFromHere(s, 0); }
  }

  lemma InitialTidy(s: State)
    requires Initial(s)
    ensures Tidy(s)
  {
    InitialGood(s);
    InitialHoldsNothing(s);
    NoFrames();
  }

  lemma OrderlyMoveKeepsOrder(s: State, a: Line.Action)
    requires ShapeOk(s) && EndedFromSource(s) && Enabled(s, Move(a)) && !a.Break?
    ensures EndedFromSource(Next(s, Move(a)))
  {
    var m := Next(s, Move(a)).line;
    assert forall i :: 0 <= i < |m| && !(a.End? && i == a.i) ==> m[i].live == s.line[i].live;
  }

  lemma OrderlyKeepsOrder(s: State, l: Label)
    requires ShapeOk(s) && EndedFromSource(s) && Enabled(s, l) && Orderly(l)
    ensures EndedFromSource(Next(s, l))
  {
    if l.Move? { OrderlyMoveKeepsOrder(s, l.a); }
  }

  lemma OrderlyKeepsWhole(s: State, l: Label)
    requires Tidy(s) && Enabled(s, l) && Orderly(l)
    ensures Next(s, l).decLive ==> Whole(Stream(Next(s, l)))
  {
    SourceLiveIsCarrying(s);
    match l {
      case EncRecv => RecvStream(s); FramesAppend(Stream(s), s.outQ[0]);
      case EncEnd => ReachOfFramerEnd(s.line);
      case Move(a) => MoveKeepsStream(s, a);
      case DecFetch(k) => StreamOfFetch(s, k);
      case DecFrame => FrameLeavesStream(s);
      case _ =>
    }
  }

  /** In the FIFO's own terms: a step that is no fault, taken while open if it puts something
      in, keeps what was pulled equal to what was delivered and what is queued. */
  lemma OrderlyConserves(n: nat, l: Label, f: Fifo, g: Fifo)
    requires FifoStep(n, l, f, g) && Orderly(l) && (l.Pull? ==> f.open)
    requires f.delivered + f.queue == f.pulled
    ensures g.delivered + g.queue == g.pulled
  {
    if l.SnkDeliver? {
      assert g.delivered + g.queue == f.delivered + f.queue;
    } else if l.Pull? {
      Appended(f.delivered, f.queue, [l.packet]);
    }
  }

  lemma OrderlyStep(s: State, l: Label)
    requires Tidy(s) && Enabled(s, l) && Orderly(l)
    ensures Tidy(Next(s, l))
  {
    StepRefines(s, l);
    OrderlyKeepsOrder(s, l);
    OrderlyKeepsWhole(s, l);
    SourceLiveIsCarrying(s);
    OrderlyConserves(FifoCapacity(s.line), l, Abs(s), Abs(Next(s, l)));
  }

  lemma {:induction false} OrderlyRun(s: State, run: seq<Label>)
    requires Tidy(s) && Can(s, run) && AllOrderly(run)
    ensures Tidy(After(s, run))
    decreases |run|
  {
    if run != [] {
      assert Orderly(run[0]);
      OrderlyStep(s, run[0]);
      forall i | 0 <= i < |run| - 1 ensures Orderly(run[1..][i]) { assert Orderly(run[i + 1]); }
      OrderlyRun(Next(s, run[0]), run[1..]);
    }
  }

  lemma QueuedWasPulled(s: State)
    requires Tidy(s) && s.FramerIdle() && s.outQ != [] && AllFit(s.pulled)
    ensures |s.outQ[0]| <= MAX_FRAME_LEN
  {
    SourceLiveIsCarrying(s);
    var k := |s.delivered| + |s.snkHeld| + |s.inQ| + |s.decHeld| + |Frames(Stream(s))|;
    assert s.pulled[k] == s.outQ[0];
  }

  /** With packets inside the frame limit the tasks never cause a fault by themselves. */
  lemma TidyTasksAreOrderly(s: State, l: Label)
    requires Tidy(s) && AllFit(s.pulled) && Enabled(s, l) && Internal(l)
    ensures Orderly(l)
  {
    match l {
      case EncTooBig => QueuedWasPulled(s);
      case DecBad => NeverBadHeader(s);
      case Move(a) => if a.Break? { LiveFromHere(s, a.i); }
      case _ =>
    }
  }

  lemma {:induction false} TasksKeepSource(s: State, run: seq<Label>)
    requires Can(s, run) && AllInternal(run)
    ensures After(s, run).pulled == s.pulled
    ensures !s.srcLive ==> !After(s, run).srcLive
    decreases |run|
  {
    if run != [] {
      assert Internal(run[0]);
      forall i | 0 <= i < |run| - 1 ensures Internal(run[1..][i]) { assert Internal(run[i + 1]); }
      TasksKeepSource(Next(s, run[0]), run[1..]);
    }
  }

  lemma {:induction false} TidyTasksRun(s: State, run: seq<Label>)
    requires Tidy(s) && AllFit(s.pulled) && Can(s, run) && AllInternal(run)
    ensures Tidy(After(s, run))
    decreases |run|
  {
    if run != [] {
      assert Internal(run[0]);
      TidyTasksAreOrderly(s, run[0]);
      OrderlyStep(s, run[0]);
      forall i | 0 <= i < |run| - 1 ensures Internal(run[1..][i]) { assert Internal(run[i + 1]); }
      TasksKeepSource(s, [run[0]]);
      TidyTasksRun(Next(s, run[0]), run[1..]);
    }
  }

  // ------------------------------------------------------------ packets over the limit

  /** Everything behind the decoder is inside the frame limit. */
  ghost predicate OutputFits(s: State) {
    AllFit(s.decHeld) && AllFit(s.inQ) && AllFit(s.snkHeld) && AllFit(s.delivered)
  }

  lemma OutputFitsStep(s: State, l: Label)
    requires OutputFits(s) && Enabled(s, l)
    ensures OutputFits(Next(s, l))
  {
    if l.SnkRecv? { assert |s.inQ[0]| <= MAX_FRAME_LEN; }
  }

  lemma {:induction false} OutputFitsRun(s: State, run: seq<Label>)
    requires OutputFits(s) && Can(s, run)
    ensures OutputFits(After(s, run))
    decreases |run|
  {
    if run != [] {
      OutputFitsStep(s, run[0]);
      OutputFitsRun(Next(s, run[0]), run[1..]);
    }
  }

  lemma {:induction false} RunConcat(s: State, a: seq<Label>, b: seq<Label>)
    requires Can(s, a) && Can(After(s, a), b)
    ensures Can(s, a + b) && After(s, a + b) == After(After(s, a), b)
    decreases |a|
  {
    if a == [] {
      assert a + b == b;
    } else {
      assert (a + b)[1..] == a[1..] + b;
      RunConcat(Next(s, a[0]), a[1..], b);
    }
  }

  // ------------------------------------------------------------ the theorem

  /** The sink sees the end only after everything: at any point of an orderly run, once to_tun
      has ended all that was pulled has been delivered. */
  lemma EndMeansDelivered(s: State, run: seq<Label>)
    requires Initial(s) && Can(s, run) && AllOrderly(run) && !After(s, run).snkLive
    ensures After(s, run).delivered == After(s, run).pulled
  {
    InitialTidy(s);
    OrderlyRun(s, run);
  }

  /** And it does see it. After any orderly run, whatever order the tasks then take, they stop
      after at most Measure steps. When they stop, everything pulled has been delivered if and
      only if every packet is inside the frame limit (a larger one makes to_entg give up); and
      if the source has ended every task has ended. */
  lemma GracefulClose(s: State, before: seq<Label>, drain: seq<Label>)
    requires Initial(s) && Can(s, before) && AllOrderly(before)
    requires Can(After(s, before), drain) && AllInternal(drain)
    ensures var m := After(s, before);
            var t := After(m, drain);
            && |drain| <= Measure(m)
            && t.pulled == m.pulled
            && (Quiet(t) ==> (t.delivered == m.pulled <==> AllFit(m.pulled)))
            && (Quiet(t) && !m.srcLive ==> AllEnded(t))
  {
    var m := After(s, before);
    InitialTidy(s);
    OrderlyRun(s, before);
    InternalRunsAreBounded(m, drain);
    TasksKeepSource(m, drain);
    var t := After(m, drain);
    RunConcat(s, before, drain);
    OutputFitsRun(s, before + drain);
    if Quiet(t) {
      if AllFit(m.pulled) { QuietTidyIsDelivered(m, drain); }
      if !m.srcLive { QuietAndClosed(t); }
    }
  }

  /** The most a TUN device hands over at once: a full IPv6 payload, its header, and the four bytes
      of packet information. */
  const MAX_TUN_READ: nat := 65535 + 40 + 4

  ghost predicate FromTunDevice(ps: seq<Packet>) { forall i :: 0 <= i < |ps| ==> |ps[i]| <= MAX_TUN_READ }

  /** IP packets are always inside the frame limit, so for them the close needs no condition: when
      the tasks stop, everything pulled has been delivered. */
  lemma GracefulCloseOfIpPackets(s: State, before: seq<Label>, drain: seq<Label>)
    requires Initial(s) && Can(s, before) && AllOrderly(before) && FromTunDevice(After(s, before).pulled)
    requires Can(After(s, before), drain) && AllInternal(drain)
    ensures |drain| <= Measure(After(s, before))
    ensures Quiet(After(After(s, before), drain))
            ==> After(After(s, before), drain).delivered == After(s, before).pulled
  {
    assert AllFit(After(s, before).pulled);
    GracefulClose(s, before, drain);
  }

  lemma QuietTidyIsDelivered(m: State, drain: seq<Label>)
    requires Tidy(m) && AllFit(m.pulled) && Can(m, drain) && AllInternal(drain) && Quiet(After(m, drain))
    ensures After(m, drain).delivered == After(m, drain).pulled
  {
    var t := After(m, drain);
    TidyTasksRun(m, drain);
    if t.srcLive {
      SourceLiveIsCarrying(t);
      QuietAndOpen(t);
    } else {
      QuietAndClosed(t);
    }
  }
}
