/** Both directions between two ENTAs over any number of ENTGs.

    The tasks of the two directions are tied together by the selects: of the two loops of
    exchange_with_tun, of the two loops of exchange_with_entg, and of the two copies of an ENTG,
    the one that returns first takes the other with it. The rats-tls pumps are not tied. */
module Tunnel {
  import opened Wrappers
  import opened Framing
  import Line
  import opened Relay
  import opened RelaySafety
  import opened RelayProgress

  datatype Tunnel = Tunnel(f: State, b: State)

  datatype Step = Fwd(l: Label) | Bwd(l: Label)

  // ------------------------------------------------------------ ties

  ghost predicate CopyEnded(l: seq<Line.Hop>, node: nat) {
    exists i :: 0 <= i < |l| && l[i].kind == Line.Copy(node) && !l[i].live
  }

  /** The hops of direction y whose select partner in direction x has ended. */
  ghost function CancelledHops(x: State, y: State): set<nat> {
    (if !x.decLive then {0} else {}) +
    (set j: nat | j < |y.line| && y.line[j].kind.Copy? && CopyEnded(x.line, y.line[j].kind.node))
  }

  /** What the selects cancel in direction y, given which tasks of direction x have ended. */
  ghost function Cancelled(x: State, y: State): Label
    requires x.line != []
  {
    Kill(!x.snkLive, CancelledHops(x, y), !x.line[0].live, !x.srcLive)
  }

  ghost predicate HopsDiffer(l: seq<Line.Hop>) {
    forall i, j :: 0 <= i < j < |l| && l[i].kind.Copy? ==> l[i].kind != l[j].kind
  }

  ghost predicate CopiesTied(l: seq<Line.Hop>, m: seq<Line.Hop>) {
    forall i, j ::
      0 <= i < |l| && 0 <= j < |m| && l[i].kind.Copy? && l[i].kind == m[j].kind ==> l[i].live == m[j].live
  }

  /** Tied tasks run together or have ended together. */
  ghost predicate Ties(f: State, b: State) {
    && f.line != [] && b.line != []
    && f.srcLive == b.snkLive && f.snkLive == b.srcLive
    && f.line[0].live == b.decLive && f.decLive == b.line[0].live
    && CopiesTied(f.line, b.line)
  }

  ghost predicate TunnelOk(t: Tunnel) {
    && Good(t.f) && Good(t.b)
    && HopsDiffer(t.f.line) && HopsDiffer(t.b.line)
    && Ties(t.f, t.b)
  }

  ghost predicate TEnabled(t: Tunnel, s: Step) {
    match s
    case Fwd(l) => Enabled(t.f, l)
    case Bwd(l) => Enabled(t.b, l)
  }

  ghost function TNext(t: Tunnel, s: Step): Tunnel
    requires t.f.line != [] && t.b.line != [] && TEnabled(t, s)
  {
    match s
    case Fwd(l) =>
      LineStays(t.f, l);
      var f := Next(t.f, l);
      Tunnel(f, Next(t.b, Cancelled(f, t.b)))
    case Bwd(l) =>
      LineStays(t.b, l);
      var b := Next(t.b, l);
      Tunnel(Next(t.f, Cancelled(b, t.f)), b)
  }

  /** Ctrl-C at an ENTA: its four tasks are dropped together. */
  function CtrlC(near: bool): Step {
    if near then Fwd(Kill(true, {0}, false, false)) else Fwd(Kill(false, {}, true, true))
  }

  // ------------------------------------------------------------ one step

  lemma TieStep(x: State, l: Label, y: State)
    requires ShapeOk(x) && ShapeOk(y) && HopsDiffer(x.line) && Ties(x, y) && Enabled(x, l)
    ensures var x' := Next(x, l); x'.line != [] && HopsDiffer(x'.line) && Ties(x', Next(y, Cancelled(x', y)))
  {
    LineStays(x, l);
    var x' := Next(x, l);
    HopsStayDifferent(x.line, x'.line);
    LineStays(y, Cancelled(x', y));
    assert !y.line[0].kind.Copy?;
    TieCopies(x, x', y, Cancelled(x', y).hops);
  }

  lemma HopsStayDifferent(l: seq<Line.Hop>, m: seq<Line.Hop>)
    requires HopsDiffer(l) && Line.NoRevival(l, m)
    ensures HopsDiffer(m)
  {
    forall i | 0 <= i < |l| ensures m[i].kind == l[i].kind { assert Line.SameHop(l[i], m[i]); }
  }

  /** Cancelling exactly the copies whose twin has ended ties them again. */
  lemma TieCopies(x: State, x': State, y: State, hops: set<nat>)
    requires Line.NoRevival(x.line, x'.line) && HopsDiffer(x'.line) && CopiesTied(x.line, y.line)
    requires forall j: nat ::
      j < |y.line| && y.line[j].kind.Copy? ==> (j in hops <==> CopyEnded(x'.line, y.line[j].kind.node))
    ensures CopiesTied(x'.line, Line.Kill(y.line, hops))
  {
    var l, m := x'.line, Line.Kill(y.line, hops);
    forall i, j | 0 <= i < |l| && 0 <= j < |m| && l[i].kind.Copy? && l[i].kind == m[j].kind
      ensures l[i].live == m[j].live
    {
      assert x.line[i].live == y.line[j].live;
      if CopyEnded(l, l[i].kind.node) {
        var k :| 0 <= k < |l| && l[k].kind == l[i].kind && !l[k].live;
        assert k == i;
      }
    }
  }

  lemma TiesSwap(x: State, y: State)
    requires Ties(x, y)
    ensures Ties(y, x)
  {
  }

  /** A step of one direction, with what the selects make of it in the other. */
  lemma BothGood(x: State, l: Label, y: State)
    requires Good(x) && Good(y) && HopsDiffer(y.line) && Enabled(x, l)
    ensures var x' := Next(x, l);
            x'.line != [] && Good(x')
            && var y' := Next(y, Cancelled(x', y));
            && Good(y') && HopsDiffer(y'.line)
            && x.delivered <= x'.delivered && y.delivered == y'.delivered
            && FifoCapacity(x'.line) == FifoCapacity(x.line) && FifoCapacity(y'.line) == FifoCapacity(y.line)
            && |x'.line| == |x.line| && |y'.line| == |y.line|
  {
    StepGood(x, l);
    LineStays(x, l);
    var k := Cancelled(Next(x, l), y);
    StepGood(y, k);
    LineStays(y, k);
  }

  lemma StepKeepsOk(t: Tunnel, s: Step)
    requires TunnelOk(t) && TEnabled(t, s)
    ensures TunnelOk(TNext(t, s))
    ensures t.f.delivered <= TNext(t, s).f.delivered && t.b.delivered <= TNext(t, s).b.delivered
    ensures FifoCapacity(TNext(t, s).f.line) == FifoCapacity(t.f.line)
    ensures FifoCapacity(TNext(t, s).b.line) == FifoCapacity(t.b.line)
    ensures |TNext(t, s).f.line| == |t.f.line| && |TNext(t, s).b.line| == |t.b.line|
  {
    var u := TNext(t, s);
    match s {
      case Fwd(l) =>
        TieStep(t.f, l, t.b);
        BothGood(t.f, l, t.b);
      case Bwd(l) =>
        TiesSwap(t.f, t.b);
        TieStep(t.b, l, t.f);
        TiesSwap(u.b, u.f);
        BothGood(t.b, l, t.f);
    }
  }

  // ------------------------------------------------------------ how far a select reaches

  /** The select partner of copy j ended in this step. */
  ghost predicate TwinEnds(l: seq<Line.Hop>, m: seq<Line.Hop>, kind: Line.Kind)
    requires |l| == |m|
  {
    exists i :: 0 <= i < |l| && l[i].kind == kind && l[i].live && !m[i].live
  }

  /** Direction x goes to x', and with it y to y'. Nothing in y changes but tasks that were running
      and whose select partner in x ended just now: they have ended, with what they held. No
      select watches the rats-tls pumps; channels and pipes keep what is in them. */
  ghost predicate SelectsReach(x: State, x': State, y: State, y': State)
    requires x.line != [] && |x'.line| == |x.line|
  {
    && |y'.line| == |y.line|
    && y'.pulled == y.pulled && y'.outQ == y.outQ && y'.inQ == y.inQ && y'.delivered == y.delivered
    && (y.srcLive && x.snkLive && !x'.snkLive ==> !y'.srcLive && y'.srcHeld == [])
    && (!(y.srcLive && x.snkLive && !x'.snkLive) ==> y'.srcLive == y.srcLive && y'.srcHeld == y.srcHeld)
    && (y.decLive && x.line[0].live && !x'.line[0].live ==> !y'.decLive && y'.decBuf == [] && y'.decHeld == [])
    && (!(y.decLive && x.line[0].live && !x'.line[0].live)
        ==> y'.decLive == y.decLive && y'.decBuf == y.decBuf && y'.decHeld == y.decHeld)
    && (y.snkLive && x.srcLive && !x'.srcLive ==> !y'.snkLive && y'.snkHeld == [])
    && (!(y.snkLive && x.srcLive && !x'.srcLive) ==> y'.snkLive == y.snkLive && y'.snkHeld == y.snkHeld)
    && (forall j :: 0 <= j < |y.line| ==> HopReached(x, x', y.line[j], y'.line[j]))
  }

  ghost predicate HopReached(x: State, x': State, h: Line.Hop, g: Line.Hop)
    requires |x'.line| == |x.line|
  {
    match h.kind
    case TlsWriter => g == h
    case TlsReader => g == h
    case Framer => g == if h.live && x.decLive && !x'.decLive then h.Ended() else h
    case Copy(_) => g == if h.live && TwinEnds(x.line, x'.line, h.kind) then h.Ended() else h
  }

  /** Of a tied copy that runs, the twin has ended if and only if it ended in this step. */
  lemma TwinEndsNow(l: seq<Line.Hop>, m: seq<Line.Hop>, h: Line.Hop)
    requires Line.NoRevival(l, m) && h.kind.Copy? && h.live
    requires forall i :: 0 <= i < |l| && l[i].kind == h.kind ==> l[i].live
    ensures CopyEnded(m, h.kind.node) <==> TwinEnds(l, m, h.kind)
  {
    forall i | 0 <= i < |l| ensures m[i].kind == l[i].kind { assert Line.SameHop(l[i], m[i]); }
    if CopyEnded(m, h.kind.node) {
      var i :| 0 <= i < |m| && m[i].kind == Line.Copy(h.kind.node) && !m[i].live;
      assert l[i].live;
    }
  }

  lemma CopyIsReached(x: State, x': State, y: State, hops: set<nat>, j: nat)
    requires Ties(x, y) && Line.NoRevival(x.line, x'.line) && j < |y.line| && y.line[j].kind.Copy?
    requires Line.HopOk(y.line[j]) && (j in hops <==> CopyEnded(x'.line, y.line[j].kind.node))
    ensures HopReached(x, x', y.line[j], Line.Kill(y.line, hops)[j])
  {
    var h := y.line[j];
    if h.live {
      forall i | 0 <= i < |x.line| && x.line[i].kind == h.kind ensures x.line[i].live {
        assert x.line[i].live == y.line[j].live;
      }
      TwinEndsNow(x.line, x'.line, h);
    }
  }

  lemma HopIsReached(x: State, x': State, y: State, k: Label, j: nat)
    requires ShapeOk(y) && Ties(x, y) && Line.NoRevival(x.line, x'.line) && (x'.decLive ==> x.decLive)
    requires x'.line != [] && k == Cancelled(x', y) && j < |y.line|
    ensures HopReached(x, x', y.line[j], Next(y, k).line[j])
  {
    assert Line.HopOk(y.line[j]) && (y.line[j].kind.Framer? <==> j == 0);
    if y.line[j].kind.Copy? { CopyIsReached(x, x', y, k.hops, j); }
  }

  /** The tasks at the two ends. */
  lemma EndsReached(x: State, x': State, y: State)
    requires ShapeOk(y) && Ties(x, y) && x'.line != [] && Line.NoRevival(x.line, x'.line)
    requires (x'.srcLive ==> x.srcLive) && (x'.snkLive ==> x.snkLive)
    requires forall j :: 0 <= j < |y.line| ==> HopReached(x, x', y.line[j], Next(y, Cancelled(x', y)).line[j])
    ensures SelectsReach(x, x', y, Next(y, Cancelled(x', y)))
  {
  }

  lemma SideReached(x: State, l: Label, y: State)
    requires ShapeOk(x) && ShapeOk(y) && Ties(x, y) && Enabled(x, l)
    ensures var x' := Next(x, l);
            x'.line != [] && |x'.line| == |x.line| && SelectsReach(x, x', y, Next(y, Cancelled(x', y)))
  {
    LineStays(x, l);
    var x' := Next(x, l);
    forall j: nat | j < |y.line| ensures HopReached(x, x', y.line[j], Next(y, Cancelled(x', y)).line[j]) {
      HopIsReached(x, x', y, Cancelled(x', y), j);
    }
    EndsReached(x, x', y);
  }

  /** In every step of the tunnel the acting direction takes its own step, and the selects reach
      exactly the partners of the tasks that ended in it. */
  lemma StepReaches(t: Tunnel, s: Step)
    requires TunnelOk(t) && TEnabled(t, s)
    ensures var u := TNext(t, s);
            && |u.f.line| == |t.f.line| && |u.b.line| == |t.b.line|
            && match s
               case Fwd(l) => u.f == Next(t.f, l) && SelectsReach(t.f, u.f, t.b, u.b)
               case Bwd(l) => u.b == Next(t.b, l) && SelectsReach(t.b, u.b, t.f, u.f)
  {
    StepKeepsOk(t, s);
    TiesSwap(t.f, t.b);
    match s
    case Fwd(l) => SideReached(t.f, l, t.b);
    case Bwd(l) => SideReached(t.b, l, t.f);
  }

  /** from_tun and to_entg of a direction have been dropped, with what they held. */
  function NearDropped(s: State): State
    requires s.line != []
  {
    s.(srcLive := false, srcHeld := [], line := s.line[0 := s.line[0].Ended()])
  }

  /** from_entg and to_tun of a direction have been dropped. */
  function FarDropped(s: State): State {
    s.(decLive := false, decBuf := [], decHeld := [], snkLive := false, snkHeld := [])
  }

  /** Ctrl-C at an ENTA drops its four tasks, all four, and touches nothing else: no other hop, no
      channel or pipe, none of the tasks of the other ENTA. */
  lemma CtrlCEndsTheAgent(t: Tunnel, near: bool)
    requires TunnelOk(t)
    ensures TEnabled(t, CtrlC(near))
    ensures var u := TNext(t, CtrlC(near));
            if near then u.f == NearDropped(t.f) && u.b == FarDropped(t.b)
            else u.f == FarDropped(t.f) && u.b == NearDropped(t.b)
  {
    if near { CtrlCNear(t); } else { CtrlCFar(t); }
  }

  lemma CtrlCNear(t: Tunnel)
    requires TunnelOk(t)
    ensures var u := TNext(t, CtrlC(true)); u.f == NearDropped(t.f) && u.b == FarDropped(t.b)
  {
    var u := TNext(t, CtrlC(true));
    StepReaches(t, CtrlC(true));
    assert Line.Kill(t.f.line, {0}) == NearDropped(t.f).line;
    OnlyAgentReached(t.f, u.f, t.b, u.b);
    assert u.b.line == t.b.line;
  }

  lemma CtrlCFar(t: Tunnel)
    requires TunnelOk(t)
    ensures var u := TNext(t, CtrlC(false)); u.f == FarDropped(t.f) && u.b == NearDropped(t.b)
  {
    var u := TNext(t, CtrlC(false));
    StepReaches(t, CtrlC(false));
    assert Line.Kill(t.f.line, {}) == t.f.line;
    OnlyAgentReached(t.f, u.f, t.b, u.b);
    assert Line.HopOk(t.b.line[0]);
    assert u.b.line == NearDropped(t.b).line;
  }

  /** If no hop but the first has ended, the selects reach no hop but the first. */
  lemma OnlyAgentReached(x: State, x': State, y: State, y': State)
    requires ShapeOk(x) && ShapeOk(y) && Ties(x, y) && |x'.line| == |x.line| && SelectsReach(x, x', y, y')
    requires forall i :: 0 < i < |x.line| ==> x'.line[i] == x.line[i]
    ensures forall j :: 0 < j < |y.line| ==> y'.line[j] == y.line[j]
    ensures y'.line[0] == if x.decLive && !x'.decLive then y.line[0].Ended() else y.line[0]
  {
    assert HopReached(x, x', y.line[0], y'.line[0]) && y.line[0].kind.Framer?;
    assert Line.HopOk(y.line[0]) && x.line[0].kind.Framer?;
    forall j | 0 < j < |y.line| ensures y'.line[j] == y.line[j] {
      assert HopReached(x, x', y.line[j], y'.line[j]) && !y.line[j].kind.Framer?;
    }
  }

  // ------------------------------------------------------------ runs

  ghost predicate TCan(t: Tunnel, run: seq<Step>)
    requires TunnelOk(t)
    decreases |run|
  {
    run == [] || (TEnabled(t, run[0]) && (StepKeepsOk(t, run[0]); TCan(TNext(t, run[0]), run[1..])))
  }

  ghost function TAfter(t: Tunnel, run: seq<Step>): Tunnel
    requires TunnelOk(t) && TCan(t, run)
    decreases |run|
  {
    if run == [] then t else (StepKeepsOk(t, run[0]); TAfter(TNext(t, run[0]), run[1..]))
  }

  /** In every run of every tunnel, each direction independently delivers a prefix of what was
      pulled into it, however the selects, errors and Ctrl-C cut across the two. */
  lemma {:induction false} TunnelIsSafe(t: Tunnel, run: seq<Step>)
    requires TunnelOk(t) && TCan(t, run)
    ensures var u := TAfter(t, run);
            && TunnelOk(u)
            && u.f.delivered <= u.f.pulled && u.b.delivered <= u.b.pulled
            && t.f.delivered <= u.f.delivered && t.b.delivered <= u.b.delivered
            && (Carrying(u.f) ==> u.f.delivered + Inflight(u.f) == u.f.pulled)
            && (Carrying(u.b) ==> u.b.delivered + Inflight(u.b) == u.b.pulled)
            && |Inflight(u.f)| <= FifoCapacity(t.f.line) && |Inflight(u.b)| <= FifoCapacity(t.b.line)
    decreases |run|
  {
    if run == [] {
      FifoIsBounded(t.f);
      FifoIsBounded(t.b);
    } else {
      StepKeepsOk(t, run[0]);
      TunnelIsSafe(TNext(t, run[0]), run[1..]);
    }
  }

  // ------------------------------------------------------------ everything closes

  predicate ByTask(s: Step) { Internal(s.l) }

  ghost predicate AllByTasks(run: seq<Step>) { forall i :: 0 <= i < |run| ==> ByTask(run[i]) }

  function TMeasure(t: Tunnel): nat { Measure(t.f) + Measure(t.b) }

  lemma KillAddsNoWork(s: State, l: Label)
    requires l.Kill?
    ensures Measure(Next(s, l)) <= Measure(s)
  {
    KillUsesWork(Cost(s.srcHeld), Waiting(s), Waiting(Next(s, l)), s.line, l.hops, |s.decBuf|);
  }

  lemma BothUseWork(x: State, l: Label, y: State)
    requires ShapeOk(x) && Enabled(x, l) && Internal(l)
    ensures Next(x, l).line != []
    ensures Measure(Next(x, l)) + Measure(Next(y, Cancelled(Next(x, l), y))) < Measure(x) + Measure(y)
  {
    ShapeKept(x, l);
    InternalStepsUseWork(x, l);
    KillAddsNoWork(y, Cancelled(Next(x, l), y));
  }

  lemma TaskStepsUseWork(t: Tunnel, s: Step)
    requires TunnelOk(t) && TEnabled(t, s) && ByTask(s)
    ensures TMeasure(TNext(t, s)) < TMeasure(t)
  {
    match s
    case Fwd(l) => BothUseWork(t.f, l, t.b);
    case Bwd(l) => BothUseWork(t.b, l, t.f);
  }

  ghost predicate TQuiet(t: Tunnel) { Quiet(t.f) && Quiet(t.b) }

  ghost predicate AllRunning(t: Tunnel) { Carrying(t.f) && Carrying(t.b) }

  /** All or nothing: when no task can move, either every task of both directions still runs
      and nothing is held anywhere, or every task of both directions has ended. */
  lemma AllOrNothing(t: Tunnel)
    requires TunnelOk(t) && TQuiet(t)
    ensures (AllRunning(t) && Inflight(t.f) == [] && Inflight(t.b) == [])
            || (AllEnded(t.f) && AllEnded(t.b))
  {
    if t.f.snkLive && t.b.snkLive {
      QuietAndOpen(t.f);
      QuietAndOpen(t.b);
    } else if !t.f.snkLive {
      QuietAndClosed(t.b);
      QuietAndClosed(t.f);
    } else {
      QuietAndClosed(t.f);
      QuietAndClosed(t.b);
    }
  }

  lemma StepNeverRevives(t: Tunnel, s: Step)
    requires TunnelOk(t) && TEnabled(t, s)
    ensures AllRunning(TNext(t, s)) ==> AllRunning(t)
  {
    var u := TNext(t, s);
    match s {
      case Fwd(l) => LineStays(t.f, l); LineStays(t.b, Cancelled(u.f, t.b));
      case Bwd(l) => LineStays(t.b, l); LineStays(t.f, Cancelled(u.b, t.f));
    }
    if AllRunning(u) {
      forall i | 0 <= i < |t.f.line| ensures t.f.line[i].live { assert u.f.line[i].live; }
      forall i | 0 <= i < |t.b.line| ensures t.b.line[i].live { assert u.b.line[i].live; }
    }
  }

  /** Work that comes in with a step: a packet's, if the step pulls one. */
  function BroughtBy(t: Tunnel, s: Step): nat {
    if !s.l.Pull? then 0 else PullWork(if s.Fwd? then |t.f.line| else |t.b.line|, s.l.packet)
  }

  /** Work that comes in during a run; the lines do not change their length. */
  function Brought(t: Tunnel, run: seq<Step>): nat {
    if run == [] then 0 else BroughtBy(t, run[0]) + Brought(t, run[1..])
  }

  function TaskSteps(run: seq<Step>): nat {
    if run == [] then 0 else One(ByTask(run[0])) + TaskSteps(run[1..])
  }

  lemma {:induction false} BroughtSame(t: Tunnel, u: Tunnel, run: seq<Step>)
    requires |u.f.line| == |t.f.line| && |u.b.line| == |t.b.line|
    ensures Brought(u, run) == Brought(t, run)
  {
    if run != [] { BroughtSame(t, u, run[1..]); }
  }

  lemma BothOutside(x: State, l: Label, y: State)
    requires ShapeOk(x) && Enabled(x, l) && !Internal(l)
    ensures Next(x, l).line != []
    ensures Measure(Next(x, l)) + Measure(Next(y, Cancelled(Next(x, l), y)))
            <= Measure(x) + Measure(y) + if l.Pull? then PullWork(|x.line|, l.packet) else 0
  {
    ShapeKept(x, l);
    match l {
      case Pull(p) => PullAddsWork(x, p);
      case Kill(_, _, _, _) => KillAddsNoWork(x, l);
      case SrcEnd =>
    }
    KillAddsNoWork(y, Cancelled(Next(x, l), y));
  }

  lemma StepUsesWork(t: Tunnel, s: Step)
    requires TunnelOk(t) && TEnabled(t, s)
    ensures One(ByTask(s)) + TMeasure(TNext(t, s)) <= TMeasure(t) + BroughtBy(t, s)
  {
    if ByTask(s) {
      TaskStepsUseWork(t, s);
    } else {
      match s
      case Fwd(l) => BothOutside(t.f, l, t.b);
      case Bwd(l) => BothOutside(t.b, l, t.f);
    }
  }

  /** One end closes everything: once any task anywhere has ended, by end of file, error,
      cancellation or Ctrl-C, the tasks take at most TMeasure more steps, and those that packets
      pulled meanwhile at the other end make necessary, in whatever order; and when they stop
      every task of both directions has ended. */
  lemma {:induction false} CloseReachesEverything(t: Tunnel, run: seq<Step>)
    requires TunnelOk(t) && !AllRunning(t) && TCan(t, run)
    ensures TaskSteps(run) <= TMeasure(t) + Brought(t, run)
    ensures TQuiet(TAfter(t, run)) ==> AllEnded(TAfter(t, run).f) && AllEnded(TAfter(t, run).b)
    decreases |run|
  {
    if run == [] {
      if TQuiet(t) { AllOrNothing(t); }
    } else {
      var u := TNext(t, run[0]);
      StepKeepsOk(t, run[0]);
      StepUsesWork(t, run[0]);
      StepNeverRevives(t, run[0]);
      BroughtSame(t, u, run[1..]);
      CloseReachesEverything(u, run[1..]);
    }
  }

  /** In particular after a Ctrl-C at either ENTA. */
  lemma CtrlCEndsEverything(t: Tunnel, near: bool, after: seq<Step>)
    requires TunnelOk(t)
    requires (StepKeepsOk(t, CtrlC(near)); TCan(TNext(t, CtrlC(near)), after))
    ensures (StepKeepsOk(t, CtrlC(near));
             var u := TNext(t, CtrlC(near));
             var v := TAfter(u, after);
             TaskSteps(after) <= TMeasure(u) + Brought(u, after) && (TQuiet(v) ==> AllEnded(v.f) && AllEnded(v.b)))
  {
    StepKeepsOk(t, CtrlC(near));
    var u := TNext(t, CtrlC(near));
    assert near ==> !u.f.srcLive;
    assert !near ==> !u.f.snkLive;
    CloseReachesEverything(u, after);
  }

  lemma SomeTaskMoves(t: Tunnel) returns (s: Step)
    requires !TQuiet(t)
    ensures TEnabled(t, s) && ByTask(s)
  {
    if Quiet(t.f) {
      var l: Label :| Internal(l) && Enabled(t.b, l);
      s := Bwd(l);
    } else {
      var l: Label :| Internal(l) && Enabled(t.f, l);
      s := Fwd(l);
    }
  }

  /** Such a run to the end exists from every state. */
  lemma {:induction false} TasksRunOut(t: Tunnel) returns (run: seq<Step>)
    requires TunnelOk(t)
    ensures TCan(t, run) && AllByTasks(run) && TQuiet(TAfter(t, run))
    decreases TMeasure(t)
  {
    if TQuiet(t) {
      run := [];
    } else {
      var s := SomeTaskMoves(t);
      StepKeepsOk(t, s);
      TaskStepsUseWork(t, s);
      var rest := TasksRunOut(TNext(t, s));
      run := PrependStep(t, s, rest);
    }
  }

  lemma PrependStep(t: Tunnel, s: Step, rest: seq<Step>) returns (run: seq<Step>)
    requires TunnelOk(t) && TEnabled(t, s) && TunnelOk(TNext(t, s)) && TCan(TNext(t, s), rest)
    requires ByTask(s) && AllByTasks(rest)
    ensures TCan(t, run) && AllByTasks(run) && TAfter(t, run) == TAfter(TNext(t, s), rest)
  {
    run := [s] + rest;
    assert run[0] == s && run[1..] == rest;
  }

  // ------------------------------------------------------------ runs of a kind

  /** Without errors: only packets arriving, devices ending and the tasks' own steps. One way only:
      moreover no packet arrives backward and the TUN there does not end, and the packets that
      arrive forward are inside the frame limit. */
  datatype Regime = NoErrors | OneWayOnly

  predicate Allowed(r: Regime, s: Step) {
    match r
    case NoErrors => !s.l.Kill?
    case OneWayOnly => ByTask(s) || (s.Fwd? && (s.l.SrcEnd? || (s.l.Pull? && |s.l.packet| <= MAX_FRAME_LEN)))
  }

  /** The run, of that kind, leads from t to u. */
  ghost predicate Leads(r: Regime, t: Tunnel, run: seq<Step>, u: Tunnel)
    decreases |run|
  {
    && TunnelOk(t)
    && if run == [] then t == u
       else TEnabled(t, run[0]) && Allowed(r, run[0]) && Leads(r, TNext(t, run[0]), run[1..], u)
  }

  lemma {:induction false} LeadsIsARun(r: Regime, t: Tunnel, run: seq<Step>, u: Tunnel)
    requires Leads(r, t, run, u)
    ensures TCan(t, run) && TAfter(t, run) == u && TunnelOk(u)
    ensures forall i :: 0 <= i < |run| ==> Allowed(r, run[i])
    decreases |run|
  {
    if run != [] { LeadsIsARun(r, TNext(t, run[0]), run[1..], u); }
  }

  lemma {:induction false} TasksLead(r: Regime, t: Tunnel, run: seq<Step>)
    requires TunnelOk(t) && TCan(t, run) && AllByTasks(run)
    ensures Leads(r, t, run, TAfter(t, run))
    decreases |run|
  {
    if run != [] {
      assert ByTask(run[0]);
      StepKeepsOk(t, run[0]);
      forall i | 0 <= i < |run| - 1 ensures ByTask(run[1..][i]) { assert ByTask(run[i + 1]); }
      TasksLead(r, TNext(t, run[0]), run[1..]);
    }
  }

  lemma Prepended(r: Regime, t: Tunnel, s: Step, rest: seq<Step>, u: Tunnel)
    requires TunnelOk(t) && TEnabled(t, s) && Allowed(r, s) && Leads(r, TNext(t, s), rest, u)
    ensures Leads(r, t, [s] + rest, u)
  {
    assert ([s] + rest)[1..] == rest;
  }

  lemma {:induction false} Joins(r: Regime, t: Tunnel, a: seq<Step>, u: Tunnel, b: seq<Step>, v: Tunnel)
    returns (run: seq<Step>)
    requires Leads(r, t, a, u) && Leads(r, u, b, v)
    ensures Leads(r, t, run, v)
    decreases |a|
  {
    if a == [] {
      run := b;
    } else {
      var rest := Joins(r, TNext(t, a[0]), a[1..], u, b, v);
      Prepended(r, t, a[0], rest, v);
      run := [a[0]] + rest;
    }
  }
}
