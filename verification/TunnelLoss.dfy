/** What a tunnel can lose, exactly, and the way the selects lose it. */
module TunnelLoss {
  import opened Framing
  import Line
  import opened Relay
  import opened RelaySafety
  import opened RelayProgress
  import RelayClose
  import opened RelayLoss
  import opened Tunnel
  import opened Deployment

  // ------------------------------------------------------------ the exact condition

  function Side(t: Tunnel, forward: bool): State { if forward then t.f else t.b }

  /** What a step is to one direction: a step of its own, or what the selects cancel in it because
      of a step of the other. */
  ghost function Felt(t: Tunnel, s: Step, forward: bool): Label
    requires TunnelOk(t) && TEnabled(t, s)
  {
    if s.Fwd? == forward then s.l
    else (StepKeepsOk(t, s); Cancelled(Side(TNext(t, s), !forward), Side(t, forward)))
  }

  lemma StepFelt(t: Tunnel, s: Step, forward: bool)
    requires TunnelOk(t) && TEnabled(t, s)
    ensures Enabled(Side(t, forward), Felt(t, s, forward))
    ensures Side(TNext(t, s), forward) == Next(Side(t, forward), Felt(t, s, forward))
  {
  }

  /** Everything one direction does or suffers in the run loses nothing: packets are read while all
      its tasks run, none is refused, and each cancellation or error, from inside or by a select,
      hits a task that holds nothing and has nothing waiting before it. */
  ghost predicate Intact(t: Tunnel, run: seq<Step>, forward: bool)
    requires TunnelOk(t) && TCan(t, run)
    decreases |run|
  {
    run != [] ==>
      (StepKeepsOk(t, run[0]);
       && LosesNothing(Side(t, forward), Felt(t, run[0], forward))
       && Intact(TNext(t, run[0]), run[1..], forward))
  }

  /** The steps one direction takes in a run of both. */
  ghost function FeltRun(t: Tunnel, run: seq<Step>, forward: bool): seq<Label>
    requires TunnelOk(t) && TCan(t, run)
    decreases |run|
  {
    if run == [] then []
    else (StepKeepsOk(t, run[0]); [Felt(t, run[0], forward)] + FeltRun(TNext(t, run[0]), run[1..], forward))
  }

  lemma {:induction false} RunFelt(t: Tunnel, run: seq<Step>, forward: bool)
    requires TunnelOk(t) && TCan(t, run)
    ensures var own := FeltRun(t, run, forward);
            && Can(Side(t, forward), own)
            && After(Side(t, forward), own) == Side(TAfter(t, run), forward)
            && (RunLosesNothing(Side(t, forward), own) <==> Intact(t, run, forward))
    decreases |run|
  {
    if run != [] {
      StepKeepsOk(t, run[0]);
      StepFelt(t, run[0], forward);
      RunFelt(TNext(t, run[0]), run[1..], forward);
      assert FeltRun(t, run, forward)[1..] == FeltRun(TNext(t, run[0]), run[1..], forward);
    }
  }

  /** Nothing is lost in a direction, by any run of both, if and only if the run leaves it intact;
      and once its to_tun has ended that is when everything pulled has been delivered. */
  lemma NothingLostIff(t: Tunnel, run: seq<Step>, forward: bool)
    requires TunnelOk(t) && TCan(t, run) && Snug(Side(t, forward))
    ensures var u := Side(TAfter(t, run), forward);
            && (u.delivered + Inflight(u) == u.pulled <==> Intact(t, run, forward))
            && (!u.snkLive ==> (u.delivered == u.pulled <==> Intact(t, run, forward)))
  {
    RunFelt(t, run, forward);
    RunLosesNothingIff(Side(t, forward), FeltRun(t, run, forward));
  }

  lemma TidyIsSnug(s: State)
    requires RelayClose.Tidy(s)
    ensures Snug(s)
  {
  }

  /** The same from the start, over any number of ENTGs and any mix of connections. */
  lemma DeployedLosesNothingIff(links: seq<Link>, room: nat, run: seq<Step>, forward: bool)
    requires links != [] && 1 <= room && LinksOk(links)
    requires (DeployOk(links, room); TCan(Deploy(links, room), run))
    ensures (DeployOk(links, room);
             var u := Side(TAfter(Deploy(links, room), run), forward);
             && (u.delivered + Inflight(u) == u.pulled <==> Intact(Deploy(links, room), run, forward))
             && (!u.snkLive ==> (u.delivered == u.pulled <==> Intact(Deploy(links, room), run, forward))))
  {
    var t := Deploy(links, room);
    DeployOk(links, room);
    RelayClose.InitialTidy(Side(t, forward));
    TidyIsSnug(Side(t, forward));
    NothingLostIff(t, run, forward);
  }

  // ------------------------------------------------------------ what a select can lose

  /** When to_entg goes, what is queued for it goes too. */
  lemma FramerGoneLosesQueue(s: State, l: Label)
    requires Good(s) && Line.Open(s.line) && s.decLive && s.snkLive && l.Kill? && 0 in l.hops
    ensures |Inflight(Next(s, l))| + |s.outQ| <= |Inflight(s)|
    ensures Next(s, l).pulled == s.pulled && Next(s, l).delivered == s.delivered
  {
    var t := Next(s, l);
    KillStream(s, l.hops);
    assert !t.line[0].live;
    if t.decLive { FramesMonotone(Stream(t), Stream(s)); }
  }

  lemma OnlySinkCancelled(x: State, y: State)
    requires x.line != [] && Line.Open(x.line) && x.decLive && x.snkLive
    ensures Cancelled(x, y) == Kill(false, {}, false, !x.srcLive)
  {
    var k := Cancelled(x, y);
    forall j | j in k.hops ensures false {}
  }

  lemma KillNothing(l: seq<Line.Hop>)
    ensures Line.Kill(l, {}) == l
  {
  }

  lemma SinkKilled(y: State)
    ensures Next(y, Kill(false, {}, false, true)) == y.(snkLive := false, snkHeld := [])
  {
    KillNothing(y.line);
  }

  /** With every task running, the end of the near TUN cancels to_tun there and nothing else. */
  lemma SourceEndCancelsSink(t: Tunnel)
    requires t.f.line != [] && t.b.line != [] && AllRunning(t) && t.f.srcHeld == []
    ensures TEnabled(t, Fwd(SrcEnd))
    ensures TNext(t, Fwd(SrcEnd)) == Tunnel(t.f.(srcLive := false), t.b.(snkLive := false, snkHeld := []))
  {
    OnlySinkCancelled(t.f.(srcLive := false), t.b);
    SinkKilled(t.b);
  }

  /** What the end of from_entg does to the other direction. */
  lemma DecBreakStep(v: Tunnel)
    requires v.f.line != [] && v.b.line != [] && Enabled(v.b, DecBreak)
    ensures var k := Cancelled(Next(v.b, DecBreak), v.f);
            k.Kill? && 0 in k.hops && TNext(v, Bwd(DecBreak)).f == Next(v.f, k)
  {
  }

  /** from_entg, holding a packet for a to_tun that is gone, returns and takes to_entg along. */
  lemma ReaderGoneCancelsFramer(v: Tunnel)
    requires Good(v.f) && Line.Open(v.f.line) && v.f.decLive && v.f.snkLive
    requires v.f.line != [] && v.b.line != [] && Enabled(v.b, DecBreak)
    ensures var f := TNext(v, Bwd(DecBreak)).f;
            && f.pulled == v.f.pulled && f.delivered == v.f.delivered
            && |Inflight(f)| + |v.f.outQ| <= |Inflight(v.f)|
  {
    DecBreakStep(v);
    FramerGoneLosesQueue(v.f, Cancelled(Next(v.b, DecBreak), v.f));
  }

  lemma GoodIsBounded(s: State)
    requires Good(s)
    ensures |s.delivered| + |Inflight(s)| <= |s.pulled|
  {
    assert |s.delivered + Inflight(s)| <= |s.pulled|;
  }

  /** Why "nothing is lost" needs its condition. If the near TUN ends while to_entg still has
      queued packets and from_entg holds a packet, then from_entg finds to_tun gone, returns
      first, and its select cancels to_entg: two steps, no error anywhere, and the queue is
      lost. */
  lemma SelectCanDropTheQueue(t: Tunnel)
    requires Good(t.f) && t.f.line != [] && t.b.line != []
    requires AllRunning(t) && t.f.srcHeld == [] && t.f.outQ != [] && t.b.decHeld != []
    ensures TEnabled(t, Fwd(SrcEnd))
    ensures var v := TNext(t, Fwd(SrcEnd));
            && v.f.line != [] && v.b.line != [] && TEnabled(v, Bwd(DecBreak))
            && var u := TNext(v, Bwd(DecBreak));
            && u.f.pulled == t.f.pulled && u.f.delivered == t.f.delivered
            && |u.f.delivered| + |Inflight(u.f)| + |t.f.outQ| <= |u.f.pulled|
            && u.f.delivered + Inflight(u.f) < u.f.pulled
  {
    SourceEndCancelsSink(t);
    StepGood(t.f, SrcEnd);
    var v := TNext(t, Fwd(SrcEnd));
    ReaderGoneCancelsFramer(v);
    GoodIsBounded(v.f);
    var k := Cancelled(Next(v.b, DecBreak), v.f);
    DecBreakStep(v);
    StepGood(v.f, k);
    ProperPrefix(Next(v.f, k));
  }

  lemma ProperPrefix(s: State)
    requires Good(s) && |s.delivered| + |Inflight(s)| < |s.pulled|
    ensures s.delivered + Inflight(s) < s.pulled
  {
  }

  /** A run in which the forward direction suffers no fault, and no select cancels a running
      task of it: in each select along the way the forward branch is the one that finishes. */
  ghost predicate ForwardBranchFinishes(t: Tunnel, run: seq<Step>)
    requires TunnelOk(t) && TCan(t, run)
    decreases |run|
  {
    run != [] ==>
      (StepKeepsOk(t, run[0]);
       && (if run[0].Fwd? then Orderly(run[0].l) else TNext(t, run[0]).f == t.f)
       && ForwardBranchFinishes(TNext(t, run[0]), run[1..]))
  }

  /** Then nothing pulled into the forward direction is lost, whatever becomes of the other:
      it is all delivered or in flight, and all delivered once the far to_tun has ended. */
  lemma {:induction false} ForwardLosesNothing(t: Tunnel, run: seq<Step>)
    requires TunnelOk(t) && TCan(t, run) && RelayClose.Tidy(t.f) && ForwardBranchFinishes(t, run)
    ensures var u := TAfter(t, run).f;
            && RelayClose.Tidy(u)
            && u.delivered + Inflight(u) == u.pulled
            && (!u.snkLive ==> u.delivered == u.pulled)
    decreases |run|
  {
    if run != [] {
      StepKeepsOk(t, run[0]);
      if run[0].Fwd? { RelayClose.OrderlyStep(t.f, run[0].l); }
      ForwardLosesNothing(TNext(t, run[0]), run[1..]);
    }
  }

  // ------------------------------------------------------------ such a loss, from the start

  lemma Untouched(y: State)
    ensures Next(y, Kill(false, {}, false, false)) == y
  {
    KillNothing(y.line);
  }

  function Alone(l: Label, forward: bool): Step { if forward then Fwd(l) else Bwd(l) }

  function WithSide(t: Tunnel, forward: bool, s: State): Tunnel { if forward then Tunnel(s, t.b) else Tunnel(t.f, s) }

  /** A step after which every task of its direction still runs does nothing to the other one. */
  lemma StepAlone(t: Tunnel, l: Label, forward: bool)
    requires TunnelOk(t) && Enabled(Side(t, forward), l) && Carrying(Next(Side(t, forward), l))
    ensures TunnelOk(TNext(t, Alone(l, forward)))
    ensures TNext(t, Alone(l, forward)) == WithSide(t, forward, Next(Side(t, forward), l))
  {
    var v := Next(Side(t, forward), l);
    StepKeepsOk(t, Alone(l, forward));
    ShapeKept(Side(t, forward), l);
    OnlySinkCancelled(v, Side(t, !forward));
    Untouched(Side(t, !forward));
  }

  /** Nothing has come as far as the decoder's output. */
  ghost predicate Undelivered(s: State) { s.delivered == [] && s.snkHeld == [] && s.inQ == [] }

  ghost predicate OnItsWay(s: State) {
    RelayClose.Tidy(s) && AllFit(s.pulled) && s.pulled != [] && s.srcLive && Undelivered(s)
  }

  /** Until from_entg holds a packet some task can move, and no task ends. */
  lemma TaskBeforeDelivery(s: State) returns (l: Label)
    requires OnItsWay(s) && s.decHeld == []
    ensures Internal(l) && Enabled(s, l)
    ensures OnItsWay(Next(s, l)) && Carrying(Next(s, l)) && Measure(Next(s, l)) < Measure(s)
  {
    RelayClose.SourceLiveIsCarrying(s);
    if Quiet(s) { QuietAndOpen(s); }
    l :| Internal(l) && Enabled(s, l);
    RelayClose.TidyTasksAreOrderly(s, l);
    RelayClose.OrderlyStep(s, l);
    InternalStepsUseWork(s, l);
    RelayClose.SourceLiveIsCarrying(Next(s, l));
  }

  /** A packet pulled into the backward direction comes to be held by from_entg, by steps of the
      tasks of that direction alone. */
  lemma {:induction false} PacketReachesDecoder(t: Tunnel) returns (run: seq<Step>, u: Tunnel)
    requires TunnelOk(t) && OnItsWay(t.b)
    ensures Leads(NoErrors, t, run, u) && u.f == t.f && Carrying(u.b) && u.b.decHeld != []
    decreases Measure(t.b)
  {
    if t.b.decHeld != [] {
      RelayClose.SourceLiveIsCarrying(t.b);
      run, u := [], t;
    } else {
      var l := TaskBeforeDelivery(t.b);
      StepAlone(t, l, false);
      var rest;
      rest, u := PacketReachesDecoder(TNext(t, Bwd(l)));
      Prepended(NoErrors, t, Bwd(l), rest, u);
      run := [Bwd(l)] + rest;
    }
  }

  lemma PullStarts(s: State, q: Packet)
    requires RelayClose.Tidy(s) && s.srcLive && s.srcHeld == [] && Undelivered(s) && s.pulled == []
    requires |q| <= MAX_FRAME_LEN
    ensures Enabled(s, Pull(q)) && OnItsWay(Next(s, Pull(q))) && Carrying(Next(s, Pull(q)))
  {
    RelayClose.OrderlyStep(s, Pull(q));
    RelayClose.SourceLiveIsCarrying(Next(s, Pull(q)));
  }

  lemma BackwardArrival(t: Tunnel, q: Packet) returns (run: seq<Step>, u: Tunnel)
    requires TunnelOk(t) && Initial(t.b) && |q| <= MAX_FRAME_LEN
    ensures Leads(NoErrors, t, run, u) && u.f == t.f && Carrying(u.b) && u.b.decHeld != []
  {
    RelayClose.InitialTidy(t.b);
    PullStarts(t.b, q);
    StepAlone(t, Pull(q), false);
    var rest;
    rest, u := PacketReachesDecoder(TNext(t, Bwd(Pull(q))));
    Prepended(NoErrors, t, Bwd(Pull(q)), rest, u);
    run := [Bwd(Pull(q))] + rest;
  }

  lemma TwoSteps(t: Tunnel, a: Step, b: Step)
    requires TunnelOk(t) && TEnabled(t, a) && TunnelOk(TNext(t, a)) && TEnabled(TNext(t, a), b)
    requires !a.l.Kill? && !b.l.Kill?
    ensures Leads(NoErrors, t, [a] + ([b] + []), TNext(TNext(t, a), b))
  {
    var u := TNext(t, a);
    StepKeepsOk(u, b);
    Prepended(NoErrors, u, b, [], TNext(u, b));
    Prepended(NoErrors, t, a, [b] + [], TNext(u, b));
  }

  lemma ForwardArrival(t: Tunnel, p: Packet) returns (run: seq<Step>, u: Tunnel)
    requires TunnelOk(t) && Initial(t.f)
    ensures Leads(NoErrors, t, run, u) && u.b == t.b
    ensures Carrying(u.f) && u.f.srcHeld == [] && u.f.outQ == [p] && u.f.pulled == [p]
  {
    StepAlone(t, Pull(p), true);
    StepAlone(TNext(t, Fwd(Pull(p))), SrcSend, true);
    TwoSteps(t, Fwd(Pull(p)), Fwd(SrcSend));
    run := [Fwd(Pull(p))] + ([Fwd(SrcSend)] + []);
    u := TNext(TNext(t, Fwd(Pull(p))), Fwd(SrcSend));
  }

  lemma SelectDrops(t: Tunnel) returns (run: seq<Step>, u: Tunnel)
    requires TunnelOk(t) && AllRunning(t) && t.f.srcHeld == [] && t.f.outQ != [] && t.b.decHeld != []
    ensures Leads(NoErrors, t, run, u)
    ensures u.f.pulled == t.f.pulled && u.f.delivered + Inflight(u.f) < u.f.pulled
  {
    SelectCanDropTheQueue(t);
    StepKeepsOk(t, Fwd(SrcEnd));
    TwoSteps(t, Fwd(SrcEnd), Bwd(DecBreak));
    run := [Fwd(SrcEnd)] + ([Bwd(DecBreak)] + []);
    u := TNext(TNext(t, Fwd(SrcEnd)), Bwd(DecBreak));
  }

  lemma ArriveAndDrop(t: Tunnel, p: Packet) returns (run: seq<Step>, u: Tunnel)
    requires TunnelOk(t) && Initial(t.f) && Carrying(t.b) && t.b.decHeld != []
    ensures Leads(NoErrors, t, run, u)
    ensures u.f.pulled == [p] && u.f.delivered + Inflight(u.f) < u.f.pulled
  {
    var a, b, v;
    a, v := ForwardArrival(t, p);
    LeadsIsARun(NoErrors, t, a, v);
    b, u := SelectDrops(v);
    run := Joins(NoErrors, t, a, v, b, u);
  }

  lemma BelowOne<T>(a: seq<T>, b: seq<T>, c: T)
    requires a + b < [c]
    ensures a == [] && b == []
  {
    assert |a + b| == 0;
  }

  /** Over every chain of connections there is a run from the start, without any error, in which
      a packet that arrived in time is lost: a packet comes back the other way, one is queued
      here, this TUN ends, and the select takes the wrong branch. */
  lemma QueueLostFromStart(links: seq<Link>, room: nat, p: Packet, q: Packet) returns (run: seq<Step>, u: Tunnel)
    requires links != [] && 1 <= room && LinksOk(links) && |q| <= MAX_FRAME_LEN
    ensures Leads(NoErrors, Deploy(links, room), run, u)
    ensures u.f.pulled == [p] && u.f.delivered == [] && Inflight(u.f) == []
  {
    var t := Deploy(links, room);
    DeployOk(links, room);
    var a, v := BackwardArrival(t, q);
    LeadsIsARun(NoErrors, t, a, v);
    var b;
    b, u := ArriveAndDrop(v, p);
    run := Joins(NoErrors, t, a, v, b, u);
    BelowOne(u.f.delivered, Inflight(u.f), p);
  }
}
