/** Traffic in one direction only. With nothing on its way back, no select ever cancels a task that
    still has something to forward, and closing at the source loses nothing, in whatever order the
    tasks of both directions run. */
module OneWay {
  import opened Framing
  import Line
  import opened Relay
  import opened RelaySafety
  import opened RelayProgress
  import opened RelayClose
  import opened RelayLoss
  import opened Tunnel
  import opened TunnelLoss
  import opened Deployment

  // ------------------------------------------------------------ the invariant

  ghost predicate LiveUpTo(s: State, k: nat)
    requires k <= |s.line|
  {
    s.srcLive && forall j :: 0 <= j < k ==> s.line[j].live
  }

  /** Everything before a running task that a select watches still runs. Only the rats-tls pumps,
      which no select watches, run on behind a task that has ended. */
  ghost predicate LiveAbove(s: State) {
    && (forall k: nat :: k < |s.line| && Tied(s.line[k].kind) && s.line[k].live ==> LiveUpTo(s, k))
    && (s.decLive ==> LiveUpTo(s, |s.line|))
    && (s.snkLive ==> s.decLive)
  }

  /** The copies pass the ENTGs in ascending order forward and in descending order backward. */
  ghost predicate NodesInOrder(l: seq<Line.Hop>, up: bool) {
    forall i, j ::
      0 <= i < j < |l| && l[i].kind.Copy? && l[j].kind.Copy? ==> Precedes(l[i].kind.node, l[j].kind.node, up)
  }

  predicate Precedes(a: nat, b: nat, up: bool) { if up then a < b else b < a }

  ghost predicate HasKind(l: seq<Line.Hop>, k: Line.Kind) { exists i :: 0 <= i < |l| && l[i].kind == k }

  ghost predicate Crossed(l: seq<Line.Hop>, m: seq<Line.Hop>) {
    && NodesInOrder(l, true) && NodesInOrder(m, false)
    && forall j :: 0 <= j < |m| && m[j].kind.Copy? ==> HasKind(l, m[j].kind)
  }

  /** Forward nothing has been lost; backward there is nothing. */
  ghost predicate OneWayOk(t: Tunnel) {
    && TunnelOk(t) && Crossed(t.f.line, t.b.line)
    && Tidy(t.f) && AllFit(t.f.pulled)
    && SnkClear(t.b) && LiveAbove(t.b)
  }

  lemma CrossedStays(l: seq<Line.Hop>, m: seq<Line.Hop>, l': seq<Line.Hop>, m': seq<Line.Hop>)
    requires Crossed(l, m) && Line.NoRevival(l, l') && Line.NoRevival(m, m')
    ensures Crossed(l', m')
  {
    forall i | 0 <= i < |l| ensures l'[i].kind == l[i].kind { assert Line.SameHop(l[i], l'[i]); }
    forall j | 0 <= j < |m| ensures m'[j].kind == m[j].kind { assert Line.SameHop(m[j], m'[j]); }
    forall j | 0 <= j < |m'| && m'[j].kind.Copy? ensures HasKind(l', m'[j].kind) {
      assert HasKind(l, m[j].kind);
      var i :| 0 <= i < |l| && l[i].kind == m[j].kind;
      assert l'[i].kind == m'[j].kind;
    }
  }

  // ------------------------------------------------------------ a step backward

  lemma TiedReadsLive(s: State, i: nat)
    requires LiveAbove(s) && 0 < i < |s.line| && s.line[i].live
    ensures Tied(s.line[i].kind) ==> s.line[i - 1].live
  {
    assert Tied(s.line[i].kind) ==> LiveUpTo(s, i);
  }

  /** A direction that holds nothing and has no gaps can do one thing by itself: a pump that finds
      the end of its input ends. */
  lemma IdleStepIsEnd(s: State, l: Label)
    requires ShapeOk(s) && SnkClear(s) && LiveAbove(s) && Enabled(s, l) && Internal(l)
    ensures l.Move? && l.a.End? && !Tied(s.line[l.a.i].kind) && !s.line[l.a.i - 1].live
  {
    assert s.line[0].live ==> LiveUpTo(s, 0);
    if l.Move? && l.a.End? { TiedReadsLive(s, l.a.i); }
  }

  lemma IdleEndKeeps(s: State, i: nat)
    requires SnkClear(s) && LiveAbove(s) && Enabled(s, Move(Line.End(i)))
    ensures SnkClear(Next(s, Move(Line.End(i)))) && LiveAbove(Next(s, Move(Line.End(i))))
  {
    var t := Next(s, Move(Line.End(i)));
    forall k: nat | k < |t.line| && Tied(t.line[k].kind) && t.line[k].live ensures LiveUpTo(t, k) {
      assert LiveUpTo(s, k);
    }
  }

  /** When the tied tasks have ended together, the selects have nothing more to cancel. */
  lemma TiedCancelsNothing(x: State, y: State)
    requires Ties(x, y) && ShapeOk(y)
    ensures Next(y, Cancelled(x, y)) == y
  {
    var k := Cancelled(x, y);
    var m := Line.Kill(y.line, k.hops);
    forall j | 0 <= j < |y.line| ensures m[j] == y.line[j] {
      assert Line.HopOk(y.line[j]);
    }
    assert m == y.line;
  }

  lemma PumpEndKeepsTies(x: State, y: State, i: nat)
    requires Ties(x, y) && Enabled(y, Move(Line.End(i))) && !Tied(y.line[i].kind)
    requires y.line[0].kind.Framer?
    ensures Ties(Next(y, Move(Line.End(i))), x)
  {
    var y' := Next(y, Move(Line.End(i)));
    forall j | 0 <= j < |y.line| && Tied(y.line[j].kind) ensures y'.line[j] == y.line[j] {}
    assert y'.line[0].live == y.line[0].live;
  }

  lemma BackwardStep(t: Tunnel, l: Label)
    requires OneWayOk(t) && Enabled(t.b, l) && Internal(l)
    ensures OneWayOk(TNext(t, Bwd(l))) && TNext(t, Bwd(l)).f == t.f
  {
    StepKeepsOk(t, Bwd(l));
    IdleStepIsEnd(t.b, l);
    var i := l.a.i;
    IdleEndKeeps(t.b, i);
    PumpEndKeepsTies(t.f, t.b, i);
    TiedCancelsNothing(Next(t.b, l), t.f);
    LineStays(t.b, l);
    CrossedStays(t.f.line, t.b.line, t.f.line, TNext(t, Bwd(l)).b.line);
  }

  // ------------------------------------------------------------ a step forward

  lemma ClearStays(s: State, l: Label)
    requires SnkClear(s) && l.Kill?
    ensures SnkClear(Next(s, l))
  {
    var m := Line.Kill(s.line, l.hops);
    forall j | 0 <= j < |m| ensures m[j].buf == [] && m[j].pipe == [] {}
  }

  /** A copy whose twin lies behind a running task of an orderly direction is not cancelled. */
  lemma TwinBehindLives(x: State, q: nat, m: seq<Line.Hop>, j: nat, k: nat)
    requires EndedFromSource(x) && q < |x.line| && x.line[q].live
    requires NodesInOrder(x.line, true) && NodesInOrder(m, false) && HopsDiffer(x.line)
    requires j < k < |m| && m[j].kind.Copy? && m[k].kind.Copy? && x.line[q].kind == m[k].kind
    ensures !CopyEnded(x.line, m[j].kind.node)
  {
    LiveFromHere(x, q);
  }

  lemma NobodyCancelled(x: State, y: State)
    requires EndedFromSource(x) && x.line[0].live
    ensures forall j :: j !in CancelledHops(x, y)
    ensures x.snkLive
  {
    LiveFromHere(x, 0);
  }

  /** What the selects leave of the other direction after an orderly step still has no gaps. */
  lemma CancelKeepsLiveAbove(x: State, y: State)
    requires EndedFromSource(x) && LiveAbove(y) && Crossed(x.line, y.line) && HopsDiffer(x.line)
    requires y.line != [] && (forall i :: 0 <= i < |y.line| && y.line[i].kind.Framer? ==> i == 0)
    requires Ties(x, Next(y, Cancelled(x, y)))
    ensures LiveAbove(Next(y, Cancelled(x, y)))
  {
    var k := Cancelled(x, y);
    var z := Next(y, k);
    if z.decLive { NobodyCancelled(x, y); }
    forall i: nat | i < |z.line| && Tied(z.line[i].kind) && z.line[i].live ensures LiveUpTo(z, i) {
      assert LiveUpTo(y, i);
      UpstreamLeft(x, y, i);
    }
    if z.decLive {
      assert LiveUpTo(y, |y.line|);
      assert LiveUpTo(z, |z.line|);
    }
  }

  lemma UpstreamLeft(x: State, y: State, i: nat)
    requires EndedFromSource(x) && Crossed(x.line, y.line) && HopsDiffer(x.line)
    requires y.line != [] && (forall j :: 0 <= j < |y.line| && y.line[j].kind.Framer? ==> j == 0)
    requires Ties(x, Next(y, Cancelled(x, y))) && i < |y.line| && LiveUpTo(y, i)
    requires Tied(y.line[i].kind) && Next(y, Cancelled(x, y)).line[i].live
    ensures LiveUpTo(Next(y, Cancelled(x, y)), i)
  {
    var z := Next(y, Cancelled(x, y));
    if i > 0 {
      assert HasKind(x.line, y.line[i].kind);
      var q :| 0 <= q < |x.line| && x.line[q].kind == y.line[i].kind;
      assert x.line[q].live == z.line[i].live;
      LiveFromHere(x, q);
      forall j | 0 <= j < i ensures z.line[j].live {
        if j != 0 && y.line[j].kind.Copy? { TwinBehindLives(x, q, y.line, j, i); }
      }
    }
  }

  lemma ForwardTidy(s: State, l: Label)
    requires Tidy(s) && AllFit(s.pulled) && Enabled(s, l) && Allowed(OneWayOnly, Fwd(l))
    ensures Tidy(Next(s, l)) && AllFit(Next(s, l).pulled) && Orderly(l)
  {
    if Internal(l) { TidyTasksAreOrderly(s, l); }
    OrderlyStep(s, l);
  }

  lemma BackwardSuffers(x: State, y: State)
    requires EndedFromSource(x) && SnkClear(y) && LiveAbove(y) && ShapeOk(y)
    requires Crossed(x.line, y.line) && HopsDiffer(x.line) && Ties(x, Next(y, Cancelled(x, y)))
    ensures var z := Next(y, Cancelled(x, y)); SnkClear(z) && LiveAbove(z) && Crossed(x.line, z.line)
  {
    var k := Cancelled(x, y);
    LineStays(y, k);
    CrossedStays(x.line, y.line, x.line, Next(y, k).line);
    ClearStays(y, k);
    CancelKeepsLiveAbove(x, y);
  }

  lemma ForwardStep(t: Tunnel, l: Label)
    requires OneWayOk(t) && Enabled(t.f, l) && Allowed(OneWayOnly, Fwd(l))
    ensures OneWayOk(TNext(t, Fwd(l))) && Orderly(l)
  {
    var x := Next(t.f, l);
    StepKeepsOk(t, Fwd(l));
    ForwardTidy(t.f, l);
    LineStays(t.f, l);
    CrossedStays(t.f.line, t.b.line, x.line, t.b.line);
    BackwardSuffers(x, t.b);
  }

  // ------------------------------------------------------------ runs

  /** In every run with nothing on its way back, whatever the order of the tasks, no select ever
      cancels a running task of the forward direction. */
  lemma {:induction false} OneWayRun(t: Tunnel, run: seq<Step>, u: Tunnel)
    requires OneWayOk(t) && Leads(OneWayOnly, t, run, u)
    ensures OneWayOk(u)
    ensures TCan(t, run) && ForwardBranchFinishes(t, run)
    decreases |run|
  {
    if run != [] {
      match run[0] {
        case Fwd(l) => ForwardStep(t, l);
        case Bwd(l) => BackwardStep(t, l);
      }
      OneWayRun(TNext(t, run[0]), run[1..], u);
    }
  }

  /** So nothing is lost; and when no task can move any more, all that was pulled is delivered, and
      the tunnel either runs on everywhere or, if the TUN has ended, has ended everywhere. */
  lemma OneWayDelivers(t: Tunnel, run: seq<Step>, u: Tunnel)
    requires OneWayOk(t) && Leads(OneWayOnly, t, run, u)
    ensures u.f.delivered + Inflight(u.f) == u.f.pulled
    ensures TQuiet(u) ==> u.f.delivered == u.f.pulled
    ensures TQuiet(u) ==> if u.f.srcLive then AllRunning(u) else AllEnded(u.f) && AllEnded(u.b)
  {
    OneWayRun(t, run, u);
    if TQuiet(u) { AllOrNothing(u); }
  }

  lemma OneWayIsIntact(t: Tunnel, run: seq<Step>, u: Tunnel)
    requires OneWayOk(t) && Leads(OneWayOnly, t, run, u)
    ensures TCan(t, run) && Intact(t, run, true)
  {
    OneWayRun(t, run, u);
    LeadsIsARun(OneWayOnly, t, run, u);
    TidyIsSnug(t.f);
    NothingLostIff(t, run, true);
  }

  // ------------------------------------------------------------ from the start

  lemma {:induction false} ChainInOrder(w: seq<Line.Kind>, links: seq<Link>, room: nat, up: bool)
    requires |w| == |links|
    requires forall i, j :: 0 <= i < j < |w| && w[i].Copy? && w[j].Copy? ==> Precedes(w[i].node, w[j].node, up)
    requires forall i :: 0 <= i < |w| ==> Tied(w[i])
    ensures NodesInOrder(Chain(w, links, room), up)
  {
    if links != [] {
      ChainInOrder(w[1..], links[1..], room, up);
      ChainKinds(w[1..], links[1..], room);
      var h, t := LinkHops(w[0], links[0], room), Chain(w[1..], links[1..], room);
      var l := h + t;
      forall i, j | 0 <= i < j < |l| && l[i].kind.Copy? && l[j].kind.Copy?
        ensures Precedes(l[i].kind.node, l[j].kind.node, up)
      {
        assert Tied(w[0]);
        assert j >= |h|;
        assert Tied(t[j - |h|].kind);
        if i < |h| { assert i == 0; }
      }
    }
  }

  lemma CopiesOfDeploy(links: seq<Link>, room: nat)
    ensures Crossed(Deploy(links, room).f.line, Deploy(links, room).b.line)
  {
    var n := |links|;
    ChainInOrder(ForwardWriters(n), links, room, true);
    ChainInOrder(BackwardWriters(n), Reversed(links), room, false);
    var l, m := Deploy(links, room).f.line, Deploy(links, room).b.line;
    ChainKinds(BackwardWriters(n), Reversed(links), room);
    forall j | 0 <= j < |m| && m[j].kind.Copy? ensures HasKind(l, m[j].kind) {
      assert Tied(m[j].kind);
      assert m[j].kind in BackwardWriters(n);
      var i := WriterIsThere(ForwardWriters(n), links, room, m[j].kind.node);
    }
  }

  lemma DeployOneWay(links: seq<Link>, room: nat)
    requires links != [] && 1 <= room && LinksOk(links)
    ensures OneWayOk(Deploy(links, room))
  {
    DeployOk(links, room);
    CopiesOfDeploy(links, room);
    InitialTidy(Deploy(links, room).f);
  }

  /** Closing one way, over every chain of connections and from the start: whatever packets inside
      the limit are pulled, whenever the TUN ends, and in whatever order all tasks run. */
  lemma OneWayClose(links: seq<Link>, room: nat, run: seq<Step>, u: Tunnel)
    requires links != [] && 1 <= room && LinksOk(links)
    requires Leads(OneWayOnly, Deploy(links, room), run, u)
    ensures u.f.delivered + Inflight(u.f) == u.f.pulled
    ensures TQuiet(u) ==> u.f.delivered == u.f.pulled
    ensures TQuiet(u) && !u.f.srcLive ==> AllEnded(u.f) && AllEnded(u.b)
  {
    DeployOneWay(links, room);
    OneWayDelivers(Deploy(links, room), run, u);
  }

  // ------------------------------------------------------------ such runs exist

  lemma TaskKeepsSource(t: Tunnel, s: Step)
    requires OneWayOk(t) && TEnabled(t, s) && ByTask(s)
    ensures OneWayOk(TNext(t, s))
    ensures TNext(t, s).f.pulled == t.f.pulled && TNext(t, s).f.srcLive == t.f.srcLive
  {
    match s {
      case Fwd(l) => ForwardStep(t, l);
      case Bwd(l) => BackwardStep(t, l);
    }
  }

  lemma {:induction false} TasksKeepSource(t: Tunnel, run: seq<Step>)
    requires OneWayOk(t) && TCan(t, run) && AllByTasks(run)
    ensures OneWayOk(TAfter(t, run))
    ensures TAfter(t, run).f.pulled == t.f.pulled && TAfter(t, run).f.srcLive == t.f.srcLive
    decreases |run|
  {
    if run != [] {
      assert ByTask(run[0]);
      TaskKeepsSource(t, run[0]);
      forall i | 0 <= i < |run| - 1 ensures ByTask(run[1..][i]) { assert ByTask(run[i + 1]); }
      TasksKeepSource(TNext(t, run[0]), run[1..]);
    }
  }

  lemma Settle(t: Tunnel) returns (run: seq<Step>, u: Tunnel)
    requires OneWayOk(t)
    ensures Leads(OneWayOnly, t, run, u) && OneWayOk(u) && TQuiet(u)
    ensures u.f.pulled == t.f.pulled && u.f.srcLive == t.f.srcLive
  {
    run := TasksRunOut(t);
    u := TAfter(t, run);
    TasksLead(OneWayOnly, t, run);
    TasksKeepSource(t, run);
  }

  lemma SettledIsIdle(t: Tunnel)
    requires OneWayOk(t) && TQuiet(t)
    ensures t.f.srcHeld == []
    ensures t.f.delivered == t.f.pulled
    ensures !t.f.srcLive ==> AllEnded(t.f) && AllEnded(t.b)
  {
    QuietSrc(t.f);
    OneWayDelivers(t, [], t);
  }

  /** One step of the outside, and then the tasks until nothing moves. */
  lemma StepAndSettle(t: Tunnel, l: Label) returns (run: seq<Step>, u: Tunnel)
    requires OneWayOk(t) && Enabled(t.f, l) && !Internal(l) && Allowed(OneWayOnly, Fwd(l))
    ensures Leads(OneWayOnly, t, run, u) && OneWayOk(u) && TQuiet(u)
    ensures u.f.pulled == Next(t.f, l).pulled && u.f.srcLive == Next(t.f, l).srcLive
  {
    ForwardStep(t, l);
    var rest;
    rest, u := Settle(TNext(t, Fwd(l)));
    Prepended(OneWayOnly, t, Fwd(l), rest, u);
    run := [Fwd(l)] + rest;
  }

  /** All of ps was pulled and delivered, nothing moves, and the TUN may yield more. */
  ghost predicate Sent(t: Tunnel, ps: seq<Packet>) {
    OneWayOk(t) && TQuiet(t) && t.f.srcLive && t.f.pulled == ps
  }

  lemma SendOne(t: Tunnel, ps: seq<Packet>, p: Packet) returns (run: seq<Step>, u: Tunnel)
    requires Sent(t, ps) && |p| <= MAX_FRAME_LEN
    ensures Leads(OneWayOnly, t, run, u) && Sent(u, ps + [p])
  {
    SettledIsIdle(t);
    run, u := StepAndSettle(t, Pull(p));
  }

  lemma FitsSnoc(ps: seq<Packet>, qs: seq<Packet>)
    requires AllFit(ps) && qs < ps
    ensures |ps[|qs|]| <= MAX_FRAME_LEN && qs + [ps[|qs|]] <= ps
  {
  }

  /** Having sent some of ps, the rest. */
  lemma {:induction false} SendAll(t: Tunnel, done: seq<Packet>, ps: seq<Packet>) returns (run: seq<Step>, u: Tunnel)
    requires Sent(t, done) && AllFit(ps) && done <= ps
    ensures Leads(OneWayOnly, t, run, u) && Sent(u, ps)
    decreases |ps| - |done|
  {
    if |done| == |ps| {
      run, u := [], t;
    } else {
      FitsSnoc(ps, done);
      var a, v := SendOne(t, done, ps[|done|]);
      var b;
      b, u := SendAll(v, done + [ps[|done|]], ps);
      run := Joins(OneWayOnly, t, a, v, b, u);
    }
  }

  lemma EndAndSettle(t: Tunnel, ps: seq<Packet>) returns (run: seq<Step>, u: Tunnel)
    requires Sent(t, ps)
    ensures Leads(OneWayOnly, t, run, u)
    ensures u.f.pulled == ps && u.f.delivered == ps && AllEnded(u.f) && AllEnded(u.b)
  {
    SettledIsIdle(t);
    run, u := StepAndSettle(t, SrcEnd);
    SettledIsIdle(u);
  }

  /** For every chain of connections and every list of packets inside the limit there is such a run
      from the start: all of them are pulled, the TUN ends, all of them are delivered, and every
      task of both directions has ended. */
  lemma EveryListIsCarried(links: seq<Link>, room: nat, ps: seq<Packet>) returns (run: seq<Step>, u: Tunnel)
    requires links != [] && 1 <= room && LinksOk(links) && AllFit(ps)
    ensures Leads(OneWayOnly, Deploy(links, room), run, u)
    ensures u.f.pulled == ps && u.f.delivered == ps && AllEnded(u.f) && AllEnded(u.b)
  {
    var t := Deploy(links, room);
    DeployOneWay(links, room);
    var a, v := Settle(t);
    assert Sent(v, []);
    var b, w := SendAll(v, [], ps);
    var c;
    c, u := EndAndSettle(w, ps);
    var ab := Joins(OneWayOnly, t, a, v, b, w);
    run := Joins(OneWayOnly, t, ab, w, c, u);
  }
}
