/** Progress of one direction: what the tasks do by themselves always ends, and it only ends
    when nothing is left to do. */
module RelayProgress {
  import opened Wrappers
  import opened Framing
  import Line
  import opened Relay
  import opened RelaySafety

  // ------------------------------------------------------------ a measure

  /** Bytes the packets will take on the stream. */
  function Cost(ps: seq<Packet>): nat {
    if ps == [] then 0 else HEADER_LEN + |ps[0]| + Cost(ps[1..])
  }

  lemma {:induction false} CostConcat(ps: seq<Packet>, qs: seq<Packet>)
    ensures Cost(ps + qs) == Cost(ps) + Cost(qs)
  {
    if ps == [] {
      assert ps + qs == qs;
    } else {
      assert (ps + qs)[1..] == ps[1..] + qs;
      CostConcat(ps[1..], qs);
    }
  }

  /** Work left on the byte side, with packets of cost a held by from_tun, packets of cost b held
      and queued before the line, and d bytes in the decoder: every byte, also of packets not yet
      framed, counts once for each place it has to leave. */
  function ByteWork(a: nat, b: nat, l: seq<Line.Hop>, d: nat): nat {
    a + b + Line.Work(l, b) + (b + Line.Bytes(l) + d)
  }

  /** A decoded packet counts three, two or one, depending on how far it has come. */
  function PacketWork(s: State): nat { 3 * |s.decHeld| + 2 * |s.inQ| + |s.snkHeld| }

  function EndTasks(s: State): nat { One(s.srcLive) + One(s.decLive) + One(s.snkLive) }

  /** Cost of what waits before the line. */
  function Waiting(s: State): nat { Cost(s.srcHeld) + Cost(s.outQ) }

  /** Work left in the direction; a running task counts one. */
  function Measure(s: State): nat {
    EndTasks(s) + ByteWork(Cost(s.srcHeld), Waiting(s), s.line, |s.decBuf|) + PacketWork(s)
  }

  lemma LessBeforeLine(a: nat, b: nat, a': nat, b': nat, l: seq<Line.Hop>, d: nat)
    requires a' < a && b' <= b
    ensures ByteWork(a', b', l, d) < ByteWork(a, b, l, d)
  {
    Line.WorkMonotone(l, b', b);
  }

  lemma SrcUsesWork(s: State, l: Label)
    requires Enabled(s, l) && (l.SrcSend? || l.SrcBreak?)
    ensures Measure(Next(s, l)) < Measure(s)
  {
    var t := Next(s, l);
    CostConcat(s.outQ, s.srcHeld);
    LessBeforeLine(Cost(s.srcHeld), Waiting(s), Cost(t.srcHeld), Waiting(t), s.line, |s.decBuf|);
  }

  lemma LoadUsesWork(a: nat, b: nat, l: seq<Line.Hop>, e: seq<byte>, d: nat)
    requires l != [] && l[0].buf == [] && 0 < |e| <= b
    ensures ByteWork(a, b - |e|, l[0 := l[0].(buf := e)], d) < ByteWork(a, b, l, d)
  {
    assert l[0 := l[0].(buf := e)][1..] == l[1..];
  }

  lemma RecvUsesWork(s: State)
    requires Enabled(s, EncRecv)
    ensures Measure(Next(s, EncRecv)) < Measure(s)
  {
    var e := Encode(s.outQ[0]);
    assert Cost(s.outQ) == |e| + Cost(s.outQ[1..]);
    LoadUsesWork(Cost(s.srcHeld), Waiting(s), s.line, e, |s.decBuf|);
  }

  lemma KillUsesWork(a: nat, b: nat, b': nat, l: seq<Line.Hop>, dead: set<nat>, d: nat)
    requires b' <= b
    ensures ByteWork(a, b', Line.Kill(l, dead), d) <= ByteWork(a, b, l, d)
    ensures l != [] && l[0].live && 0 in dead ==> ByteWork(a, b', Line.Kill(l, dead), d) < ByteWork(a, b, l, d)
  {
    Line.WorkOfKill(l, dead, b, b');
  }

  lemma FramerEndUsesWork(s: State, l: Label)
    requires Enabled(s, l) && (l.EncTooBig? || l.EncEnd?)
    ensures Measure(Next(s, l)) < Measure(s)
  {
    KillUsesWork(Cost(s.srcHeld), Waiting(s), Waiting(Next(s, l)), s.line, {0}, |s.decBuf|);
  }

  lemma {:induction false} DrainUsesWork(l: seq<Line.Hop>, k: nat, c: nat)
    requires l != [] && 1 <= k <= |l[|l| - 1].pipe|
    ensures var n := |l| - 1;
            var m := l[n := l[n].(pipe := l[n].pipe[k..])];
            Line.Work(m, c) < Line.Work(l, c) && Line.Bytes(m) == Line.Bytes(l) - k
  {
    var n := |l| - 1;
    var m := l[n := l[n].(pipe := l[n].pipe[k..])];
    if n == 0 {
      assert m[1..] == l[1..];
    } else {
      DrainUsesWork(l[1..], k, c + Line.Held(l[0]));
      assert m[1..] == l[1..][n - 1 := l[n].(pipe := l[n].pipe[k..])];
    }
  }

  lemma DecUsesWork(s: State, l: Label)
    requires Enabled(s, l)
    requires l.DecFetch? || l.DecFrame? || l.DecBad? || l.DecEnd? || l.DecSend? || l.DecBreak?
    ensures Measure(Next(s, l)) < Measure(s)
  {
    if l.DecFetch? { DrainUsesWork(s.line, l.k, Waiting(s)); }
  }

  lemma MoveUsesWork(s: State, a: Line.Action)
    requires Enabled(s, Move(a))
    ensures Measure(Next(s, Move(a))) < Measure(s)
  {
    Line.WorkDecreases(s.line, s.decLive, a, Waiting(s));
  }

  lemma SnkUsesWork(s: State, l: Label)
    requires ShapeOk(s) && Enabled(s, l) && (l.SnkRecv? || l.SnkDeliver? || l.SnkEnd?)
    ensures Measure(Next(s, l)) < Measure(s)
  {
  }

  /** Every step a task takes by itself strictly lowers the measure. */
  lemma InternalStepsUseWork(s: State, l: Label)
    requires ShapeOk(s) && Enabled(s, l) && Internal(l)
    ensures Measure(Next(s, l)) < Measure(s)
  {
    match l {
      case SrcSend => SrcUsesWork(s, l);
      case SrcBreak => SrcUsesWork(s, l);
      case EncRecv => RecvUsesWork(s);
      case EncTooBig => FramerEndUsesWork(s, l);
      case EncEnd => FramerEndUsesWork(s, l);
      case Move(a) => MoveUsesWork(s, a);
      case SnkRecv => SnkUsesWork(s, l);
      case SnkDeliver => SnkUsesWork(s, l);
      case SnkEnd => SnkUsesWork(s, l);
      case _ => DecUsesWork(s, l);
    }
  }

  /** What a packet adds to the work: its bytes on the stream, for every place on its way. */
  function PullWork(hops: nat, p: Packet): nat { (HEADER_LEN + |p|) * (2 * hops + 3) }

  lemma PullAddsWork(s: State, p: Packet)
    requires Enabled(s, Pull(p))
    ensures Measure(Next(s, Pull(p))) == Measure(s) + PullWork(|s.line|, p)
  {
    var c := HEADER_LEN + |p|;
    assert Cost([p]) == c;
    Line.WorkOfMore(s.line, Waiting(s), c);
    Spread(c, |s.line|);
  }

  lemma Spread(c: nat, n: nat)
    ensures c * (2 * n + 3) == 3 * c + 2 * (n * c)
  {
  }

  /** So a run without outside steps is no longer than the measure. */
  lemma {:induction false} InternalRunsAreBounded(s: State, run: seq<Label>)
    requires ShapeOk(s) && Can(s, run) && AllInternal(run)
    ensures ShapeOk(After(s, run)) && |run| + Measure(After(s, run)) <= Measure(s)
    decreases |run|
  {
    if run != [] {
      assert Internal(run[0]);
      ShapeKept(s, run[0]);
      InternalStepsUseWork(s, run[0]);
      forall i | 0 <= i < |run| - 1 ensures Internal(run[1..][i]) { assert Internal(run[i + 1]); }
      InternalRunsAreBounded(Next(s, run[0]), run[1..]);
    }
  }

  // ------------------------------------------------------------ when nothing moves

  /** No task can take a step by itself. */
  ghost predicate Quiet(s: State) {
    forall l: Label :: Internal(l) ==> !Enabled(s, l)
  }

  lemma QuietSnk(s: State)
    requires ShapeOk(s) && Quiet(s) && s.snkLive
    ensures s.snkHeld == [] && s.inQ == [] && s.decLive
  {
    assert !Enabled(s, SnkDeliver) && !Enabled(s, SnkRecv) && !Enabled(s, SnkEnd);
  }

  lemma QuietDec(s: State)
    requires ShapeOk(s) && Quiet(s) && s.decLive
    ensures s.decHeld == [] && Front(s.decBuf).NeedMore? && s.LastPipe() == [] && s.LastLive()
  {
    if s.snkLive { QuietSnk(s); }
    assert !Enabled(s, DecSend) && !Enabled(s, DecBreak);
    assert !Enabled(s, DecFrame) && !Enabled(s, DecBad);
    assert !Enabled(s, DecFetch(1)) && !Enabled(s, DecEnd);
  }

  lemma {:induction false} QuietHop(s: State, i: nat)
    requires ShapeOk(s) && Quiet(s) && i < |s.line| && s.line[i].live
    ensures s.line[i].buf == []
    ensures i > 0 ==> s.line[i - 1].live && s.line[i - 1].pipe == []
    decreases |s.line| - i
  {
    assert Line.HopOk(s.line[i]);
    assert !Enabled(s, Move(Line.Break(i))) && !Enabled(s, Move(Line.Emit(i, 1)));
    assert !Enabled(s, Move(Line.Fetch(i, 1))) && !Enabled(s, Move(Line.End(i)));
    if s.line[i].buf != [] {
      if i + 1 < |s.line| { QuietHop(s, i + 1); } else { QuietDec(s); }
    }
  }

  lemma QuietFramer(s: State)
    requires ShapeOk(s) && Quiet(s) && s.line[0].live
    ensures s.outQ == [] && s.srcLive
  {
    QuietHop(s, 0);
    assert !Enabled(s, EncRecv) && !Enabled(s, EncTooBig) && !Enabled(s, EncEnd);
  }

  lemma QuietSrc(s: State)
    requires ShapeOk(s) && Quiet(s)
    ensures s.srcHeld == []
  {
    if s.srcLive && s.line[0].live { QuietFramer(s); }
    assert !Enabled(s, SrcSend) && !Enabled(s, SrcBreak);
  }

  /** What each loop of an ENTA waits for, and nothing else. from_tun, holding a packet, waits while
      128 are queued and to_entg runs; to_entg between frames while nothing is queued and from_tun
      runs; from_entg, holding a packet, while 128 are queued and to_tun runs, and otherwise while
      it lacks bytes and the last pipe is empty and written to; to_tun while nothing is queued and
      from_entg runs. */
  lemma LoopsWaitFor(s: State)
    requires ShapeOk(s)
    ensures s.srcLive && s.srcHeld != [] ==> (|s.outQ| == 128 && s.line[0].live <==> Idles(s, FromTun))
    ensures s.FramerIdle() ==> (s.outQ == [] && s.srcLive <==> Idles(s, HopTask(0)))
    ensures s.decLive && s.decHeld != [] ==> (|s.inQ| == 128 && s.snkLive <==> Idles(s, FromEntg))
    ensures s.decLive && s.decHeld == []
            ==> (Front(s.decBuf).NeedMore? && s.LastPipe() == [] && s.LastLive() <==> Idles(s, FromEntg))
    ensures s.decLive && s.decHeld == [] && Front(s.decBuf).NeedMore?
            ==> forall k: nat :: 1 <= k <= |s.LastPipe()| <==> Enabled(s, DecFetch(k))
    ensures s.snkLive ==> (s.snkHeld == [] && s.inQ == [] && s.decLive <==> Idles(s, ToTun))
  {
    if s.srcLive && s.srcHeld != [] { FromTunWaits(s); }
    if s.FramerIdle() { ToEntgWaits(s); }
    if s.decLive { FromEntgWaits(s); }
    if s.snkLive { ToTunWaits(s); }
  }

  /** The task can take no step by itself. */
  ghost predicate Idles(s: State, k: Task) {
    forall l: Label :: Internal(l) && Actor(l) == k ==> !Enabled(s, l)
  }

  lemma FromTunWaits(s: State)
    requires ShapeOk(s) && s.srcLive && s.srcHeld != []
    ensures |s.outQ| == 128 && s.line[0].live <==> Idles(s, FromTun)
  {
    assert Internal(SrcSend) && Actor(SrcSend) == FromTun;
    assert Internal(SrcBreak) && Actor(SrcBreak) == FromTun;
  }

  lemma ToEntgWaits(s: State)
    requires ShapeOk(s) && s.FramerIdle()
    ensures s.outQ == [] && s.srcLive <==> Idles(s, HopTask(0))
  {
    assert Internal(EncRecv) && Actor(EncRecv) == HopTask(0);
    assert Internal(EncTooBig) && Actor(EncTooBig) == HopTask(0);
    assert Internal(EncEnd) && Actor(EncEnd) == HopTask(0);
  }

  lemma FromEntgWaits(s: State)
    requires ShapeOk(s) && s.decLive
    ensures s.decHeld != [] ==> (|s.inQ| == 128 && s.snkLive <==> Idles(s, FromEntg))
    ensures s.decHeld == []
            ==> (Front(s.decBuf).NeedMore? && s.LastPipe() == [] && s.LastLive() <==> Idles(s, FromEntg))
  {
    assert Internal(DecSend) && Actor(DecSend) == FromEntg;
    assert Internal(DecBreak) && Actor(DecBreak) == FromEntg;
    assert Internal(DecFrame) && Actor(DecFrame) == FromEntg;
    assert Internal(DecBad) && Actor(DecBad) == FromEntg;
    assert Internal(DecFetch(1)) && Actor(DecFetch(1)) == FromEntg;
    assert Internal(DecEnd) && Actor(DecEnd) == FromEntg;
  }

  lemma ToTunWaits(s: State)
    requires ShapeOk(s) && s.snkLive
    ensures s.snkHeld == [] && s.inQ == [] && s.decLive <==> Idles(s, ToTun)
  {
    assert Internal(SnkRecv) && Actor(SnkRecv) == ToTun;
    assert Internal(SnkDeliver) && Actor(SnkDeliver) == ToTun;
    assert Internal(SnkEnd) && Actor(SnkEnd) == ToTun;
  }

  /** The loops of an ENTA are sequential: whatever the others do, one of them never has two
      different things it could do next. A send in particular either waits, succeeds or fails. */
  lemma OneThingNext(s: State, l: Label, m: Label)
    requires ShapeOk(s) && Internal(l) && Internal(m) && !l.Move? && !m.Move? && Actor(l) == Actor(m)
    requires Enabled(s, l) && Enabled(s, m)
    ensures l == m || (l.DecFetch? && m.DecFetch?)
  {
  }

  /** from_tun takes any packet, or the end of the device, whenever it holds none, however full the
      rest is. */
  lemma SourceIsAlwaysRead(s: State, p: Packet)
    requires s.srcLive && s.srcHeld == []
    ensures Enabled(s, Pull(p)) && Enabled(s, SrcEnd)
    ensures Next(s, Pull(p)).srcHeld == [p]
  {
  }

  /** Every task has ended. */
  ghost predicate AllEnded(s: State) {
    !s.srcLive && (forall i :: 0 <= i < |s.line| ==> !s.line[i].live) && !s.decLive && !s.snkLive
  }

  lemma {:induction false} QuietUpstream(s: State, i: nat)
    requires ShapeOk(s) && Quiet(s) && i < |s.line| && s.line[i].live
    ensures s.srcLive
    ensures forall j :: 0 <= j <= i ==> s.line[j].live && s.line[j].buf == []
    ensures forall j :: 0 <= j < i ==> s.line[j].pipe == []
  {
    QuietHop(s, i);
    if i == 0 { QuietFramer(s); } else { QuietUpstream(s, i - 1); }
  }

  /** Nothing is stuck: when no task can move, a direction whose source has ended has ended
      altogether, ... */
  lemma QuietAndClosed(s: State)
    requires ShapeOk(s) && Quiet(s) && !s.srcLive
    ensures AllEnded(s)
  {
    if s.snkLive { QuietSnk(s); }
    if s.decLive { QuietDec(s); }
    forall i | 0 <= i < |s.line| ensures !s.line[i].live {
      if s.line[i].live { QuietUpstream(s, i); }
    }
  }

  /** ... and a direction whose sink still runs is open end to end and holds nothing at all. */
  lemma QuietAndOpen(s: State)
    requires ShapeOk(s) && StreamOk(s) && Quiet(s) && s.snkLive
    ensures Carrying(s) && Inflight(s) == [] && Stream(s) == []
    ensures s.srcHeld == [] && s.outQ == [] && s.decHeld == [] && s.inQ == [] && s.snkHeld == []
  {
    QuietSnk(s);
    QuietDec(s);
    var n := |s.line| - 1;
    QuietUpstream(s, n);
    QuietFramer(s);
    QuietSrc(s);
    EmptyLine(s.line);
    assert Stream(s) == s.decBuf;
    NoFrames();
  }

  /** No deadlock: as long as to_tun runs, a state that holds anything anywhere, be it a packet,
      a byte or part of a frame, has a task that can move, however full the buffers are. */
  lemma SomethingInFlightMoves(s: State) returns (l: Label)
    requires ShapeOk(s) && StreamOk(s) && s.snkLive
    requires Inflight(s) != [] || Stream(s) != [] || s.srcHeld != [] || s.outQ != [] || !Carrying(s)
    ensures Internal(l) && Enabled(s, l) && Measure(Next(s, l)) < Measure(s)
  {
    if Quiet(s) { QuietAndOpen(s); }
    l :| Internal(l) && Enabled(s, l);
    InternalStepsUseWork(s, l);
  }

  /** From every state the tasks can run on until nothing moves. */
  lemma {:induction false} RunsToQuiet(s: State) returns (run: seq<Label>)
    requires ShapeOk(s)
    ensures Can(s, run) && AllInternal(run) && Quiet(After(s, run))
    decreases Measure(s)
  {
    if Quiet(s) {
      run := [];
    } else {
      var l: Label :| Internal(l) && Enabled(s, l);
      ShapeKept(s, l);
      InternalStepsUseWork(s, l);
      var rest := RunsToQuiet(Next(s, l));
      run := PrependLabel(s, l, rest);
    }
  }

  lemma PrependLabel(s: State, l: Label, rest: seq<Label>) returns (run: seq<Label>)
    requires Enabled(s, l) && Internal(l) && Can(Next(s, l), rest) && AllInternal(rest)
    ensures Can(s, run) && AllInternal(run) && After(s, run) == After(Next(s, l), rest)
  {
    run := [l] + rest;
    assert run[1..] == rest;
  }
}
