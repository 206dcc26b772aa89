/** Who holds the rats-tls handle, from negotiate_async to the end of its last task. The handle
    and the socket are shared through a counter; letting go of the last share cleans up. The
    async function, the negotiating task and the two pumps take steps in any order. */
module Session {
  import opened Wrappers

  datatype Holder = Owner | Negotiator | Writer | Reader

  /** Where negotiate_async is. */
  datatype Phase = Converting | Awaiting | Negotiated | WriterSpawned | Returned(ok: bool) | Cancelled

  datatype Verdict = Unknown | Ok | Bad

  datatype Event = Used(caller: Holder) | Cleanup

  datatype State = State(phase: Phase, shares: nat, holders: set<Holder>, verdict: Verdict, log: seq<Event>)

  datatype Step =
    | ConvertFails                     // the socket cannot be taken over: self is dropped
    | Share                            // Arc::new, a clone moves into the negotiating task
    | Negotiate(ok: bool)              // the foreign call of that task
    | NegotiatorEnds                   // its closure is dropped, run or (at shutdown) not
    | Cancel                           // the future is dropped
    | SeesFailure | SeesSuccess        // the await returns
    | SpawnWriter                      // a clone moves into the writer
    | SpawnReader                      // the remaining share moves into the reader
    | Work(who: Holder)                // transmit, receive or socket shutdown by a pump
    | Ends(who: Holder)                // a pump returns

  function Initial(): State { State(Converting, 1, {Owner}, Unknown, []) }

  /** Dropping a share; the last one takes the handle with it. */
  function Release(s: State, h: Holder): State
    requires s.shares >= 1
  {
    s.(shares := s.shares - 1, holders := s.holders - {h},
       log := if s.shares == 1 then s.log + [Cleanup] else s.log)
  }

  function Clone(s: State, h: Holder): State {
    s.(shares := s.shares + 1, holders := s.holders + {h})
  }

  predicate Enabled(s: State, l: Step) {
    match l
    case ConvertFails => s.phase.Converting?
    case Share => s.phase.Converting?
    case Negotiate(_) => Negotiator in s.holders && s.verdict.Unknown?
    case NegotiatorEnds => Negotiator in s.holders
    case Cancel => s.phase.Converting? || s.phase.Awaiting?
    case SeesFailure => s.phase.Awaiting? && Negotiator !in s.holders && !s.verdict.Ok?
    case SeesSuccess => s.phase.Awaiting? && Negotiator !in s.holders && s.verdict.Ok?
    case SpawnWriter => s.phase.Negotiated?
    case SpawnReader => s.phase.WriterSpawned?
    case Work(h) => (h.Writer? || h.Reader?) && h in s.holders
    case Ends(h) => (h.Writer? || h.Reader?) && h in s.holders
  }

  function Next(s: State, l: Step): State
    requires Enabled(s, l) && s.shares >= 1
  {
    match l
    case ConvertFails => Release(s, Owner).(phase := Returned(false))
    case Share => Clone(s, Negotiator).(phase := Awaiting)
    case Negotiate(ok) => s.(verdict := if ok then Ok else Bad, log := s.log + [Used(Negotiator)])
    case NegotiatorEnds => Release(s, Negotiator)
    case Cancel => Release(s, Owner).(phase := Cancelled)
    case SeesFailure => Release(s, Owner).(phase := Returned(false))
    case SeesSuccess => s.(phase := Negotiated)
    case SpawnWriter => Clone(s, Writer).(phase := WriterSpawned)
    case SpawnReader => s.(phase := Returned(true), holders := s.holders - {Owner} + {Reader})
    case Work(h) => s.(log := s.log + [Used(h)])
    case Ends(h) => Release(s, h)
  }

  // ------------------------------------------------------------ the invariant

  predicate OwnerHolds(p: Phase) { p.Converting? || p.Awaiting? || p.Negotiated? || p.WriterSpawned? }

  /** Who can hold a share while negotiate_async is where it is. */
  predicate Fits(holders: set<Holder>, p: Phase) {
    && (Owner in holders <==> OwnerHolds(p))
    && (Negotiator in holders ==> p.Awaiting? || p.Cancelled?)
    && (Writer in holders ==> p.WriterSpawned? || p == Returned(true))
    && (Reader in holders ==> p == Returned(true))
  }

  /** The negotiation is over and negotiate_async goes on to the pumps, or has returned the stream. */
  predicate HasStream(p: Phase) { p.Negotiated? || p.WriterSpawned? || p == Returned(true) }

  ghost predicate UsesOnly(log: seq<Event>) { forall i :: 0 <= i < |log| ==> log[i].Used? }

  /** The counter is the number of holders, and the log is uses only while there is one, and
      uses followed by one clean-up once there is none. */
  ghost predicate Inv(s: State) {
    && s.shares == |s.holders|
    && Fits(s.holders, s.phase)
    && (HasStream(s.phase) ==> s.verdict.Ok?)
    && (s.holders != {} ==> UsesOnly(s.log))
    && (s.holders == {} ==> s.log != [] && s.log[|s.log| - 1] == Cleanup && UsesOnly(s.log[..|s.log| - 1]))
  }

  /** Letting go of a share by one that does hold it. */
  lemma ReleaseKeeps(s: State, h: Holder, p: Phase)
    requires Inv(s) && h in s.holders && Fits(s.holders - {h}, p) && (HasStream(p) ==> s.verdict.Ok?)
    ensures s.shares >= 1 && Inv(Release(s, h).(phase := p))
  {
    assert s.holders == (s.holders - {h}) + {h};
    var t := Release(s, h);
    if t.holders == {} {
      assert t.log[..|t.log| - 1] == s.log;
    }
  }

  lemma CloneKeeps(s: State, h: Holder, p: Phase)
    requires Inv(s) && s.holders != {} && h !in s.holders && Fits(s.holders + {h}, p)
    requires HasStream(p) ==> s.verdict.Ok?
    ensures Inv(Clone(s, h).(phase := p))
  {
  }

  lemma MoveKeeps(s: State)
    requires Inv(s) && s.phase.WriterSpawned?
    ensures s.shares >= 1 && Inv(Next(s, SpawnReader))
  {
    assert Owner in s.holders;
    var rest := s.holders - {Owner};
    assert s.holders == rest + {Owner};
    assert |rest + {Reader}| == |rest| + 1;
  }

  lemma HeldWhenEnabled(s: State, l: Step)
    requires Inv(s) && Enabled(s, l)
    ensures s.holders != {} && s.shares >= 1
  {
    assert OwnerHolds(s.phase) ==> Owner in s.holders;
  }

  lemma StepKeeps(s: State, l: Step)
    requires Inv(s) && Enabled(s, l)
    ensures s.shares >= 1 && Inv(Next(s, l))
  {
    HeldWhenEnabled(s, l);
    match l {
      case ConvertFails => ReleaseKeeps(s, Owner, Returned(false));
      case Share => CloneKeeps(s, Negotiator, Awaiting);
      case NegotiatorEnds => ReleaseKeeps(s, Negotiator, s.phase);
      case Cancel => ReleaseKeeps(s, Owner, Cancelled);
      case SeesFailure => ReleaseKeeps(s, Owner, Returned(false));
      case SpawnWriter => CloneKeeps(s, Writer, WriterSpawned);
      case SpawnReader => MoveKeeps(s);
      case Ends(h) => ReleaseKeeps(s, h, s.phase);
      case _ =>
    }
  }

  // ------------------------------------------------------------ runs

  ghost predicate Can(s: State, run: seq<Step>)
    requires Inv(s)
    decreases |run|
  {
    run == [] || (Enabled(s, run[0]) && (StepKeeps(s, run[0]); Can(Next(s, run[0]), run[1..])))
  }

  ghost function After(s: State, run: seq<Step>): State
    requires Inv(s) && Can(s, run)
    decreases |run|
  {
    if run == [] then s else (StepKeeps(s, run[0]); After(Next(s, run[0]), run[1..]))
  }

  function Cleanups(log: seq<Event>): nat {
    if log == [] then 0 else Cleanups(log[..|log| - 1]) + if log[|log| - 1].Cleanup? then 1 else 0
  }

  lemma {:induction false} NoCleanups(log: seq<Event>)
    requires UsesOnly(log)
    ensures Cleanups(log) == 0
  {
    if log != [] { NoCleanups(log[..|log| - 1]); }
  }

  lemma InitialInv()
    ensures Inv(Initial())
  {
  }

  lemma {:induction false} RunKeeps(s: State, run: seq<Step>)
    requires Inv(s) && Can(s, run)
    ensures Inv(After(s, run))
    decreases |run|
  {
    if run != [] {
      StepKeeps(s, run[0]);
      RunKeeps(Next(s, run[0]), run[1..]);
    }
  }

  /** On every run, in whatever order things happen: the handle is cleaned up once if nobody
      holds it any more and not at all while somebody does, and no call is made on it
      afterwards. */
  lemma CleanedUpOnceAfterLastUse(run: seq<Step>)
    requires Inv(Initial()) && Can(Initial(), run)
    ensures var t := After(Initial(), run);
            && Cleanups(t.log) == (if t.holders == {} then 1 else 0)
            && t.shares == |t.holders|
            && (forall i :: 0 <= i < |t.log| - 1 ==> !t.log[i].Cleanup?)
  {
    RunKeeps(Initial(), run);
    var t := After(Initial(), run);
    if t.holders == {} {
      NoCleanups(t.log[..|t.log| - 1]);
      forall i | 0 <= i < |t.log| - 1 ensures !t.log[i].Cleanup? { assert t.log[..|t.log| - 1][i].Used?; }
    } else {
      NoCleanups(t.log);
    }
  }

  // ------------------------------------------------------------ what the negotiation decides

  /** The foreign call was made and returned success, or failure. */
  ghost predicate Said(run: seq<Step>, ok: bool) { exists i :: 0 <= i < |run| && run[i] == Negotiate(ok) }

  lemma SaidCons(run: seq<Step>, ok: bool)
    requires run != []
    ensures Said(run, ok) <==> run[0] == Negotiate(ok) || Said(run[1..], ok)
  {
    if Said(run, ok) {
      var i :| 0 <= i < |run| && run[i] == Negotiate(ok);
      if i > 0 { assert run[1..][i - 1] == Negotiate(ok); }
    }
    if Said(run[1..], ok) {
      var i :| 0 <= i < |run| - 1 && run[1..][i] == Negotiate(ok);
      assert run[i + 1] == Negotiate(ok);
    }
  }

  /** The verdict is what the call returned; it is made once. */
  lemma {:induction false} VerdictIsTheCalls(s: State, run: seq<Step>)
    requires Inv(s) && Can(s, run)
    ensures After(s, run).verdict.Ok? <==> s.verdict.Ok? || Said(run, true)
    ensures After(s, run).verdict.Bad? <==> s.verdict.Bad? || Said(run, false)
    decreases |run|
  {
    if run != [] {
      StepKeeps(s, run[0]);
      SaidCons(run, true);
      SaidCons(run, false);
      VerdictIsTheCalls(Next(s, run[0]), run[1..]);
    }
  }

  lemma {:induction false} CallsNeedSuccess(s: State, run: seq<Step>, i: nat)
    requires Inv(s) && Can(s, run) && i < |run| && run[i].Work?
    ensures s.verdict.Ok? || Said(run[..i], true)
    decreases |run|
  {
    if i > 0 {
      StepKeeps(s, run[0]);
      CallsNeedSuccess(Next(s, run[0]), run[1..], i - 1);
      assert run[..i][1..] == run[1..][..i - 1];
      SaidCons(run[..i], true);
    }
  }

  /** On every run: negotiate_async goes on, and returns the stream, only if the foreign negotiation
      was carried out and succeeded; and no pump makes a call before that, so none ever does when
      it failed. */
  lemma StreamNeedsSuccess(run: seq<Step>)
    requires Inv(Initial()) && Can(Initial(), run)
    ensures HasStream(After(Initial(), run).phase) ==> Said(run, true)
    ensures forall i :: 0 <= i < |run| && run[i].Work? ==> Said(run[..i], true)
    ensures Said(run, true) ==> !Said(run, false)
  {
    RunKeeps(Initial(), run);
    VerdictIsTheCalls(Initial(), run);
    forall i | 0 <= i < |run| && run[i].Work? ensures Said(run[..i], true) {
      CallsNeedSuccess(Initial(), run, i);
    }
  }

  lemma NoCallsAfterFailure(run: seq<Step>)
    requires Inv(Initial()) && Can(Initial(), run) && Said(run, false)
    ensures forall i :: 0 <= i < |run| ==> !run[i].Work?
    ensures !HasStream(After(Initial(), run).phase)
  {
    StreamNeedsSuccess(run);
  }

  // ------------------------------------------------------------ every run gets there

  predicate Finishes(l: Step) { !l.Work? }

  function PhaseLeft(p: Phase): nat {
    match p
    case Converting => 4
    case Awaiting => 3
    case Negotiated => 2
    case WriterSpawned => 1
    case _ => 0
  }

  function Left(s: State): nat {
    4 * PhaseLeft(s.phase)
    + 2 * One(Negotiator in s.holders) + One(s.verdict.Unknown?) + One(Writer in s.holders) + One(Reader in s.holders)
  }

  lemma StepFinishes(s: State, l: Step)
    requires Inv(s) && Enabled(s, l) && Finishes(l)
    ensures s.shares >= 1 && Left(Next(s, l)) < Left(s)
  {
    HeldWhenEnabled(s, l);
  }

  lemma SomebodyCanFinish(s: State) returns (l: Step)
    requires Inv(s) && s.holders != {}
    ensures Enabled(s, l) && Finishes(l)
  {
    if Negotiator in s.holders { l := NegotiatorEnds; }
    else if Writer in s.holders { l := Ends(Writer); }
    else if Reader in s.holders { l := Ends(Reader); }
    else {
      var h :| h in s.holders;
      assert h.Owner?;
      l := if s.phase.Converting? then Share
           else if s.phase.Negotiated? then SpawnWriter
           else if s.phase.WriterSpawned? then SpawnReader
           else if s.verdict.Ok? then SeesSuccess else SeesFailure;
    }
  }

  /** From every reachable state the run can be finished, in at most Left steps other than
      calls, and then the handle is gone. */
  lemma {:induction false} HandleIsReleased(s: State) returns (run: seq<Step>)
    requires Inv(s)
    ensures Can(s, run) && |run| <= Left(s) && After(s, run).holders == {}
    decreases Left(s)
  {
    if s.holders == {} {
      run := [];
    } else {
      var l := SomebodyCanFinish(s);
      StepKeeps(s, l);
      StepFinishes(s, l);
      var rest := HandleIsReleased(Next(s, l));
      run := [l] + rest;
      assert run[1..] == rest;
    }
  }

  // ------------------------------------------------------------ the code

  lemma {:induction false} RunSnoc(s: State, run: seq<Step>, l: Step)
    requires Inv(s) && Can(s, run) && Enabled(After(s, run), l)
    ensures Inv(After(s, run)) && After(s, run).shares >= 1
    ensures Can(s, run + [l]) && After(s, run + [l]) == Next(After(s, run), l)
    decreases |run|
  {
    if run == [] {
      StepKeeps(s, l);
      assert [] + [l] == [l] && [l][1..] == [];
    } else {
      StepKeeps(s, run[0]);
      RunSnoc(Next(s, run[0]), run[1..], l);
      assert (run + [l])[1..] == run[1..] + [l];
    }
  }

  /** The counted handle itself. The ghost run records which step each operation stands for. */
  class Shared {
    var strong: nat
    var cleaned: nat
    ghost var run: seq<Step>

    ghost predicate Valid()
      reads this
    {
      && Inv(Initial()) && Can(Initial(), run) && Inv(Model())
      && strong == Model().shares
      && cleaned == (if Model().holders == {} then 1 else 0)
    }

    ghost function Model(): State
      reads this
      requires Inv(Initial()) && Can(Initial(), run)
    {
      After(Initial(), run)
    }

    constructor ()
      ensures Valid() && Model() == Initial()
    {
      strong, cleaned, run := 1, 0, [];
      InitialInv();
    }

    /** A step that leaves the counter alone. */
    ghost method Note(l: Step)
      requires Valid() && Enabled(Model(), l) && (l.Negotiate? || l.SeesSuccess? || l.SpawnReader? || l.Work?)
      modifies this`run
      ensures Valid() && old(Model()).shares >= 1 && Model() == Next(old(Model()), l)
    {
      RunKeeps(Initial(), run);
      RunSnoc(Initial(), run, l);
      HeldWhenEnabled(Model(), l);
      run := run + [l];
      RunKeeps(Initial(), run);
    }

    /** Arc::clone. */
    method Clone(ghost l: Step)
      requires Valid() && Enabled(Model(), l) && (l.Share? || l.SpawnWriter?)
      modifies this
      ensures Valid() && old(Model()).shares >= 1 && Model() == Next(old(Model()), l)
    {
      RunKeeps(Initial(), run);
      RunSnoc(Initial(), run, l);
      HeldWhenEnabled(Model(), l);
      strong := strong + 1;
      run := run + [l];
      RunKeeps(Initial(), run);
    }

    /** Dropping a share; at zero the foreign handle is cleaned up. */
    method Drop(ghost l: Step)
      requires Valid() && Enabled(Model(), l)
      requires l.ConvertFails? || l.NegotiatorEnds? || l.Cancel? || l.SeesFailure? || l.Ends?
      modifies this
      ensures Valid() && old(Model()).shares >= 1 && Model() == Next(old(Model()), l)
      ensures cleaned == old(cleaned) + if strong == 0 then 1 else 0
    {
      RunKeeps(Initial(), run);
      RunSnoc(Initial(), run, l);
      HeldWhenEnabled(Model(), l);
      strong := strong - 1;
      run := run + [l];
      RunKeeps(Initial(), run);
      if strong == 0 { cleaned := cleaned + 1; }
    }
  }

  datatype Outcome = Stream | Error | Dropped

  /** When the future of negotiate_async is dropped, if it is. */
  datatype Drop = NotDropped | BeforeFirstPoll | WhileNegotiating | BeforeResult

  /** What happens around one call of negotiate_async: when it is dropped, whether the socket can be
      taken over, whether the negotiating task is ever run, and what the foreign call returns. */
  datatype Fate = Fate(drop: Drop, converts: bool, runs: bool, succeeds: bool)

  /** The first half of negotiate_async: the negotiation in a task of its own. That task may
      still be running when the future is dropped; it may also never have been started. */
  method NegotiateInTask(h: Shared, fate: Fate) returns (r: Outcome)
    requires h.Valid() && h.Model() == Initial()
    modifies h
    ensures h.Valid()
    ensures r.Stream? <==> !(fate.drop.WhileNegotiating? || fate.drop.BeforeResult?) && fate.runs && fate.succeeds
    ensures r.Error? <==> !(fate.drop.WhileNegotiating? || fate.drop.BeforeResult?) && !(fate.runs && fate.succeeds)
    ensures r.Stream? ==> h.Model().phase.Negotiated? && h.Model().holders == {Owner} && h.strong == 1
    ensures r.Error? ==> h.Model().holders == {} && h.strong == 0
    ensures r.Dropped? ==> h.Model().holders <= {Negotiator} && h.strong <= 1
    // the verdict is what the call returned, if it was made
    ensures h.Model().verdict.Ok? ==> fate.runs && fate.succeeds
    ensures h.Model().verdict.Bad? ==> fate.runs && !fate.succeeds
  {
    h.Clone(Share);
    if fate.drop.WhileNegotiating? { h.Drop(Cancel); return Dropped; }
    if fate.runs { h.Note(Negotiate(fate.succeeds)); }
    h.Drop(NegotiatorEnds);
    if fate.drop.BeforeResult? { h.Drop(Cancel); return Dropped; }
    if !fate.runs || !fate.succeeds {
      h.Drop(SeesFailure);
      return Error;
    }
    h.Note(SeesSuccess);
    r := Stream;
  }

  /** negotiate_async, with every way out of it. */
  method NegotiateAsync(h: Shared, fate: Fate) returns (r: Outcome)
    requires h.Valid() && h.Model() == Initial()
    modifies h
    ensures h.Valid()
    // a future that is dropped in time ends there; otherwise the stream is returned if and only if
    // the socket was taken over and the negotiation was run and succeeded, else an error
    ensures r.Dropped? <==> fate.drop.BeforeFirstPoll? || (fate.converts && !fate.drop.NotDropped?)
    ensures r.Stream? <==> fate.drop.NotDropped? && fate.converts && fate.runs && fate.succeeds
    // with the stream in hand, the two pumps hold the handle, and nobody else
    ensures r.Stream? ==> h.Model().phase == Returned(true) && h.Model().holders == {Writer, Reader}
    ensures r.Stream? ==> h.strong == 2 && h.cleaned == 0
    // after an error it is gone
    ensures r.Error? ==> h.strong == 0 && h.cleaned == 1
    // a dropped future leaves it at most to the negotiating task
    ensures r.Dropped? ==> h.Model().holders <= {Negotiator} && h.strong <= 1 && h.cleaned == 1 - h.strong
    ensures h.Model().verdict.Ok? ==> fate.runs && fate.succeeds
    ensures h.Model().verdict.Bad? ==> fate.runs && !fate.succeeds
  {
    if fate.drop.BeforeFirstPoll? { h.Drop(Cancel); return Dropped; }
    if !fate.converts { h.Drop(ConvertFails); return Error; }
    r := NegotiateInTask(h, fate);
    if r.Stream? {
      h.Clone(SpawnWriter);
      h.Note(SpawnReader);
    }
  }

  /** The two pumps afterwards: each makes calls and ends, in any order. */
  method PumpsRun(h: Shared, calls: nat)
    requires h.Valid() && h.Model().phase == Returned(true) && h.Model().holders == {Writer, Reader}
    modifies h
    ensures h.Valid() && h.strong == 0 && h.cleaned == 1
  {
    var writer, reader, left := true, true, calls;
    while writer || reader
      invariant h.Valid()
      invariant h.Model().holders == (if writer then {Writer} else {}) + (if reader then {Reader} else {})
      decreases left, (if writer then 1 else 0) + (if reader then 1 else 0)
    {
      var who: Holder :| if who.Writer? then writer else who.Reader? && reader;
      var works: bool := *;
      if left > 0 && works {
        h.Note(Work(who));
        left := left - 1;
      } else {
        h.Drop(Ends(who));
        writer, reader := writer && !who.Writer?, reader && !who.Reader?;
      }
    }
  }
}
