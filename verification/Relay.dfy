/** One direction of the relay as a step system: from the TUN device of one ENTA to the TUN
    device of the other, over a line of any length. Six kinds of task take part, and any of them
    may take the next step:

      from_tun -> outbound channel -> to_entg -> line of byte hops
               -> from_entg -> inbound channel -> to_tun

    A field named ...Held is a packet a task has taken and not yet handed on (at most one). */
module Relay {
  import opened Framing
  import Line

  const CHANNEL_CAP: nat := 128

  datatype State = State(
    pulled: seq<Packet>,                                 // everything read from the near TUN
    srcLive: bool, srcHeld: seq<Packet>,                 // from_tun
    outQ: seq<Packet>,                                   // outbound channel
    line: seq<Line.Hop>,                                 // hop 0 is to_entg
    decLive: bool, decBuf: seq<byte>, decHeld: seq<Packet>, // from_entg
    inQ: seq<Packet>,                                    // inbound channel
    snkLive: bool, snkHeld: seq<Packet>,                 // to_tun
    delivered: seq<Packet>)                              // everything written to the far TUN
  {
    function LastPipe(): seq<byte> { if line == [] then [] else line[|line| - 1].pipe }
    function LastCap(): nat { if line == [] then 0 else line[|line| - 1].cap }
    predicate LastLive() { line != [] && line[|line| - 1].live }
    predicate FramerIdle() { line != [] && line[0].live && line[0].buf == [] }
  }

  datatype Label =
    // what the outside does
    | Pull(packet: Packet)                     // a packet arrives on the near TUN
    | SrcEnd                                   // the near TUN has no more
    | Kill(src: bool, hops: set<nat>, dec: bool, snk: bool)  // errors, cancellation, Ctrl-C
    // what the tasks do
    | SrcSend | SrcBreak
    | EncRecv | EncTooBig | EncEnd
    | Move(a: Line.Action)
    | DecFetch(k: nat) | DecFrame | DecBad | DecEnd | DecSend | DecBreak
    | SnkRecv | SnkDeliver | SnkEnd

  predicate Internal(l: Label) { !l.Pull? && !l.SrcEnd? && !l.Kill? }

  /** No error, no cancellation, no refused packet, no write to a reader that is gone. */
  predicate Orderly(l: Label) {
    !l.Kill? && !l.SrcBreak? && !l.EncTooBig? && !l.DecBad? && !l.DecBreak? && !(l.Move? && l.a.Break?)
  }

  predicate Enabled(s: State, l: Label) {
    match l
    case Pull(_) => s.srcLive && s.srcHeld == []
    case SrcEnd => s.srcLive && s.srcHeld == []
    case Kill(_, _, _, _) => true
    case SrcSend => s.srcLive && s.srcHeld != [] && s.line != [] && s.line[0].live && |s.outQ| < CHANNEL_CAP
    case SrcBreak => s.srcLive && s.srcHeld != [] && s.line != [] && !s.line[0].live
    case EncRecv => s.FramerIdle() && s.outQ != [] && |s.outQ[0]| <= MAX_FRAME_LEN
    case EncTooBig => s.FramerIdle() && s.outQ != [] && |s.outQ[0]| > MAX_FRAME_LEN
    case EncEnd => s.FramerIdle() && s.outQ == [] && !s.srcLive
    case Move(a) => Line.Enabled(s.line, s.decLive, a)
    case DecFetch(k) =>
      s.decLive && s.decHeld == [] && Front(s.decBuf).NeedMore? && s.line != [] && 1 <= k <= |s.LastPipe()|
    case DecFrame => s.decLive && s.decHeld == [] && Front(s.decBuf).Frame?
    case DecBad => s.decLive && s.decHeld == [] && Front(s.decBuf).TooBig?
    case DecEnd =>
      s.decLive && s.decHeld == [] && Front(s.decBuf).NeedMore? && s.line != [] && s.LastPipe() == [] && !s.LastLive()
    case DecSend => s.decLive && s.decHeld != [] && s.snkLive && |s.inQ| < CHANNEL_CAP
    case DecBreak => s.decLive && s.decHeld != [] && !s.snkLive
    case SnkRecv => s.snkLive && s.snkHeld == [] && s.inQ != []
    case SnkDeliver => s.snkLive && s.snkHeld != []
    case SnkEnd => s.snkLive && s.snkHeld == [] && s.inQ == [] && !s.decLive
  }

  function Next(s: State, l: Label): State
    requires Enabled(s, l)
  {
    match l
    case Pull(p) => s.(pulled := s.pulled + [p], srcHeld := [p])
    case SrcEnd => s.(srcLive := false)
    case Kill(src, hops, dec, snk) => Killed(s, src, hops, dec, snk)
    case SrcSend => s.(srcHeld := [], outQ := s.outQ + s.srcHeld)
    case SrcBreak => s.(srcLive := false, srcHeld := [])
    case EncRecv => s.(outQ := s.outQ[1..], line := s.line[0 := s.line[0].(buf := Encode(s.outQ[0]))])
    case EncTooBig => s.(outQ := s.outQ[1..], line := Line.Kill(s.line, {0}))
    case EncEnd => s.(line := Line.Kill(s.line, {0}))
    case Move(a) => s.(line := Line.Next(s.line, s.decLive, a))
    case DecFetch(k) =>
      var n := |s.line| - 1;
      s.(decBuf := s.decBuf + s.line[n].pipe[..k], line := s.line[n := s.line[n].(pipe := s.line[n].pipe[k..])])
    case DecFrame => s.(decHeld := [Front(s.decBuf).packet], decBuf := s.decBuf[Front(s.decBuf).size..])
    case DecBad => s.(decLive := false, decBuf := [])
    case DecEnd => s.(decLive := false, decBuf := [])
    case DecSend => s.(decHeld := [], inQ := s.inQ + s.decHeld)
    case DecBreak => s.(decLive := false, decBuf := [], decHeld := [])
    case SnkRecv => s.(snkHeld := [s.inQ[0]], inQ := s.inQ[1..])
    case SnkDeliver => s.(snkHeld := [], delivered := s.delivered + s.snkHeld)
    case SnkEnd => s.(snkLive := false)
  }

  /** The chosen tasks are gone at once, with whatever they held. */
  function Killed(s: State, src: bool, hops: set<nat>, dec: bool, snk: bool): State {
    s.(srcLive := s.srcLive && !src, srcHeld := if src then [] else s.srcHeld,
       line := Line.Kill(s.line, hops),
       decLive := s.decLive && !dec, decBuf := if dec then [] else s.decBuf,
       decHeld := if dec then [] else s.decHeld,
       snkLive := s.snkLive && !snk, snkHeld := if snk then [] else s.snkHeld)
  }

  // ------------------------------------------------------------ what is in flight

  /** The bytes from_entg holds or can still receive. */
  function Stream(s: State): seq<byte> { s.decBuf + Line.Reach(s.line) }

  /** The packets that can still be delivered, first to arrive first. */
  ghost function Inflight(s: State): seq<Packet> {
    if !s.snkLive then [] else s.snkHeld + s.inQ + Undecoded(s)
  }

  ghost function Undecoded(s: State): seq<Packet> {
    if !s.decLive then [] else s.decHeld + Frames(Stream(s)) + Unframed(s)
  }

  ghost function Unframed(s: State): seq<Packet> {
    if Line.Open(s.line) then s.outQ + s.srcHeld else []
  }

  /** Every task of the direction still runs. */
  ghost predicate Carrying(s: State) { s.srcLive && Line.Open(s.line) && s.decLive && s.snkLive }

  ghost predicate ShapeOk(s: State) {
    && Line.LineOk(s.line)
    && |s.srcHeld| <= 1 && |s.decHeld| <= 1 && |s.snkHeld| <= 1
    && (!s.srcLive ==> s.srcHeld == [])
    && (!s.decLive ==> s.decHeld == [] && s.decBuf == [])
    && (!s.snkLive ==> s.snkHeld == [])
    && |s.outQ| <= CHANNEL_CAP && |s.inQ| <= CHANNEL_CAP
    // from_entg reads on only while it lacks a whole frame, and takes one pipeful at most
    && |s.decBuf| < FRAME_CAP + s.LastCap()
  }

  ghost predicate StreamOk(s: State) {
    s.decLive ==> !Poisoned(Stream(s)) && (Line.Open(s.line) ==> Whole(Stream(s)))
  }

  ghost predicate Inv(s: State) {
    ShapeOk(s) && StreamOk(s) && s.delivered + Inflight(s) <= s.pulled
  }

  /** Nothing has happened yet. */
  ghost predicate Initial(s: State) {
    && Line.LineOk(s.line) && Line.Open(s.line)
    && (forall i :: 0 <= i < |s.line| ==> s.line[i].buf == [] && s.line[i].pipe == [])
    && s.srcLive && s.decLive && s.snkLive
    && s.srcHeld == [] && s.outQ == [] && s.decBuf == [] && s.decHeld == []
    && s.inQ == [] && s.snkHeld == [] && s.pulled == [] && s.delivered == []
  }

  // ------------------------------------------------------------ runs

  ghost predicate Can(s: State, run: seq<Label>)
    decreases |run|
  {
    run == [] || (Enabled(s, run[0]) && Can(Next(s, run[0]), run[1..]))
  }

  function After(s: State, run: seq<Label>): State
    requires Can(s, run)
    decreases |run|
  {
    if run == [] then s else After(Next(s, run[0]), run[1..])
  }

  ghost predicate AllOrderly(run: seq<Label>) { forall i :: 0 <= i < |run| ==> Orderly(run[i]) }
  ghost predicate AllInternal(run: seq<Label>) { forall i :: 0 <= i < |run| ==> Internal(run[i]) }
}
