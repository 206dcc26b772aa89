/** How ENTAs, ENTGs and the connections between them make up a tunnel: any number of ENTGs in a
    row, each connection plain or upgraded to rats-tls. */
module Deployment {
  import Framing
  import Line
  import opened Relay
  import opened RelaySafety
  import opened Tunnel

  datatype Link = Plain(cap: nat) | RatsTls(cap: nat)

  function WriterHop(kind: Line.Kind, link: Link, room: nat): Line.Hop {
    Line.Hop(kind, true, room, [], if link.RatsTls? then Line.TLS_BUFFER else link.cap, [])
  }

  /** The hops one connection stands for: whoever writes to it and, with rats-tls, the writer
      task here and the reader task at the peer. */
  function LinkHops(kind: Line.Kind, link: Link, room: nat): seq<Line.Hop> {
    if link.Plain? then [WriterHop(kind, link, room)]
    else
      [WriterHop(kind, link, room),
       Line.Hop(Line.TlsWriter, true, Line.TLS_BUFFER, [], link.cap, []),
       Line.Hop(Line.TlsReader, true, Line.TLS_BUFFER, [], Line.TLS_BUFFER, [])]
  }

  /** writers[i] is who writes to links[i]. */
  function Chain(writers: seq<Line.Kind>, links: seq<Link>, room: nat): seq<Line.Hop>
    requires |writers| == |links|
  {
    if links == [] then []
    else LinkHops(writers[0], links[0], room) + Chain(writers[1..], links[1..], room)
  }

  /** Node 0 is the near ENTA, node n the far one, the others are ENTGs. */
  function ForwardWriters(n: nat): seq<Line.Kind> {
    seq(n, i requires 0 <= i < n => if i == 0 then Line.Framer else Line.Copy(i))
  }

  function BackwardWriters(n: nat): seq<Line.Kind> {
    seq(n, i requires 0 <= i < n => if i == 0 then Line.Framer else Line.Copy(n - i))
  }

  function Reversed(links: seq<Link>): (r: seq<Link>)
    ensures |r| == |links|
  {
    seq(|links|, i requires 0 <= i < |links| => links[|links| - 1 - i])
  }

  function Start(line: seq<Line.Hop>): State {
    Relay.State([], true, [], [], line, true, [], [], [], true, [], [])
  }

  function Deploy(links: seq<Link>, room: nat): Tunnel {
    Tunnel(Start(Chain(ForwardWriters(|links|), links, room)),
           Start(Chain(BackwardWriters(|links|), Reversed(links), room)))
  }

  ghost predicate Fresh(l: seq<Line.Hop>) {
    forall i :: 0 <= i < |l| ==> Line.HopOk(l[i]) && l[i].live && l[i].buf == [] && l[i].pipe == []
  }

  ghost predicate WritersDiffer(w: seq<Line.Kind>) {
    forall i, j :: 0 <= i < j < |w| ==> w[i] != w[j]
  }

  ghost predicate WriterBehindDuplex(l: seq<Line.Hop>) {
    forall i :: 0 <= i < |l| && l[i].kind.TlsWriter? ==> 0 < i && l[i - 1].cap == Line.TLS_BUFFER
  }

  ghost predicate LinksOk(links: seq<Link>) { forall i :: 0 <= i < |links| ==> 1 <= links[i].cap }

  ghost predicate WritersOk(w: seq<Line.Kind>) {
    forall i :: 0 <= i < |w| ==> if i == 0 then w[i].Framer? else w[i].Copy?
  }

  predicate Tied(k: Line.Kind) { k.Framer? || k.Copy? }

  lemma {:induction false} ChainFresh(w: seq<Line.Kind>, links: seq<Link>, room: nat)
    requires |w| == |links| && 1 <= room && LinksOk(links)
    requires forall i :: 0 <= i < |w| ==> Tied(w[i])
    ensures Fresh(Chain(w, links, room))
    ensures WriterBehindDuplex(Chain(w, links, room))
    ensures links != [] ==> Chain(w, links, room) != [] && Chain(w, links, room)[0].kind == w[0]
  {
    if links != [] {
      ChainFresh(w[1..], links[1..], room);
      assert Tied(w[0]);
      JoinLines(LinkHops(w[0], links[0], room), Chain(w[1..], links[1..], room));
    }
  }

  lemma JoinLines(h: seq<Line.Hop>, t: seq<Line.Hop>)
    requires Fresh(h) && Fresh(t) && WriterBehindDuplex(h) && WriterBehindDuplex(t)
    ensures Fresh(h + t) && WriterBehindDuplex(h + t)
  {
    forall i | 0 <= i < |h + t| && (h + t)[i].kind.TlsWriter?
      ensures 0 < i && (h + t)[i - 1].cap == Line.TLS_BUFFER
    {
      if i < |h| { assert h[i].kind.TlsWriter?; } else { assert t[i - |h|].kind.TlsWriter?; }
    }
  }

  /** A tied hop of the chain is one of the writers, and each writer is there only once. */
  lemma {:induction false} ChainKinds(w: seq<Line.Kind>, links: seq<Link>, room: nat)
    requires |w| == |links|
    ensures forall i ::
      0 <= i < |Chain(w, links, room)| && Tied(Chain(w, links, room)[i].kind) ==> Chain(w, links, room)[i].kind in w
  {
    if links != [] {
      ChainKinds(w[1..], links[1..], room);
      var h, t := LinkHops(w[0], links[0], room), Chain(w[1..], links[1..], room);
      var l := h + t;
      forall i | 0 <= i < |l| && Tied(l[i].kind) ensures l[i].kind in w {
        if i >= |h| { assert Tied(t[i - |h|].kind); }
      }
    }
  }

  ghost predicate TiedDiffer(l: seq<Line.Hop>) {
    forall i, j :: 0 <= i < j < |l| && Tied(l[i].kind) ==> l[i].kind != l[j].kind
  }

  lemma {:induction false} ChainDiffers(w: seq<Line.Kind>, links: seq<Link>, room: nat)
    requires |w| == |links| && WritersDiffer(w) && (forall i :: 0 <= i < |w| ==> Tied(w[i]))
    ensures TiedDiffer(Chain(w, links, room))
  {
    if links != [] {
      ChainDiffers(w[1..], links[1..], room);
      ChainKinds(w[1..], links[1..], room);
      assert Tied(w[0]) && w[0] !in w[1..];
      var h, t := LinkHops(w[0], links[0], room), Chain(w[1..], links[1..], room);
      var l := h + t;
      forall i, j | 0 <= i < j < |l| && Tied(l[i].kind) ensures l[i].kind != l[j].kind {
        if j >= |h| {
          if i < |h| { assert i == 0; } else { assert Tied(t[i - |h|].kind); }
          if Tied(t[j - |h|].kind) { assert t[j - |h|].kind in w[1..]; }
        }
      }
    }
  }

  lemma ChainOk(w: seq<Line.Kind>, links: seq<Link>, room: nat)
    requires |w| == |links| && links != [] && 1 <= room && LinksOk(links) && WritersOk(w) && WritersDiffer(w)
    ensures var l := Chain(w, links, room); Line.LineOk(l) && Fresh(l) && HopsDiffer(l)
  {
    forall i | 0 <= i < |w| ensures Tied(w[i]) {}
    ChainFresh(w, links, room);
    ChainDiffers(w, links, room);
    var l := Chain(w, links, room);
    forall i | 0 < i < |l| ensures !l[i].kind.Framer? { assert Tied(l[0].kind); }
    forall i, j | 0 <= i < j < |l| && l[i].kind.Copy? ensures l[i].kind != l[j].kind { assert Tied(l[i].kind); }
  }

  /** Every chain of plain and rats-tls links makes a tunnel whose two directions are at their
      start, and in which every task runs. */
  lemma DeployOk(links: seq<Link>, room: nat)
    requires links != [] && 1 <= room && LinksOk(links)
    ensures var t := Deploy(links, room); Initial(t.f) && Initial(t.b) && TunnelOk(t)
  {
    ChainOk(ForwardWriters(|links|), links, room);
    ChainOk(BackwardWriters(|links|), Reversed(links), room);
    var t := Deploy(links, room);
    assert Line.Open(t.f.line) && Line.Open(t.b.line);
    InitialGood(t.f);
    InitialGood(t.b);
  }

  // ------------------------------------------------------------ the two directions match

  lemma {:induction false} WriterIsThere(w: seq<Line.Kind>, links: seq<Link>, room: nat, k: nat) returns (i: nat)
    requires |w| == |links| && k < |w|
    ensures i < |Chain(w, links, room)| && Chain(w, links, room)[i].kind == w[k]
    decreases |w|
  {
    if k == 0 {
      i := 0;
    } else {
      var j := WriterIsThere(w[1..], links[1..], room, k - 1);
      i := |LinkHops(w[0], links[0], room)| + j;
    }
  }

  /** Every copy of one direction has its twin in the other: the two copies of the same ENTG. */
  lemma EveryCopyHasATwin(links: seq<Link>, room: nat, i: nat) returns (j: nat)
    requires i < |Deploy(links, room).f.line| && Deploy(links, room).f.line[i].kind.Copy?
    ensures j < |Deploy(links, room).b.line| && Deploy(links, room).b.line[j].kind == Deploy(links, room).f.line[i].kind
    ensures 0 < Deploy(links, room).f.line[i].kind.node < |links|
  {
    var n := |links|;
    var kind := Deploy(links, room).f.line[i].kind;
    ChainKinds(ForwardWriters(n), links, room);
    assert Tied(kind);
    assert kind in ForwardWriters(n);
    j := WriterIsThere(BackwardWriters(n), Reversed(links), room, n - kind.node);
  }

  function HopCount(links: seq<Link>): nat {
    if links == [] then 0 else (if links[0].Plain? then 1 else 3) + HopCount(links[1..])
  }

  lemma {:induction false} HopCountConcat(a: seq<Link>, b: seq<Link>)
    ensures HopCount(a + b) == HopCount(a) + HopCount(b)
  {
    if a == [] {
      assert a + b == b;
    } else {
      assert (a + b)[1..] == a[1..] + b;
      HopCountConcat(a[1..], b);
    }
  }

  lemma {:induction false} HopCountReversed(links: seq<Link>)
    ensures HopCount(Reversed(links)) == HopCount(links)
  {
    if links != [] {
      assert Reversed(links) == Reversed(links[1..]) + [links[0]];
      HopCountConcat(Reversed(links[1..]), [links[0]]);
      HopCountReversed(links[1..]);
      assert HopCount([links[0]]) == if links[0].Plain? then 1 else 3;
    }
  }

  lemma {:induction false} ChainConcat(v: seq<Line.Kind>, w: seq<Line.Kind>, a: seq<Link>, b: seq<Link>, room: nat)
    requires |v| == |a| && |w| == |b|
    ensures Chain(v + w, a + b, room) == Chain(v, a, room) + Chain(w, b, room)
  {
    if a == [] {
      assert v + w == w && a + b == b;
    } else {
      assert (v + w)[1..] == v[1..] + w && (a + b)[1..] == a[1..] + b;
      ChainConcat(v[1..], w, a[1..], b, room);
      Framing.Appended(LinkHops(v[0], a[0], room), Chain(v[1..], a[1..], room), Chain(w, b, room));
    }
  }

  lemma ChainAround(w: seq<Line.Kind>, links: seq<Link>, room: nat, i: nat)
    requires |w| == |links| && i < |links|
    ensures Chain(w, links, room)
            == Chain(w[..i], links[..i], room)
               + (LinkHops(w[i], links[i], room) + Chain(w[i + 1..], links[i + 1..], room))
  {
    assert w == w[..i] + w[i..] && links == links[..i] + links[i..];
    ChainConcat(w[..i], w[i..], links[..i], links[i..], room);
    assert w[i..][1..] == w[i + 1..] && links[i..][1..] == links[i + 1..];
  }

  /** Where in the chain the hops of the i-th link are. */
  lemma ChainSegment(w: seq<Line.Kind>, links: seq<Link>, room: nat, i: nat)
    requires |w| == |links| && i < |links|
    ensures var l, from := Chain(w, links, room), HopCount(links[..i]);
            && from + HopCount([links[i]]) <= |l|
            && l[from..from + HopCount([links[i]])] == LinkHops(w[i], links[i], room)
  {
    var before, here := Chain(w[..i], links[..i], room), LinkHops(w[i], links[i], room);
    ChainAround(w, links, room, i);
    ChainLength(w[..i], links[..i], room);
    assert HopCount([links[i]]) == |here|;
    Framing.Middle(before, here, Chain(w[i + 1..], links[i + 1..], room));
  }

  lemma {:induction false} ChainLength(w: seq<Line.Kind>, links: seq<Link>, room: nat)
    requires |w| == |links|
    ensures |Chain(w, links, room)| == HopCount(links)
  {
    if links != [] { ChainLength(w[1..], links[1..], room); }
  }

  /** Who writes to link i: forward the node before it, backward the node behind it. */
  function ForwardWriter(i: nat): Line.Kind { if i == 0 then Line.Framer else Line.Copy(i) }

  function BackwardWriter(n: nat, i: nat): Line.Kind { if i + 1 == n then Line.Framer else Line.Copy(i + 1) }

  /** Both directions pass the same connections, in opposite order: link i takes the hops behind
      those of the links before it one way, and behind those of the links after it the other way. */
  lemma DirectionsMatch(links: seq<Link>, room: nat, i: nat)
    requires i < |links|
    ensures var t := Deploy(links, room);
            var there, back, n := HopCount(links[..i]), HopCount(links[i + 1..]), HopCount([links[i]]);
            && |t.f.line| == |t.b.line| == HopCount(links)
            && there + n + back == HopCount(links)
            && t.f.line[there..there + n] == LinkHops(ForwardWriter(i), links[i], room)
            && t.b.line[back..back + n] == LinkHops(BackwardWriter(|links|, i), links[i], room)
  {
    ChainLength(ForwardWriters(|links|), links, room);
    HopCountAround(links, i);
    ChainSegment(ForwardWriters(|links|), links, room, i);
    MirroredSegment(BackwardWriters(|links|), links, room, i);
  }

  lemma HopCountAround(links: seq<Link>, i: nat)
    requires i < |links|
    ensures HopCount(links[..i]) + HopCount([links[i]]) + HopCount(links[i + 1..]) == HopCount(links)
  {
    assert links == links[..i] + ([links[i]] + links[i + 1..]);
    HopCountConcat(links[..i], [links[i]] + links[i + 1..]);
    HopCountConcat([links[i]], links[i + 1..]);
  }

  /** The same for a chain over the links in opposite order. */
  lemma MirroredSegment(w: seq<Line.Kind>, links: seq<Link>, room: nat, i: nat)
    requires |w| == |links| && i < |links|
    ensures var l := Chain(w, Reversed(links), room);
            var back, n := HopCount(links[i + 1..]), HopCount([links[i]]);
            && |l| == HopCount(links) && back + n <= |l|
            && l[back..back + n] == LinkHops(w[|w| - 1 - i], links[i], room)
  {
    ChainLength(w, Reversed(links), room);
    HopCountReversed(links);
    HopsBehind(links, i);
    ChainSegment(w, Reversed(links), room, |w| - 1 - i);
  }

  lemma HopsBehind(links: seq<Link>, i: nat)
    requires i < |links|
    ensures HopCount(Reversed(links)[..|links| - 1 - i]) == HopCount(links[i + 1..])
  {
    assert Reversed(links)[..|links| - 1 - i] == Reversed(links[i + 1..]);
    HopCountReversed(links[i + 1..]);
  }

  // ------------------------------------------------------------ how much fits

  /** Buffers and pipes of one connection, when an ENTG writes to it. */
  function LinkRoom(link: Link, room: nat): nat {
    room + link.cap + if link.Plain? then 0 else 4 * Line.TLS_BUFFER
  }

  function TotalRoom(links: seq<Link>, room: nat): nat {
    if links == [] then 0 else LinkRoom(links[0], room) + TotalRoom(links[1..], room)
  }

  /** What the last task of a connection can hold back from the reader. */
  function LastPipeCap(link: Link): nat { if link.Plain? then link.cap else Line.TLS_BUFFER }

  /** The most packets a direction ending with link last can have under way. */
  function MostPackets(links: seq<Link>, last: Link, room: nat): int {
    PACKET_SLOTS + (2 * Framing.FRAME_CAP + LastPipeCap(last) + TotalRoom(links, room) - room) / Framing.HEADER_LEN
  }

  lemma {:induction false} TotalRoomConcat(a: seq<Link>, b: seq<Link>, room: nat)
    ensures TotalRoom(a + b, room) == TotalRoom(a, room) + TotalRoom(b, room)
  {
    if a == [] {
      assert a + b == b;
    } else {
      assert (a + b)[1..] == a[1..] + b;
      TotalRoomConcat(a[1..], b, room);
    }
  }

  lemma {:induction false} TotalRoomReversed(links: seq<Link>, room: nat)
    ensures TotalRoom(Reversed(links), room) == TotalRoom(links, room)
  {
    if links != [] {
      assert Reversed(links) == Reversed(links[1..]) + [links[0]];
      TotalRoomConcat(Reversed(links[1..]), [links[0]], room);
      TotalRoomReversed(links[1..], room);
      assert TotalRoom([links[0]], room) == LinkRoom(links[0], room);
    }
  }

  lemma {:induction false} CapacityConcat(l: seq<Line.Hop>, m: seq<Line.Hop>)
    ensures Line.Capacity(l + m) == Line.Capacity(l) + Line.Capacity(m)
  {
    if m == [] {
      assert l + m == l;
    } else {
      assert (l + m)[..|l + m| - 1] == l + m[..|m| - 1];
      CapacityConcat(l, m[..|m| - 1]);
    }
  }

  lemma CapacityOfOne(h: Line.Hop)
    ensures Line.Capacity([h]) == h.BufferSize() + h.cap
  {
    assert [h][..0] == [];
  }

  lemma LinkCapacity(kind: Line.Kind, link: Link, room: nat)
    requires kind.Framer? || kind.Copy?
    ensures Line.Capacity(LinkHops(kind, link, room))
            == LinkRoom(link, room) + if kind.Framer? then Framing.FRAME_CAP - room else 0
  {
    var h := LinkHops(kind, link, room);
    CapacityOfOne(h[0]);
    if link.RatsTls? {
      assert h == [h[0]] + ([h[1]] + [h[2]]);
      CapacityOfOne(h[1]);
      CapacityOfOne(h[2]);
      CapacityConcat([h[1]], [h[2]]);
      CapacityConcat([h[0]], [h[1]] + [h[2]]);
    } else {
      assert h == [h[0]];
    }
  }

  lemma {:induction false} CopiesCapacity(w: seq<Line.Kind>, links: seq<Link>, room: nat)
    requires |w| == |links| && forall i :: 0 <= i < |w| ==> w[i].Copy?
    ensures Line.Capacity(Chain(w, links, room)) == TotalRoom(links, room)
  {
    if links != [] {
      LinkCapacity(w[0], links[0], room);
      CopiesCapacity(w[1..], links[1..], room);
      CapacityConcat(LinkHops(w[0], links[0], room), Chain(w[1..], links[1..], room));
    }
  }

  lemma {:induction false} LastOfChain(w: seq<Line.Kind>, links: seq<Link>, room: nat)
    requires |w| == |links| && links != []
    ensures var l := Chain(w, links, room); l != [] && l[|l| - 1].cap == LastPipeCap(links[|links| - 1])
  {
    if |links| > 1 { LastOfChain(w[1..], links[1..], room); }
  }

  /** The capacity of the FIFO that a chain of links amounts to. */
  lemma ChainCapacity(w: seq<Line.Kind>, links: seq<Link>, room: nat)
    requires |w| == |links| && links != [] && WritersOk(w)
    ensures FifoCapacity(Chain(w, links, room)) == MostPackets(links, links[|links| - 1], room)
  {
    LinkCapacity(w[0], links[0], room);
    forall i | 0 <= i < |w| - 1 ensures w[1..][i].Copy? { assert w[i + 1].Copy?; }
    CopiesCapacity(w[1..], links[1..], room);
    CapacityConcat(LinkHops(w[0], links[0], room), Chain(w[1..], links[1..], room));
    LastOfChain(w, links, room);
  }

  // ------------------------------------------------------------ main results

  lemma DeployCapacity(links: seq<Link>, room: nat)
    requires links != []
    ensures FifoCapacity(Deploy(links, room).f.line) == MostPackets(links, links[|links| - 1], room)
    ensures FifoCapacity(Deploy(links, room).b.line) == MostPackets(links, links[0], room)
  {
    ChainCapacity(ForwardWriters(|links|), links, room);
    ChainCapacity(BackwardWriters(|links|), Reversed(links), room);
    TotalRoomReversed(links, room);
  }

  /** Safety, end to end: over any number of ENTGs, any mix of links and every run, each
      direction delivers a prefix of what was pulled into it, nothing else; it never has more
      packets under way than the links have room for, no ENTA direction holds more than 130
      packets and no rats-tls writer side more than 2048 bytes. */
  lemma EndToEnd(links: seq<Link>, room: nat, run: seq<Step>)
    requires links != [] && 1 <= room && LinksOk(links)
    requires (DeployOk(links, room); TCan(Deploy(links, room), run))
    ensures (DeployOk(links, room);
             var t := TAfter(Deploy(links, room), run);
             && t.f.delivered <= t.f.pulled && t.b.delivered <= t.b.pulled
             && |Inflight(t.f)| <= MostPackets(links, links[|links| - 1], room)
             && |Inflight(t.b)| <= MostPackets(links, links[0], room)
             && Bounded(t.f) && Bounded(t.b))
  {
    DeployOk(links, room);
    DeployCapacity(links, room);
    TunnelIsSafe(Deploy(links, room), run);
    var t := TAfter(Deploy(links, room), run);
    BoundedWhenOk(t.f);
    BoundedWhenOk(t.b);
  }

  ghost predicate Bounded(s: State) {
    && s.line != []
    && |s.srcHeld| + |s.outQ| + (if Busy(s.line[0]) then 1 else 0) <= 130
    && |s.decHeld| + |s.inQ| + |s.snkHeld| <= 130
    && (forall i :: 0 < i < |s.line| && s.line[i].kind.TlsWriter? ==> |s.line[i - 1].pipe| + |s.line[i].buf| <= 2048)
  }

  lemma BoundedWhenOk(s: State)
    requires ShapeOk(s)
    ensures Bounded(s)
  {
    Occupancy(s);
    forall i | 0 < i < |s.line| && s.line[i].kind.TlsWriter? ensures |s.line[i - 1].pipe| + |s.line[i].buf| <= 2048 {
      Line.WriterSideBound(s.line, i);
    }
  }
}
