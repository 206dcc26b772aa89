# A model of the Enclave Network Gateway relay

Two agents (ENTA) capture IP packets from TUN devices and exchange them over a row of gateways
(ENTG). A packet read from one TUN is queued in a 128-slot channel, framed onto a byte stream,
carried over connections that are plain TCP or rats-tls, copied by every ENTG on the way,
unframed, queued again and written to the other TUN. These files model that relay, the ownership
of the rats-tls handle, the firewall and routing rules an ENTA adds and removes, and the echo
program used to try a link, and prove what each of them keeps.

| file | what it holds |
|---|---|
| `Framing.dfy` | the length-prefixed format as functions on byte sequences |
| `Codec.dfy` | the incremental decoder as a mutable object, and its reading loop |
| `Line.dfy` | the byte-carrying hops between two ENTAs as a step system |
| `Relay.dfy` | one direction, TUN to TUN, as a step system of six kinds of task |
| `RelaySafety.dfy` | it refines a bounded FIFO that can only be cut; nothing is altered or reordered |
| `RelayProgress.dfy` | a decreasing measure; nothing gets stuck |
| `RelayClose.dfy` | an orderly close loses nothing |
| `RelayLoss.dfy` | what each step and each run of a direction can lose, exactly |
| `Tunnel.dfy` | both directions, tied together by the selects; one end closes everything |
| `Deployment.dfy` | tunnels over any number of ENTGs and any mix of connections |
| `TunnelLoss.dfy` | the exact condition for a tunnel to lose nothing; how a select loses the queue |
| `OneWay.dfy` | with traffic one way only, closing at the source loses nothing |
| `Pump.dfy` | the rats-tls writer and reader loops over real buffers, matched to the hops of `Line` |
| `Enta.dfy` | the four loops of an ENTA; taking from and putting into a channel, framing, writing, reading and decoding, and the write to the device, are matched to the steps of `Relay` (what the TUN yields, `Pull` and `SrcEnd`, is the outside's doing) |
| `Entg.dfy` | the rendezvous and the two copies of an ENTG |
| `Session.dfy` | who holds the rats-tls handle, and when it is cleaned up |
| `Netfilter.dfy` | the set-up and clean-up scripts on rule lists |
| `Echo.dfy` | the echo client's verdict and the echo server |

## How a direction is modelled

`Relay.State` holds, for one direction, what every task, channel and pipe holds, and the packets
pulled and delivered so far. A `Label` is one step: a packet arriving, the TUN ending, any set of
tasks ending at once with what they hold (`Kill`: errors, cancellation by a select at any point,
Ctrl-C), or one task doing the next thing its loop does. `Tunnel` runs two such directions and,
with each step of one, ends the tasks of the other whose select partner has ended. Steps interleave
freely. A pipe delivers end of file when it is empty and its writer has ended.

The FIFO of `RelaySafety` is the specification: packets enter while it is open, leave in order, are
never more than its capacity, and a fault may drop a tail of the queue and close it for good. The
capacity is a number computed from the line: the packet slots of the two ENTAs, and a packet for
every header that fits into the buffers and pipes between them.

## What the libraries are taken to do

- An `mpsc` channel is a bounded FIFO; `recv` yields `None` only when it is empty and the sender is
  gone; `send` fails once the receiver is gone.
- A duplex pipe and a TCP connection are bounded byte FIFOs; the reader drains them before it sees
  end of file. A broken connection is an error of the reader or writer and thus a `Kill`.
- The length-delimited codec uses a four-byte big-endian length that does not count itself and
  refuses frames over 8 MiB. It takes a complete header off its buffer before the payload is there,
  and at the end of the stream it reports bytes left in that buffer. After an error the framed stream
  ends.
- `transmit` takes between one byte and all it is offered, or fails. `receive` may return an empty
  chunk, finitely often in a run, and fails after the peer's shutdown once all bytes were received.
- A write to a pipe fails once its reader has ended. For a duplex pipe that is so; for a TCP
  connection it is an assumption, because a half-close of the reading side
  (`rats-tls/src/lib.rs:210`) need not make the peer's transmit fail at once. The step `Break`, and
  with it the results on closing in `RelayProgress`, `RelayClose` and `Tunnel`, depend on it.
- A task dropped or returning closes what it owned, at once.

## What turned out not to hold

- Nothing is lost when one end closes: not always. If the near TUN ends while packets are queued for
  `to_entg`, a packet held by `from_entg` is enough to make that loop return first and cancel
  `to_entg` (`TunnelLoss.SelectCanDropTheQueue`). Over every chain of connections a run without any
  error gets there from the start (`TunnelLoss.QueueLostFromStart`). The exact condition, for every
  run and either direction, is `TunnelLoss.NothingLostIff`: packets are read while all tasks of the
  direction run, none is refused, and whatever a select, an error or Ctrl-C ends holds nothing and
  has nothing waiting before it. `RelayLoss.OpenKillIff` says field by field what that is for
  `from_tun`, `to_entg`, a copy or pump, `from_entg` and `to_tun`. With nothing on its way back the
  condition is always met: `OneWay.OneWayClose`, and `OneWay.EveryListIsCarried` shows such runs.
- A packet over the frame limit makes `to_entg` give up: after an orderly start everything pulled is
  delivered if and only if no packet is over the limit (`RelayClose.GracefulClose`). What a TUN
  yields is far below it, so for IP packets there is no condition
  (`RelayClose.GracefulCloseOfIpPackets`).
- A stream cut right behind a header ends without a report, because the header has left the buffer
  (`Codec.DecodeStream`). The cut frame is still never delivered.
- Clean-up returns early if the first script's last command fails, and then leaves the replay rule in
  place, and it does not notice other commands failing; `Netfilter.CleanUpRestores` gives the exact
  condition. If set-up never appended its rule,
  clean-up deletes an identical rule of somebody else (`Netfilter.ChainAsMultiset`), and it always
  empties table 8 (`Netfilter.TableEightIsEmptied`).
- The echo client's content check compares with a zeroed buffer, so in general a short answer passes
  if every missing byte is zero (`Echo.ContentCheckIff`). The greeting it sends does not end in zero,
  and for it a pass means that all of it arrived (`Echo.GreetingCheck`).
- The log message at `enta/src/main.rs:168-171` says that later packets from the ENTG will be dropped;
  the code leaves the loop, which closes the connection. The model follows the code.

## Model

| member | source | states |
|---|---|---|
| Framing.HeaderOrder | enta/src/main.rs:143 | the header is big-endian: of two lengths the smaller has the smaller byte where their headers first differ |
| Framing.HeaderBytes | enta/src/main.rs:143 | a short length is announced by three zero bytes and itself, the longest allowed by 0, 128, 0, 0 |
| Framing.ShortPacketIsRead | enta/src/main.rs:164 | what a peer sends in that form is read as the packet behind it |
| Framing.RefusedIff | enta/src/main.rs:175-177 | a header is refused iff it is complete and no bytes behind it could make a frame |
| Framing.FrontIsEncoded | enta/src/main.rs:142-143 | the bytes taken for a frame are exactly the encoding of the packet handed out |
| Framing.FrontOfEncode | enta/src/main.rs:149 | an encoded packet at the front of any bytes is read back as that packet, and what follows is left alone |
| Framing.RoundTrip | docs/design_and_implementation.md:19 | decoding the encoding of any packet list inside the limit gives the list back, with nothing left over |
| Framing.FramesRebuild | docs/design_and_implementation.md:19 | any bytes are the encoding of the packets read from them followed by what is left, so no packet is made up |
| Framing.FramesSplit | enta/src/main.rs:162-184 | reading two pieces one after the other, keeping the rest of the first, is reading them joined |
| Framing.FramesMonotone | enta/src/main.rs:162-184 | more input never changes the packets already read |
| Framing.TruncationIsPrefix | enta/src/main.rs:162-184 | every cut of an encoded list gives a prefix of the list and is never taken for a refused header |
| Framing.TruncationIsExact | enta/src/main.rs:162-184 | a packet is read from the cut if and only if its last byte is inside it |
| Codec.FrameDecoder.Decode | enta/src/main.rs:164 | one call of the stateful decoder does what the functional reader does on all bytes fed in and not yet used |
| Codec.Drain | enta/src/main.rs:163-183 | draining the decoder yields all complete frames and leaves exactly the rest |
| Codec.DecodeStream | enta/src/main.rs:162-184 | over any chunking the packets are those of the joined bytes; says exactly when the end is clean, reported or refused |
| Codec.DecodeCut | enta/src/main.rs:162-184 | chunking and truncation together: exactly the packets wholly inside the cut come out, all of them on the full encoding |
| Line.ReachOfFetch | rats-tls/src/lib.rs:172-175 | a task filling its buffer leaves the bytes that can still arrive as they were |
| Line.ReachOfEmit | rats-tls/src/lib.rs:176-179 | so does a partial write |
| Line.ReachOfEnd | rats-tls/src/lib.rs:173-188 | so does a task that returns at end of file |
| Line.ReachOfKill | entg/src/main.rs:82-85 | ending any set of hop tasks leaves a prefix of the bytes that could arrive |
| Line.PipesAtTheirEnds | rats-tls/src/lib.rs:172-179 | a pipe gets bytes only from its writer at its end and loses them only to its reader at its front, none lost on the way |
| Line.HopWaitsFor | rats-tls/src/lib.rs:172-188 | a hop waits only for bytes from a running writer, or for room in a pipe that is read; otherwise it fetches, emits, ends or breaks off |
| Line.WriterSideCanBeFull | rats-tls/src/lib.rs:155-186 | the 2048-byte bound on a rats-tls writer side is not larger than need be |
| Line.WriterSideBound | rats-tls/src/lib.rs:155-186 | a rats-tls writer side holds at most 2048 bytes accepted and not transmitted |
| Line.WorkDecreases | rats-tls/src/lib.rs:172-186 | every action of a hop task lowers the work left on the line |
| RelaySafety.StepRefines | enta/src/main.rs:144-189 | every step of a direction is a step of a FIFO of fixed capacity: put while there is room, take, nothing, or a cut of its tail that closes it |
| RelaySafety.OnlyActorChanges | enta/src/main.rs:144-184 | a step of one task ends no other and takes nothing another holds |
| RelaySafety.KillEndsTheChosen | enta/src/main.rs:186-189 | a cancellation or error ends exactly the chosen tasks with what they held; channels and pipes keep theirs |
| RelaySafety.EnderIsGone | enta/src/main.rs:154-157 | a task that ends or breaks off is gone with what it held |
| RelaySafety.ChannelsAtTheirEnds | enta/src/main.rs:84-85 | channels change at their ends only, by the one packet handed over |
| RelaySafety.KillCuts | enta/src/main.rs:186-189 | tasks ending at any point, also in the middle of a frame, drop a tail of what is in flight and nothing else |
| RelaySafety.MoveKeepsStream | entg/src/main.rs:82-85 | hop steps that are not faults change neither the stream nor what waits behind it |
| RelaySafety.RecvQuietly | enta/src/main.rs:146-149 | to_entg taking a packet and framing it moves it from the queue to the end of the stream |
| RelaySafety.NeverBadHeader | enta/src/main.rs:175-177 | from_entg never meets a refused header, however its stream was cut |
| RelaySafety.StepGood | enta/src/capture/tun.rs:129-172 | each step keeps: delivered plus in flight is a prefix of pulled, and equal to it while every task runs |
| RelaySafety.RunIsSafe | enta/src/main.rs:84-94 | the same over every run from every good state; delivered packets are never taken back; never more under way than the FIFO's capacity |
| RelaySafety.Occupancy | enta/src/main.rs:84-87 | an ENTA direction holds at most 130 packets outbound, and inbound |
| RelaySafety.FifoIsBounded | enta/src/main.rs:84-87 | packets under way never exceed the capacity, a function of the line alone; one slot is free whenever from_tun reads a packet |
| Line.ReachFits | rats-tls/src/lib.rs:155-186 | the bytes that can still arrive fit into the line's buffers and pipes |
| RelayProgress.InternalStepsUseWork | enta/src/main.rs:144-184 | every step of a task by itself lowers a measure that weights each byte and packet by the places it has yet to leave |
| RelayProgress.InternalRunsAreBounded | enta/src/main.rs:84-90 | so runs without new input are no longer than the measure |
| RelayProgress.SomethingInFlightMoves | enta/src/capture/tun.rs:129-172 | no deadlock: while the sink runs, a state holding anything at all has a task that can move |
| RelayProgress.QuietAndOpen | enta/src/capture/tun.rs:129-172 | when nothing can move and the sink runs, every task runs and nothing is held anywhere |
| RelayProgress.QuietAndClosed | enta/src/capture/tun.rs:139-142 | when nothing can move and the source has ended, every task of the direction has ended |
| RelayProgress.RunsToQuiet | enta/src/main.rs:86-92 | from every state the tasks can run on until nothing moves |
| RelayProgress.LoopsWaitFor | enta/src/main.rs:144-184 | exactly what each of the four loops waits for: a full channel of 128 that is read, an empty one that is fed, missing bytes |
| RelayProgress.OneThingNext | enta/src/main.rs:144-184 | a loop never has two different things it could do next; a send waits, succeeds or fails |
| RelayProgress.SourceIsAlwaysRead | enta/src/capture/tun.rs:147-155 | from_tun takes any packet or the device's end whenever it holds none, however full the rest is |
| RelayClose.OrderlyStep | enta/src/main.rs:154-157 | a step without fault keeps: nothing lost, the stream whole, tasks ended from the source on |
| RelayClose.TidyTasksAreOrderly | enta/src/main.rs:144-160 | from such a state the tasks cause no fault by themselves if all packets are inside the limit |
| RelayClose.EndMeansDelivered | enta/src/capture/tun.rs:139-142 | in a run without faults, once to_tun has ended everything pulled has been delivered |
| RelayClose.GracefulClose | enta/src/main.rs:144-160 | after an orderly start the tasks stop within the measure; then everything is delivered iff all packets fit, and all tasks have ended if the source has |
| RelayClose.GracefulCloseOfIpPackets | enta/src/capture/tun.rs:147-159 | for what a TUN yields the frame limit never matters: when the tasks stop everything pulled has been delivered |
| RelayLoss.ReachOfKillIff | entg/src/main.rs:82-85 | ending any tasks of the line takes nothing away iff each of them that is joined to its end holds nothing and has nothing before it |
| RelayLoss.KillLosesNothingIff | enta/src/main.rs:185-189 | a cancellation or error of any tasks loses nothing iff each that still matters holds nothing and has nothing waiting before it |
| RelayLoss.OpenKillIff | enta/src/capture/tun.rs:168-172 | the same field by field while line, decoder and sink run: from_tun's packet; also the queue and the frame for to_entg; also all bytes before it for a copy; and so on to to_tun |
| RelayLoss.RunLosesNothingIff | enta/src/main.rs:84-94 | after any run of a direction everything pulled is delivered or under way iff each pull, refusal and cancellation met its demand |
| Tunnel.TieStep | enta/src/main.rs:185-189 | select partners run together or have ended together, after every step |
| Tunnel.StepReaches | enta/src/main.rs:185-189 | in the other direction a step changes nothing but running tasks whose select partner ended in it: those have ended with what they held; rats-tls pumps, channels and pipes are untouched |
| Tunnel.StepKeepsOk | enta/src/capture/tun.rs:168-172 | each tunnel step keeps both directions good and their tasks tied |
| Tunnel.TunnelIsSafe | enta/src/main.rs:84-94 | in every run of both directions each delivers a prefix of what was pulled into it, equal with what is in flight while all its tasks run |
| Tunnel.AllOrNothing | entg/src/main.rs:82-88 | when nothing can move, either every task of both directions runs and nothing is held, or every task has ended |
| Tunnel.CloseReachesEverything | enta/src/main.rs:89-92 | once any task has ended, in any run the tasks take at most the measure's number of steps and what packets read meanwhile add; when they stop all have ended |
| Tunnel.CtrlCEndsEverything | enta/src/main.rs:90-93 | after a Ctrl-C at either ENTA the tasks take a bounded number of steps and then all have ended |
| Tunnel.CtrlCEndsTheAgent | enta/src/main.rs:89-93 | Ctrl-C at an ENTA drops its four tasks, all four, with what they held, and changes nothing else |
| RelayProgress.PullAddsWork | enta/src/capture/tun.rs:147-159 | reading a packet adds its bytes to the measure once for every place on its way |
| Tunnel.TasksRunOut | enta/src/main.rs:86-92 | such a run to the end exists from every state |
| TunnelLoss.NothingLostIff | enta/src/main.rs:185-189 | in every run of both directions, a direction loses nothing iff everything it does or suffers from selects meets its demand; once its sink has ended, iff all is delivered |
| TunnelLoss.DeployedLosesNothingIff | enta/src/main.rs:84-94 | the same from the start, over any number of ENTGs and any mix of connections |
| TunnelLoss.SelectCanDropTheQueue | enta/src/main.rs:185-189 | two steps, neither an error, after which the queue of to_entg is lost |
| TunnelLoss.QueueLostFromStart | enta/src/main.rs:185-189 | over every chain of connections a run without errors from the start loses a packet that was queued in time |
| TunnelLoss.ForwardLosesNothing | enta/src/main.rs:144-160 | if the forward branch finishes first in every select and meets no fault, nothing pulled is lost |
| OneWay.OneWayRun | entg/src/main.rs:82-88 | with nothing travelling backward, under every order of the tasks, no select ever cancels a running forward task |
| OneWay.OneWayClose | enta/src/capture/tun.rs:168-172 | so from the start over every chain: nothing is lost, all is delivered when the tasks stop, and if the TUN ended every task has |
| OneWay.EveryListIsCarried | enta/src/main.rs:144-160 | for every list of packets such a run exists: all pulled, TUN ended, all delivered, everything closed |
| Deployment.DeployOk | entg/src/main.rs:91-106 | every chain of plain and rats-tls connections gives a well-formed tunnel at its start |
| Deployment.EveryCopyHasATwin | entg/src/main.rs:77-85 | every copy of one direction has its select partner in the other |
| Deployment.DirectionsMatch | rats-tls/src/lib.rs:166-218 | both directions pass the same connections in opposite order: where the hops of each link are in either line, which hops they are, and who writes |
| Deployment.ChainCapacity | rats-tls/src/lib.rs:155-218 | the FIFO capacity of a chain of connections, as a number |
| Deployment.EndToEnd | enta/src/main.rs:84-94 | over any number of ENTGs, any mix of connections and every run: prefix delivery both ways, packets under way within that number, and the 130-packet and 2048-byte bounds |
| Pump.Task.Refill | rats-tls/src/lib.rs:172-176 | one read into the buffer is the hop's fetch and takes the front of the pipe |
| Pump.Task.WriteSome | rats-tls/src/lib.rs:177-179 | one partial write is the hop's emit and loses nothing |
| Pump.Task.Finish | rats-tls/src/lib.rs:188 | returning shuts the writing end down once, and is the hop's end at end of file |
| Pump.Task.WriteAll | rats-tls/src/lib.rs:177-186 | the inner loop ends, with written plus unwritten bytes unchanged, and all written if no write failed |
| Pump.WriterTask | rats-tls/src/lib.rs:169-189 | sent is a prefix of taken; at end of file everything there was is sent; before that it ends iff a read or a transmit fails; one shutdown, after the last transmit |
| Pump.ReaderTask | rats-tls/src/lib.rs:193-217 | the user gets a prefix of what was received, all of it unless the user left, then one end of file; it ends iff the session ended or failed or the user left |
| Enta.Inbox.Recv | enta/src/main.rs:146 | None exactly when the channel is empty and closed, otherwise its front |
| Enta.Inbox.Take | enta/src/capture/tun.rs:131 | taking a packet for the device is the step SnkRecv |
| Enta.Outbox.Send | enta/src/main.rs:167 | appends, or fails because the receiver is gone, and then the sender breaks off |
| Enta.Outbox.Push | enta/src/capture/tun.rs:152-155 | putting a packet in is the step SrcSend of from_tun and the step DecSend of from_entg |
| Enta.TakeOutbound | enta/src/main.rs:146-149 | taking a packet to frame it is the step EncRecv, and EncTooBig if the codec refuses it |
| Enta.LoadNext | enta/src/main.rs:146-156 | the next packet framed or refused, or the end of the channel exactly when nothing is left, where EncEnd follows |
| Enta.Device.Write | enta/src/capture/tun.rs:134 | a write to the device that succeeds is the step SnkDeliver; one that fails is recorded |
| Enta.DeliverNext | enta/src/capture/tun.rs:130-142 | one turn of to_tun: the front is written, or the device fails, or the channel is at its end and SnkEnd follows |
| Enta.ToEntg | enta/src/main.rs:144-160 | the stream gets a cut of the encoding of the packets that fit; if no write fails, all of them up to the first refused one, and the loop drains the channel iff none is refused; at most one round per packet left and one more |
| Enta.WriteSome | enta/src/main.rs:149 | one partial write of a frame is the first hop's emit |
| Enta.FeedSome | enta/src/main.rs:164 | one read of the framed stream is the step DecFetch, for a chunk of any size |
| Enta.TryDecode | enta/src/main.rs:164 | one attempt to decode is the step DecFrame or DecBad, or at the end of the stream DecEnd, with the state each leaves |
| Enta.NextFrame | enta/src/main.rs:164 | the next item is the first packet of the bytes ahead, or an end only if they hold none |
| Enta.PassNext | enta/src/main.rs:163-183 | one turn of from_entg: the next packet is queued, or to_tun is gone, or the stream has ended, or a read failed or a header was refused |
| Enta.FromEntg | enta/src/main.rs:162-184 | what is queued is a prefix of the packets of the stream; all of them unless to_tun is gone or a read fails, and then it sees the end iff no header is refused |
| Enta.ToTun | enta/src/capture/tun.rs:129-145 | what is written is a prefix of the channel's packets; it stops before the channel's end iff the device fails; bounded rounds |
| Enta.PacketsOf | enta/src/capture/tun.rs:147-164 | of what the device yields errors count for nothing and packets for themselves, wherever they come |
| Enta.FromTun | enta/src/capture/tun.rs:147-166 | read errors are skipped; what is queued is a prefix of the packets read, all of them at the device's end, and it stops before only if to_entg is gone |
| Entg.Rendezvous | entg/src/main.rs:54-75 | a branch is always enabled, no finished future is polled, both slots are full on success, at most two rounds |
| Entg.Poll | entg/src/main.rs:82-85 | one step of a copy keeps passed on plus held plus to come; it fails iff a read or a write fails |
| Entg.Race | entg/src/main.rs:82-85 | for every order in which the copies are polled both keep that; the one polled last is the one that is done, at end of file with nothing held or to come, or because it failed |
| Entg.Forward | entg/src/main.rs:77-85 | each side gets a prefix of what the other sent; all of it in the direction that ended with end of file, and unless something fails one does |
| Session.StepKeeps | rats-tls/src/lib.rs:128-218 | every step keeps: the counter is the number of holders, uses only while there is one, then one clean-up |
| Session.CleanedUpOnceAfterLastUse | rats-tls/src/lib.rs:56-62 | on every run the handle is cleaned up once when nobody holds it, not before, and never used afterwards |
| Session.StreamNeedsSuccess | rats-tls/src/lib.rs:139-152 | on every run: the stream is there only if the foreign negotiation was made and succeeded, and every call of a pump comes after that |
| Session.NoCallsAfterFailure | rats-tls/src/lib.rs:139-152 | on a run in which it failed no pump ever makes a call and no stream is returned |
| Session.StepFinishes | rats-tls/src/lib.rs:136-218 | every step that is not a call brings the end nearer |
| Session.SomebodyCanFinish | rats-tls/src/lib.rs:136-218 | as long as somebody holds the handle such a step is possible |
| Session.HandleIsReleased | rats-tls/src/lib.rs:56-62 | from every reachable state the handle can be released within that many steps |
| Session.Shared.Clone | rats-tls/src/lib.rs:139-167 | cloning is the counted step it stands for |
| Session.Shared.Drop | rats-tls/src/lib.rs:56-62 | dropping is the counted step it stands for and cleans up exactly at zero |
| Session.NegotiateInTask | rats-tls/src/lib.rs:136-152 | for every fate: the stream iff it was not dropped and the negotiation ran and succeeded, else an error; one share is left on success, none after an error, after cancellation at most the negotiating one |
| Session.NegotiateAsync | rats-tls/src/lib.rs:128-221 | dropped, stream or error exactly as drop, socket conversion and the negotiation's result say; on success the two pumps hold the handle, after an error it is cleaned up, a dropped future leaves it to the negotiation |
| Session.PumpsRun | rats-tls/src/lib.rs:166-218 | for every order of calls and endings of the pumps, one clean-up at the end |
| Netfilter.CaptureTakesEffect | enta/src/capture/tun.rs:49-52 | what each command achieves: in the end packets to the captured port, and no others, are diverted, looked up in table 8, and find the default route there |
| Netfilter.ReplayTakesEffect | enta/src/capture/tun.rs:68-70 | incoming packets are redirected to the replay port and nothing else changes |
| Netfilter.System.CaptureScript | enta/src/capture/tun.rs:49-54 | the script stops at the first failure; the tables show exactly the commands that succeeded |
| Netfilter.System.SetUpNetfilter | enta/src/capture/tun.rs:45-81 | both scripts, the second only after the whole first; success exactly when all ran |
| Netfilter.System.Delete | enta/src/capture/tun.rs:87 | deletes the first match, if any |
| Netfilter.System.CleanUpNetfilter | enta/src/capture/tun.rs:83-120 | commands run regardless of each other and any may fail; an early return only where the code has one; success iff the last command of each script worked |
| Netfilter.RunAndCleanUp | enta/src/main.rs:61-72 | clean-up follows whatever point set-up reached, including none |
| Netfilter.CleanUpRestores | enta/src/capture/tun.rs:83-120 | from untouched tables and every stopping point, clean-up restores them exactly iff each command with something to undo runs and works |
| Netfilter.ChainAsMultiset | enta/src/capture/tun.rs:87-90 | with an identical rule already there the chain is kept as a multiset iff the rule was appended or was not there |
| Netfilter.ChainAsSequence | enta/src/capture/tun.rs:87-90 | and in order iff nothing else follows the first such rule |
| Netfilter.TableEightIsEmptied | enta/src/capture/tun.rs:88-89 | table 8 and its policy rules come back iff they were unused |
| Echo.RunClient | examples/echosvr/src/main.rs:64-98 | both checks pass iff the stream is exactly the data; what each check alone means; a verdict unless a read fails |
| Echo.ContentCheckIff | examples/echosvr/src/main.rs:62-97 | a short answer passes the content check iff it is a prefix of the data and every missing byte is zero; a long one iff it starts with the data |
| Echo.ContentMeansAllArrived | examples/echosvr/src/main.rs:92-97 | for data not ending in zero the check passes iff the answer starts with the data |
| Echo.GreetingCheck | examples/echosvr/src/main.rs:48 | so it is for the greeting the client sends |
| Echo.Serve | examples/echosvr/src/main.rs:109-132 | the output is a prefix of the input, equal to it at end of file; it gives up only in a round in which a read or write fails |
| Echo.EchoOverLink | examples/echosvr/src/main.rs:41-132 | over a link that only cuts, PASS on both counts iff nothing was cut; without errors there is a verdict |

## Left out

- The foreign library behind rats-tls, attestation and verification: only the contracts above are used.
- `RatsTls::new`, its configuration and the derived `Clone`: a few branches; ownership starts at `negotiate_async`.
- TUN device internals, the packet information header and kernel routing: a TUN is a source and a sink of packets.
- Connecting, listening, arguments and logging: plumbing around the parts modelled.
- Scheduling and time: progress is a possible step and a decreasing measure, not a fairness claim.
- Echo.SendBack: says how much of the buffer went out, and takes a partial write that then fails as sent up to that point.
- OneWay.OneWayClose: stated from the near TUN; from the far one it is the same chain with the ENTGs numbered from the other end.
- Enta.FromTun: the packets and errors the device yields are a parameter; reading one (`Pull`) and the device's end (`SrcEnd`) are steps of the outside.
- Pump.ReaderTask: the number of empty chunks in a run is a parameter, because an endless row of them would never end.
- Relay.Next: a TUN read error changes nothing and is not a step; packets queued for a receiver that has ended stay in the state, out of reach.
