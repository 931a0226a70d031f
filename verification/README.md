# ShadowLAN: verified model of the relay and the hook

ShadowLAN joins machines into one virtual LAN. A relay (`server.py`) accepts
control connections, hands out virtual addresses, forwards datagrams and splices
TCP streams; a hook inside each game process (`hook/hk_*.c`) replaces the socket
calls by queues that a few threads move to and from the relay. This project models
the parts that are protocol state, shared queues and allocators, and proves what
they promise over every run, every interleaving of the steps named below, and every
input.

Code that updates state in place is a class whose methods are proved equal to a
step of a small machine or to a function on values; the theorems are about that
machine or function. The Outcomes modules fix what each step of those does, told by
the tables before and after and with the numbers of the protocol written out.

| file | component |
|---|---|
| `Wire.dfy`, `Deframe.dfy` | frame layout; incremental deframing against batch reading |
| `Layouts.dfy` | the bytes of a frame and of an ASSIGN, place by place |
| `StreamEngine.dfy`, `StreamTheorems.dfy` | one tunneled stream: app threads, pump, exit drain, wake slots |
| `StreamOutcomes.dfy` | what each look and each event does to the app's call, the queues and the sleepers |
| `StreamSenders.dfy` | senders asleep on a full queue, and the two ways one is left with nothing to wake it |
| `StreamWitnesses.dfy` | runs of that machine in which its exit drain fails a promise |
| `ChunkQueues.dfy`, `WaitSlots.dfy` | the chunk lists and the wake-slot array behind that machine |
| `JoineePump.dfy`, `JoineePumpOutcomes.dfy` | the joinee's two-slot full-duplex pump and its final drain |
| `ControlLink.dfy` | the control send queue across link deaths and redials |
| `RelayQueue.dfy`, `RelayQueueTheorems.dfy`, `RelayQueueOutcomes.dfy` | the relay's per-connection send queue with its drain task |
| `Handshake.dfy`, `HandshakeTheorems.dfy`, `HandshakeOutcomes.dfy`, `RelayStreams.dfy` | the stream handshake: machine, theorems, the relay's methods |
| `Membership.dfy`, `MembershipOutcomes.dfy` | addresses, links, pruning and eviction |
| `Assign.dfy`, `VirtualNet.dfy` | the member table on the wire and the hook's lookups |
| `Ledger.dfy` | the shared port ledger of one machine |
| `UdpRouting.dfy`, `UdpTheorems.dfy`, `UdpOutcomes.dfy`, `UdpRelay.dfy` | datagram routing, the flow table and where a link gets its address |
| `UdpWitnesses.dfy` | rooms in which one link is handed two copies |
| `Beacon.dfy` | beacon fan-out |
| `Icmp.dfy` | the ICMP echo reply and its checksum |

A step is one section under the hook's lock, one system call between two such
sections, or the relay's code between two suspension points. A frame of a few bytes
on a per-stream connection is assumed to be written without suspending. Clocks,
socket results, which connection is closing and which process lives are inputs.

## Where the code does less than it promises

Each entry has a theorem with the exact condition and one that reaches a failing case.

- Exit drain, failed send. A send that fails after writing m > 0 bytes leaves the whole
  chunk queued, although the comment at `hook/hk_stream.c:422` says the rest is dropped:
  those bytes would go out twice (`ConservedIffNeverTorn`, `DrainFailTearsIff`, `TearReachable`).
- Sleeping senders. The exit drain never signals room. When it takes the last queued
  byte over a sleeper without a wake byte, that sleeper is stranded; and a last drain can
  take the wake byte of one that has it (next entry). In every run all waiters are served
  if and only if neither happens (`ServedInEveryRun`, `StepStrandsIff`); when slots are
  released in order only the first can (`SenderStrandedIff`). Both are reached
  (`StrandReachable`, `RobReachable`).
- Slot release. `dt_wait_done` drains the channel after it has released the slot, and may
  take a byte of the slot's next owner. Every waiter stays armed or poked throughout a run
  if and only if no such drain empties the channel of one that is disarmed or has something
  to report (`WakeInEveryRun`, `LateDrainBreaksIff`, `LateDrainLosesByte`); none does when
  it ends before the slot is taken again (`OrderlyIsCalm`).
- `r_send` and a replaced queue. A coroutine asleep in `r_send` keeps the queue object
  it looked up. When it wakes after the drain task was replaced, its frame is counted
  for the new queue and put in the dead one (`CountersInEveryRun`,
  `StaleSleeperBreaksIff`, `StaleSleeperReachable`).
- The blocking `q.put`. It is reached through teardown's uncounted stop mark, or by such
  a sleeper whose dead queue is still full, which then waits for ever
  (`BlockingPutIff`, `StopMarkBlocks`, `DeadQueueBlocks`).
- Stuck streams. `STF_HOST_FAILED` is used at `server.py:685`, `712` and `717` but not
  imported, and the wait at `server.py:692-696` does not catch every OSError as the
  other reads of a connection do. Either exception leaves the stream in the table for
  good (`StuckIff`, `StuckReachable`).
- Gathered claims. When an unaddressed stream ends before its election, the claims
  gathered for it get no verdict and are not closed (`OrphanedIff`, `OrphanReachable`).
- Re-registered connections. A connection that registers again under another node
  stays a link of the first; a beacon from the second node then misses it
  (`ServedIff`, `ReregisteredMissed`).
- UDP-over-TCP links. A link can be asked twice, by its own identity and by a UDP address
  that resolves to it, or by two such addresses (`FanOutTwiceIff`, `NodeTwiceIff`,
  `TunnelledLinkTwice`, `SiblingTwice`); without such links it cannot (`CarriersApart`).

## Model

| member | source | states |
|---|---|---|
| Deframe.ParseOfEncodeAll | common.py:416-429 | Reading back any list of sendable frames, followed by any incomplete bytes, yields exactly those frames and those bytes |
| Deframe.ParseAppend | hook/hk_stream.c:1545-1567 | Bytes that arrive later never change the frames already cut off; they only extend the tail |
| Deframe.CutFrames | hook/hk_stream.c:1545-1567 | The loop cuts exactly the frames of the batch reading, and stops at a bad length or at less than one frame |
| Deframe.Reassembly.MakeRoom | hook/hk_stream.c:1526-1533 | Before every read at least 65536 bytes are free and the unparsed bytes are kept |
| Deframe.Reassembly.Receive | hook/hk_stream.c:1534-1567 | After any read the frames dispatched so far are the parse of everything received, the buffer is the unparsed tail, and a bad length is reported exactly when the parse has one |
| Deframe.ReadLink | hook/hk_stream.c:1526-1567 | However much the socket has to give at each read, recv takes it up to the free space, and the frames dispatched are the parse of the bytes read up to the first bad length |
| Layouts.FrameLayout | hook/hk_ports.c:215-223 | A frame is its length, most significant byte first and counting type and payload, then the type, then the payload |
| Layouts.ParseLayout | common.py:421-428 | A length of 0 or above 8 MiB ends the link at once; an incomplete frame waits; a whole one is taken by those places and reading goes on behind it |
| StreamTheorems.QueuesInEveryRun | hook/hk_stream.c:778-836 | In every interleaving: bytes accepted equal bytes on the wire then bytes queued (while no drain send tore and the stream is not freed), pump and exit drain are never both mid-send, the queue stays within DT_ST_MAXOUT, and the in-queue keeps and orders everything appended |
| StreamTheorems.ShutAfterLastByte | hook/hk_stream.c:685-694 | A half-close is announced only when every accepted byte is on the wire |
| StreamTheorems.ConservedIffNeverTorn | hook/hk_stream.c:778-836 | In every run, while the stream is not freed, accepted bytes are the wire then the queue if and only if no exit-drain send has failed after writing something |
| StreamTheorems.DrainFailTearsIff | hook/hk_stream.c:416-432 | A failed exit-drain send breaks conservation if and only if it had already written some bytes |
| StreamWitnesses.TearReachable | hook/hk_stream.c:396-432 | A run in which an exit-drain send fails after m bytes and breaks conservation, for every buffer and m |
| StreamTheorems.ReportsInEveryRun | hook/hk_route.c:202-226 | A finished send call that reported k queued exactly the first k bytes of its buffer, in order, whatever other senders did |
| StreamTheorems.WakeInEveryRun | hook/hk_sess.c:602-682 | In every interleaving of arm, look, sleep, drain, rearm and poke, every waiter of every state holds a wake byte, or is armed with nothing to report (a sleeping sender: attached, the full mark set), if and only if no last drain took the byte of an owner of its slot that was not |
| StreamTheorems.OrderlyIsCalm | hook/hk_sess.c:641-648 | When every last drain ends before its slot is taken again, none takes such a byte |
| StreamTheorems.LateDrainBreaksIff | hook/hk_sess.c:641-648 | A last drain breaks another owner exactly when that owner has the same slot, the channel holds a byte, and the owner is disarmed or has something to report |
| StreamTheorems.NoLostWakeup | hook/hk_route.c:431-479 | A thread asleep in recv, poll, connect or send has a wake byte waiting, or its slot is armed and there is nothing it would report |
| StreamTheorems.EventLeavesByte | hook/hk_stream.c:869-916 | Data queued, a connect verdict, SHUT_RD, a reset, a close, or a FIN for a reader or poller leaves a wake byte with everyone asleep on the stream |
| StreamOutcomes.SendFits | hook/hk_route.c:128-184 | A write to an open stream that fits within 262144 bytes is queued whole, and the call reports all of it |
| StreamOutcomes.SendMustWait | hook/hk_route.c:128-138 | A write of at most 262144 bytes that does not fit, or any write to a full queue, leaves the queue as it is and marks it full; a nonblocking call reports what it had queued, a blocking one goes on |
| StreamOutcomes.SendFills | hook/hk_route.c:128-142 | A longer write fills the queue to exactly 262144 bytes; a nonblocking call reports that part, a blocking one goes on with the rest |
| StreamOutcomes.SendToNone | hook/hk_route.c:114-127 | A stream that is not ours, shut for writing or dead takes nothing and the call returns |
| StreamOutcomes.SendRefusals | hook/hk_route.c:114-127 | Not ours comes before EPIPE, EPIPE before a reset |
| StreamOutcomes.RecvOutcome | hook/hk_route.c:245-293 | A recv takes the oldest bytes it has room for, and returns exactly when there were any or the stream has ended |
| StreamOutcomes.EofAfterLastByte | hook/hk_route.c:245-293 | In every run, a recv that returns without a byte has had every byte kept for the app |
| StreamOutcomes.WaitOutcome | hook/hk_route.c:326-336 | poll reports a stream exactly when a recv would return, a connect exactly when there is a verdict; neither takes anything |
| StreamOutcomes.CheckOutcome | hook/hk_route.c:463-475 | A recv that found nothing returns when the socket no longer names the stream, and sleeps when it does |
| StreamOutcomes.SlotLife | hook/hk_sess.c:602-648 | Each step on a wake slot changes that slot only: taken, armed, drained then armed again, released and only then drained |
| StreamOutcomes.PumpAccountOutcome | hook/hk_stream.c:816-834 | The pump takes what it sent off the queue; it clears the full mark, and wakes every armed sleeper, exactly when at most 174762 bytes remain |
| StreamOutcomes.ArriveOutcome | hook/hk_stream.c:890-915 | Bytes are queued, and everybody woken, exactly while the in-queue stays within 1 MiB |
| StreamOutcomes.FinOutcome | hook/hk_stream.c:869-887 | The peer's FIN leaves what is queued to be read, and wakes readers when nothing is |
| StreamOutcomes.CloseOutcome | hook/hk_route.c:361-400 | close wakes everybody; before the link is up it frees the stream, later the out-queue stays to be sent |
| StreamOutcomes.RetireOutcome | hook/hk_stream.c:919-945 | The pump's end kills the stream, and frees it and wakes everybody exactly when the app had closed it or shut it for writing |
| StreamSenders.ServedInEveryRun | hook/hk_sess.c:602-682 | In every run, every waiter of every state is served and every sleeping sender has a wake byte or bytes queued under the full mark, if and only if no last drain took a byte its slot's next owner needed and no exit drain took the last queued byte over a sleeping sender without a wake byte |
| StreamSenders.StepStrandsIff | hook/hk_stream.c:816-834 | Whatever the step, a sender that would hear of room still sleeps and no longer will exactly when the exit drain empties the marked queue while it has no wake byte, or a last drain takes that byte |
| StreamSenders.SenderStrandedIff | hook/hk_route.c:202-226 | In every run whose last drains end before their slot is taken again, all sleeping senders of all states will hear of room if and only if no exit drain emptied the full queue under one without a wake byte |
| StreamSenders.StrandedOnce | hook/hk_route.c:202-226 | A sender that will not hear of room has slept since the step that stranded it, and the queue is empty |
| StreamSenders.ExitDrainStrandsIff | hook/hk_stream.c:416-432 | The exit drain strands a sleeper exactly when it takes the last byte and the sleeper has no wake byte |
| StreamWitnesses.StrandReachable | hook/hk_stream.c:396-432 | A run that ends with a sender asleep over an empty queue and nothing to wake it |
| StreamWitnesses.RobReachable | hook/hk_sess.c:641-648 | A run in which the exit drain empties the queue over a sleeper with a wake byte and the slot's previous owner then takes that byte |
| StreamTheorems.LateDrainLosesByte | hook/hk_sess.c:641-648 | A run in which the late drain of a released slot swallows the new owner's wake byte |
| ChunkQueues.OutQueue.Send | hook/hk_route.c:110-184 | A write of at most 262144 bytes to an open stream is queued whole exactly when it fits and is else refused; a longer one fills the queue and is refused only when that is full; not ours, EPIPE and reset come in that order; exactly the answered prefix is appended, and the full mark set when anything was refused |
| ChunkQueues.OutQueue.TakeForPump | hook/hk_stream.c:783-791 | The pump takes nothing exactly when the queue is empty or the exit drain has claimed it |
| ChunkQueues.OutQueue.AccountForPump | hook/hk_stream.c:816-834 | The first k bytes leave the queue; the full mark clears, and senders are signalled, only at the room level |
| ChunkQueues.OutQueue.TakeForDrain | hook/hk_stream.c:401-415 | The exit drain takes nothing exactly when the queue is empty or a send is in flight |
| ChunkQueues.OutQueue.AccountForDrain | hook/hk_stream.c:416-432 | A chunk sent whole leaves the queue; after a failed send the queue is unchanged |
| ChunkQueues.InQueue.Pop | hook/hk_route.c:247-281 | A pop returns exactly min(requested, queued) of the oldest bytes, and the pop followed by what remains is the old queue |
| ChunkQueues.InQueue.Append | hook/hk_stream.c:890-912 | An arrival is appended whole, or not at all when it would pass DT_ST_MAXIN |
| ChunkQueues.PopsThenQueue | hook/hk_route.c:247-281 | Over any arrivals, pops and SHUT_RDs the pops followed by the queue are everything appended and not discarded |
| ChunkQueues.LiveThrough | hook/hk_stream.c:890-912 | The chunk list driven through any such sequence gives the app those bytes, and FIONREAD the queue's length |
| ChunkQueues.ReadCounted | hook/hk_linux.c:614-623 | A read of the FIONREAD count returns the whole queue and is never short |
| WaitSlots.Table.Claim | hook/hk_sess.c:602-611 | The first free slot is taken; none exactly when all are used |
| WaitSlots.Table.Poke | hook/hk_sess.c:671-680 | The array after a poke, seen from any socket, is the machine's poke: one wake byte and a disarm for each armed slot that names it |
| WaitSlots.WaitFor | hook/hk_sess.c:602-680 | One whole wait over the table: a byte is found exactly when the socket was poked after the arm, or one was left over, and the slot is given back empty |
| JoineePump.ConservedInEveryRun | hook/hk_stream.c:1107-1209 | In each direction bytes read are bytes delivered then the hold; STSHUT is queued only when the relay's socket has every game byte, and the game gets its FIN only after every relay byte |
| JoineePump.OutwardIndependent | hook/hk_stream.c:1086-1092 | Runs that agree on the game-to-relay sockets move the same bytes there, whatever happens the other way |
| JoineePump.InwardIndependent | hook/hk_stream.c:1151-1200 | The relay-to-game direction likewise; the other side can only put off a read of the relay, in the turns its EOF or an empty game socket ends |
| JoineePump.DrainDelivers | hook/hk_stream.c:1278-1305 | The final drain delivers as much of the hold as the sink makes room for before it fails or the deadline comes; nothing is lost exactly when that is all of it |
| JoineePumpOutcomes.TurnOutcome | hook/hk_stream.c:1134-1210 | Each sink takes what it is ready for of its hold; each source is read into an empty hold until its FIN, the relay not after a game that had nothing; an EOF is noted and only an error ends the loop |
| JoineePumpOutcomes.FinsOutcome | hook/hk_stream.c:1115-1129 | Each FIN is passed on once, at the top of the first turn that finds its side's hold empty |
| JoineePumpOutcomes.FinLeavesOtherRunning | hook/hk_stream.c:1134-1210 | After one side's FIN the other direction is still read and delivered |
| JoineePumpOutcomes.FailureOutcome | hook/hk_stream.c:1147-1162 | A failed send ends the loop: what the other socket took stays taken and nothing is read |
| JoineePumpOutcomes.StopOutcome | hook/hk_stream.c:1107-1114 | A stopped process, a dead stream or both FINs end the loop with nothing moved |
| JoineePump.Slot.Fill | hook/hk_stream.c:1151-1174 | Only an empty slot is ever written, and then holds what was read |
| JoineePump.Bridge.SocketCalls | hook/hk_stream.c:1134-1209 | The sends and reads of a turn are the machine's step, in the code's order, and the loop breaks exactly when it does |
| JoineePump.Bridge.Loop | hook/hk_stream.c:1107-1209 | The loop makes the machine's turns and stops exactly at the turn that ends it |
| JoineePump.Bridge.FinalDrain | hook/hk_stream.c:1278-1305 | Both holds are drained as specified, each by its own socket's answers |
| ControlLink.OrderInEveryRun | hook/hk_stream.c:1451-1480 | Over any enqueues, sends, link deaths and redials, each link carries whole frames and at most one truncated last frame, and the byte counter is exact |
| ControlLink.RelayReadsSent | common.py:422-429 | What the relay reads from a link is exactly the frames sent whole on it |
| ControlLink.OnlyTornFramesAreLost | hook/hk_stream.c:1586-1600 | Frames delivered, frames a link died inside, and frames waiting are together everything accepted, in order and once |
| ControlLink.EnqueueOutcome | hook/hk_ports.c:208-246 | A frame of kind other than 6 and 3 always joins the end of the queue; one of those exactly when the bytes waiting and its own stay within 65536 |
| ControlLink.NothingLastingIsDropped | hook/hk_ports.c:208-246 | In every run, the frames offered that may not be dropped are those that left on some link, are in progress or wait, in order and once each |
| ControlLink.Sender.Queue | hook/hk_ports.c:208-246 | A game datagram or a beacon that would pass 65536 bytes waiting is dropped; any other frame joins the end of the queue with its bytes counted |
| ControlLink.Sender.Flush | hook/hk_stream.c:1451-1480 | The flush loop makes only takes and pushes of the machine, every send takes all its socket has room for, and it ends only with nothing to send, at a send that would block, or with a dead link |
| ControlLink.Sender.Redial | hook/hk_stream.c:1586-1600 | An untouched frame returns to the head of the queue; a half-sent one is given up and uncounted |
| ControlLink.LinkLives | hook/hk_stream.c:1445-1600 | Over any number of links, however much each takes before it dies, what was accepted is what left on some link and what waits, in order, and the counter is what waits |
| RelayQueueTheorems.CountersInEveryRun | server.py:135-189 | In every run the counters are the registered queue's frames and bytes together with the frames put in older queue objects, so they are exact if and only if there are none; the queue stays within 1024 frames and 4 MiB plus its newest frame |
| RelayQueueTheorems.FifoInEveryRun | server.py:135-189 | Every queue object is first-in first-out in every run, stale sleepers included |
| RelayQueueTheorems.DroppableWithinBound | server.py:147-156 | In every run a droppable frame is admitted only if everything waiting, it included, stays within 64 KiB |
| RelayQueueTheorems.BlockingPutIff | server.py:157-167 | In every run, for a first pass and for a waking sleeper, the blocking put is reached exactly when the counters show room and the queue held is the registered one with the stop mark in its last place, or an older one and full |
| RelayQueueTheorems.StopMarkBlocks | server.py:917-926 | A run that blocks through the stop mark: 1023 frames, teardown, one more send |
| RelayQueueTheorems.DeadQueueBlocks | server.py:157-189 | A run that blocks without any teardown: 1024 frames, a sleeper, the drain task's end, a fresh queue, the sleeper's wake |
| RelayQueueTheorems.StaleSleeperBreaksIff | server.py:157-167 | A waking sleeper keeps the counters right if and only if the queue it holds is the registered one |
| RelayQueueTheorems.StaleSleeperReachable | server.py:157-189 | A run of small frames that breaks the counters that way |
| RelayQueueOutcomes.DroppableOutcome | server.py:147-166 | A droppable frame joins the queue and is counted exactly when fewer than 1024 wait, the bytes stay within 64 KiB and there is a place; else it is gone, and its sender never waits |
| RelayQueueOutcomes.LastingOutcome | server.py:157-167 | Any other frame is never dropped: it joins, its sender sleeps with it while 1024 frames or more than 4 MiB wait, or its sender blocks |
| RelayQueueOutcomes.WakeOutcome | server.py:157-167 | A sleeper makes the same tests with the queue it found; its frame is lost exactly when the queue was taken away |
| RelayQueueOutcomes.DrainOutcome | server.py:169-181 | The oldest frame is written and counted off; the stop mark takes the queue away |
| RelayQueueOutcomes.TeardownOutcome | server.py:917-926 | Teardown puts one stop mark behind what waits, if there is a place |
| RelayQueueOutcomes.DroppableJoinsIff | server.py:147-166 | In every run without stale frames or stop mark, a droppable frame is queued exactly when the frames waiting are fewer than 1024 and their bytes with its own within 64 KiB |
| RelayQueue.Writer.RSend | server.py:135-167 | The coroutine's first pass makes the machine's step and meets the fate the tests decide |
| HandshakeTheorems.OneVerdictPerOpener | server.py:395-411 | In every run no opener is written two verdict frames: an STFAIL never follows an STOK |
| HandshakeTheorems.GrantsInEveryRun | server.py:545-667 | At most one grant a stream; an addressed one to the node asked for; an unaddressed one to a claim no gathered claim outscores; no OK to a joiner without a grant |
| HandshakeTheorems.ElectionOutcome | server.py:584-667 | The first of the best claims is granted and told so, every other one is told BUSY and closed; the opener is told OK, or refused when the winner is lost; with either end lost the stream is gone and both connections are closed |
| HandshakeTheorems.IndexInEveryRun | server.py:373-393 | Every sid listed under a node is a live stream of that node; a stream in handshake is listed under its nodes; an opener whose stream is gone was hung up on |
| HandshakeTheorems.BoundedHandshake | server.py:520-543 | Ten seconds after it was opened, or the least wait after a late claim, with due timers run, a stream is piping or gone unless the wait for its answer ended in an uncaught exception |
| HandshakeTheorems.StuckIff | server.py:690-719 | A stream is stuck if and only if the wait for its joinee's answer ended in an exception the code does not catch (a stray frame, or an OSError that is not listed), and then for good |
| HandshakeTheorems.StuckReachable | server.py:690-719 | Either way such a stream is reachable and outlasts any time |
| HandshakeTheorems.NodeDeathEndsHandshakes | server.py:902-916 | A node's death ends exactly the handshakes it takes part in, hangs up their openers, and empties its index entry |
| HandshakeTheorems.OrphanedIff | server.py:584-598 | A gathered claim is left without an answer and unclosed exactly when its stream ends by deadline or by its opener's node's death |
| HandshakeTheorems.OrphanReachable | server.py:520-543 | Runs that orphan a claim either way |
| HandshakeOutcomes.BridgedPipes | server.py:702-709 | After STJOINED in time the stream pipes: ends, destination and index entries kept, the deadline task cancelled, nobody told or hung up on |
| HandshakeOutcomes.EndedIsOver | server.py:692-719 | The joinee's own STFAIL, a caught loss, the end of the wait or of the pipe: the stream has left every table, both ends are closed, no frame is written |
| HandshakeOutcomes.EscapedSticks | server.py:690-719 | After an exception that escapes the stream stays listed, and no end is closed but the joinee's after a bad frame |
| HandshakeOutcomes.PipingIff | server.py:690-754 | In every run a stream pipes if and only if its STJOINED came and its pipe has not ended since |
| HandshakeOutcomes.ReadyLeavesIff | server.py:690-719 | A granted stream leaves the table before it pipes exactly by its joinee's refusal, a caught loss or the end of the wait |
| HandshakeOutcomes.OpenRefusedOutcome | server.py:413-480 | A disallowed port, an unknown or dark node, a taken sid (BUSY) or nobody to ask: the opener is told so and closed, and no table changes |
| HandshakeOutcomes.OpenAcceptedOutcome | server.py:481-505 | Any other STOPEN is listed under its nodes, waits ten seconds for a joiner, and its opener hears nothing yet |
| HandshakeOutcomes.LateJoinOutcome | server.py:553-571 | A joiner of an unknown stream is closed without a frame, of a claimed one told BUSY and closed; no stream changes |
| HandshakeOutcomes.GatherOutcome | server.py:572-581 | A claim on an unaddressed stream is gathered last, nobody is told, and the first one starts one election task |
| HandshakeOutcomes.WrongNodeOutcome | server.py:616-629 | A claim by another node than the one asked for ends the stream; both ends are told BAD_ID and closed |
| HandshakeOutcomes.GrantedOutcome | server.py:630-675 | A claim by that node: both ends are told OK, and the stream waits for its joiner until its deadline, at least a millisecond |
| HandshakeOutcomes.LostGrantOutcome | server.py:643-673 | With the joiner lost the opener is refused, with the opener lost it is not; the stream is over and the joiner closed |
| HandshakeOutcomes.DeadlineOutcome | server.py:520-543 | At its deadline a stream without a confirmed joiner is refused and over; any other is left as it is |
| HandshakeOutcomes.ScoreIsFreshest | server.py:600-606 | A claim's score is the freshest host-claim stamp of its node's links, 0 without one |
| RelayStreams.Relay.StreamPop | server.py:373-393 | The stream, its index entries and its connections go together, and nothing else |
| RelayStreams.Relay.StreamFail | server.py:395-411 | A framed refusal is written only while the opener still waits for its verdict, then the stream is popped |
| RelayStreams.Relay.HandleStreamOpen | server.py:413-506 | The dictionaries after an STOPEN are the machine's step, each refusal in the code's order |
| RelayStreams.Relay.HandleStreamJoin | server.py:545-582 | The dictionaries after an STJOIN are the machine's step: unknown sid closed, claimed stream BUSY, unaddressed claim gathered, addressed one granted |
| RelayStreams.Relay.ImplicitGrant | server.py:584-614 | The dictionaries after an election, its scan and its BUSY loop included, are the machine's step |
| RelayStreams.Relay.GrantClaim | server.py:616-675 | The sequence of claim, STOK to the joiner and STOK to the opener is the specified effect, with a wrong node refused and a joiner or opener lost on the way |
| RelayStreams.Relay.StreamJoinTimeout | server.py:520-543 | The deadline task refuses a stream still in handshake and leaves any other alone, as the machine does |
| RelayStreams.Relay.AfterWait | server.py:690-719 | After the joinee's answer, a caught loss or an uncaught one the stream is piping, popped without a further verdict, or stuck, as the machine says |
| RelayStreams.Relay.NodeGone | server.py:902-916 | The loop over a dead node's streams pops exactly those in handshake and drops the node's index entry |
| Membership.InvInEveryRun | server.py:253-351 | In every run addresses are distinct and .2 to .254, node ids distinct, and every registered connection maps to a node that holds its link |
| Membership.LiveKeepsAddress | server.py:253-351 | As long as a node keeps a live link its address stays the same over every run |
| Membership.LosesAddressIff | server.py:253-318 | A registration takes an address exactly from a linkless node that is past NODE_TTL, or, with no address free, is the stalest |
| Membership.RefusedIff | server.py:287-308 | A registration with a valid token is refused if and only if the node is unknown and all 253 addresses belong to nodes with live links |
| Membership.PruneOwners | server.py:253-271 | Pruning drops exactly the registrations of closing connections |
| Membership.MembersExactly | server.py:226-233 | The member list is exactly the nodes with a live link and their addresses |
| MembershipOutcomes.StaysIs | server.py:253-271 | An entry outlives a pruning while one of its connections is open and for ten minutes after it was last seen |
| MembershipOutcomes.DarkNodeKeepsAddress | server.py:253-318 | A node whose last connection ends keeps its address for ten minutes against any registration but one that finds the network full and it the stalest; after that it loses it to the first registration of a node not listed |
| MembershipOutcomes.EvictedIs | server.py:290-312 | Evicted is the first node without a link that was seen longest ago, and only when all 253 addresses are taken |
| MembershipOutcomes.DisconnectOutcome | server.py:886-900 | The end of a connection takes its link and registration, and its node is seen now; everything else stays |
| MembershipOutcomes.RegisteredOutcome | server.py:319-351 | After an accepted registration the connection is a link of its node, registered under it, and the node is seen now |
| MembershipOutcomes.NewAddress | server.py:280-318 | A node not listed yet gets the lowest address nobody holds after pruning, and without one that of the stalest node without a link |
| Membership.Directory.PruneNodes | server.py:253-271 | The loop computes the pruned book |
| Membership.Directory.StalestEntry | server.py:297-304 | The scan finds the first linkless entry unseen for longest, or none |
| Membership.Directory.RegisterNode | server.py:273-351 | The dictionaries after a registration are the specified book, and the answer its verdict |
| Membership.Directory.PeerGone | server.py:886-900 | The dictionaries after a disconnect are the specified book |
| Assign.DecodeOfEncode | common.py:245-270 | Decoding an encoded table gives it back, each field modulo its width |
| Assign.EncodeOfDecode | common.py:245-270 | Encoding what was decoded gives the bytes back |
| Assign.EncodeAssign | common.py:245-252 | The loop builds that payload; more than 65535 members is an error |
| Assign.DecodeAssign | common.py:255-270 | The loop reads that table; any other length is refused |
| Layouts.AssignLayout | common.py:245-252 | An ASSIGN is own address, network, prefix length, member count and eight bytes a member, node before address, most significant bytes first |
| Layouts.DecodedLayout | common.py:255-270 | Exactly the payloads of 11 bytes and 8 a member are taken, field by field |
| VirtualNet.PrefixMeansLeadingBits | hook/hk_ports.c:365-372 | The byte-wise subnet test is the comparison of the leading bits, for every prefix length |
| VirtualNet.AcceptedIs | hook/hk_ports.c:331-345 | A payload is taken exactly when its prefix length is 1 to 32, it names at most 256 members and is as long as they need |
| VirtualNet.ResolveIs | hook/hk_ports.c:360-383 | For every prefix length an address resolves only inside the subnet, other than as its base, and to the first member that has it |
| VirtualNet.Hook.ApplyAssign | hook/hk_ports.c:331-358 | An accepted payload replaces the whole table by what it encodes; any other changes nothing |
| VirtualNet.Hook.VirtNode | hook/hk_ports.c:360-383 | The lookup's answer: the first member with the address, within the subnet and not its base, else 0 |
| VirtualNet.Hook.NodeVirt | hook/hk_ports.c:385-395 | The address of the first member with the node id, else 0 |
| VirtualNet.EmittedAccepted | server.py:235-243 | Every ASSIGN the relay can emit is accepted by the hook as the table it stands for |
| VirtualNet.EndToEnd | server.py:226-243 | After it an address resolves to a node exactly when it is that live node's, and a node to its address; everything else to 0 |
| VirtualNet.AssignThenLookUp | server.py:235-243 | The relay's list, its encoding, the hook's decoding and both lookups in one run: the answers are the relay's book |
| Ledger.Registry.Claim | hook/hk_ledger.c:221-294 | 0 exactly when no live process holds the key and some row is free or a dead process's, with the new holder and at most one dead claim reaped; -2 exactly when nobody has the key and live processes hold every row; 1 exactly for two reusing datagram sockets; else -1; but for 0 no row changes |
| Ledger.Registry.Release | hook/hk_ledger.c:296-311 | Exactly this process's claim on this key goes |
| Ledger.Registry.Taken | hook/hk_ledger.c:325-339 | True exactly when some claim of the node names the port |
| Ledger.Registry.Used | hook/hk_ledger.c:313-323 | The count is the number of claims |
| Ledger.RowReplaced | hook/hk_ledger.c:235-290 | Overwriting a free or dead row changes the map by that claim only |
| Ledger.ClaimsNeverOverlap | hook/hk_ledger.c:221-311 | Over any claims, releases, deaths and pid reuse, no two live processes of a node hold the same port |
| Ledger.HeldIsRefused | hook/hk_ledger.c:236-252 | A port held by a live process is never granted; 1 exactly for shared datagram reuse |
| Ledger.RuleOnRows | hook/hk_ledger.c:235-290 | The claim rule told by the rows: 0, -1, -2 and 1 each with its own condition on who lives |
| Ledger.DeadIsGranted | hook/hk_ledger.c:246-251 | A claim of a key whose holder is not running is granted to whoever makes it |
| Ledger.ReusedPidFreesPort | hook/hk_ledger.c:246-251 | A pid that runs again with another start stamp is not the holder: the port goes to the next claimer |
| Ledger.DeathFreesPort | hook/hk_ledger.c:246-251 | A process that dies holding a port leaves it to the next claimer |
| UdpTheorems.FlowsInEveryRun | server.py:1205-1355 | In every run each flow is the last sender recorded for its exact key since the last overflow clear, and there are at most 2048 |
| UdpTheorems.OneCopyEach | server.py:1205-1355 | A datagram goes at most once to any address and never back to its source, but for the relay's own echo reply |
| UdpTheorems.ReplyFollowsExactFlow | server.py:1281-1327 | A reply with an exact flow goes to its last sender alone, or nowhere when expired or to itself |
| UdpTheorems.ReplyFallsBackToFreshest | server.py:1297-1318 | Without one it goes to the freshest unexpired player of the triple, and nowhere when there is none |
| UdpOutcomes.P2PRecords | server.py:1205-1246 | An addressed datagram that reaches somebody records its sender for exactly its node and triple and leaves every other entry; past 2048 the table is cleared; one that reaches nobody records nothing |
| UdpOutcomes.C2SRecords | server.py:1328-1355 | An unaddressed datagram records its sender under every address it is sent to, and leaves every other entry; past 2048 the table is cleared |
| UdpOutcomes.ReplyOutcome | server.py:1281-1327 | A reply that finds a live flow of another player goes to that player alone, refreshes the flow and teaches the player's port its replier; past 2048 such pairs they are forgotten |
| UdpOutcomes.P2PRoundTrip | server.py:1205-1327 | What a node answers to an addressed datagram, from any address it owns without a flow of its own, within two minutes, goes to the sender alone |
| UdpOutcomes.C2SRoundTrip | server.py:1281-1355 | What any address answers that an unaddressed datagram was sent to, within two minutes, goes to the sender alone |
| UdpOutcomes.StickyRoundTrip | server.py:1063-1072 | Then, for less than a minute, the player's datagrams for that port go to the replier alone |
| UdpOutcomes.StaleForgotten | server.py:1063-1072 | A replier learned a minute ago or longer, or that is the sender, is forgotten |
| UdpOutcomes.IcmpOutcome | server.py:1247-1280 | Where an ICMP message goes and when it goes nowhere, with the sender's node decided by its address whatever it says |
| UdpOutcomes.EndpointIs | server.py:1012-1030 | Control connection once switched, else the address heard within two minutes, else the declared port, else nowhere |
| UdpOutcomes.HearIs | server.py:1328-1342 | Hearing an address makes it known as of now, once, and touches no other |
| UdpOutcomes.ProofOutcome | server.py:968-992 | A new address of a node joins its first link never heard, else the one heard longest ago; no other link changes |
| UdpOutcomes.AnnounceTargetIs | server.py:1168-1188 | First that declared it, else first of the IP never heard, else of the IP heard longest ago, else the first |
| UdpOutcomes.RegisterOutcome | server.py:316-353 | What a registration leaves in its connection's link: IP, declared port and address, switch; no other link changes |
| UdpTheorems.FanOutReaches | server.py:1063-1087 | A fan-out reaches exactly the recently heard endpoints and the UDP-over-TCP links, but for the sender |
| UdpTheorems.AddressOwner | server.py:994-1010 | An address belongs to the node of the link heard there last, the earliest on a tie; never heard, to that of the first link that declared it; else to nobody |
| UdpTheorems.SameCarrierIff | server.py:1103-1142 | Two addresses are one carrier exactly when each is the identity of, or resolves to, one UDP-over-TCP link |
| UdpTheorems.FanOutTwiceIff | server.py:1063-1142 | A fan-out hands a link two copies if and only if a recently heard UDP address resolves to it and so does another, or its own identity is asked too |
| UdpTheorems.NodeTwiceIff | server.py:1032-1142 | The same for the endpoints of one node, as addressed datagrams and ICMP use them |
| UdpTheorems.CarriersApart | server.py:1103-1142 | Without UDP-over-TCP links different addresses are different carriers |
| UdpTheorems.AnnouncedOwner | server.py:1155-1198 | After an announcement from an address the announcing node owns it, unless some link was heard there as late |
| UdpWitnesses.TunnelledLinkTwice | server.py:1063-1142 | A room reached by a registration, an announcement and a switch to UDP-over-TCP, in which a fan-out goes over one link twice |
| UdpWitnesses.SiblingTwice | server.py:1032-1142 | A room reached by two registrations from one address and a switch, in which an addressed datagram does |
| UdpRelay.Router.NodeByUdpAddr | server.py:994-1010 | The nested loops find the endpoint's owner seen last, else the first link that declared it |
| UdpRelay.Router.NodeUdpAddrs | server.py:1032-1061 | The loop lists a node's endpoints once each |
| UdpRelay.Router.UdpTargets | server.py:1063-1087 | The sticky replier, or the fan-out; a stale sticky entry is dropped |
| UdpRelay.Router.RecordUdpProof | server.py:968-992 | A live endpoint joins its node's first unseen link, else the stalest |
| UdpRelay.Router.Register | server.py:316-353 | An accepted registration makes or refreshes the connection's link record as specified, its declared address heard |
| UdpRelay.Router.LinkToAnnounce | server.py:1168-1188 | The three scans pick the link that declared the endpoint, else one of that IP not heard yet, else the stalest of that IP, else the first |
| UdpRelay.Router.Announce | server.py:1155-1198 | An announced endpoint joins that link and is heard; without a node or a link nothing changes |
| UdpRelay.Router.UdpMode | server.py:805-815 | Exactly the connection's own link is flagged |
| UdpRelay.Router.HandleC2S | server.py:1328-1355 | The dictionaries and the copies after an unaddressed datagram are those specified, with one flow recorded for every copy |
| UdpRelay.Router.HandleP2P | server.py:1205-1246 | The dictionaries and the copies after an addressed datagram are those specified, the second try after a proof of the endpoint included |
| UdpRelay.Router.HandleS2C | server.py:1281-1327 | The dictionaries and the copy after a reply are those specified |
| UdpRelay.Router.HandleIcmp | server.py:1247-1280 | The dictionaries and the copies after an ICMP message are those specified, the relay's own echo reply included |
| Beacon.OncePerEndpoint | server.py:851-879 | No copy goes to the source or to a connection of its node, and no endpoint of a node gets two |
| Beacon.CopiesNamed | server.py:855-879 | Each copy goes to an open connection not registered under the source's node, stands for one of its links, and names the source's node exactly when both are registered |
| Beacon.ServedIff | server.py:851-879 | A live link is served exactly when its connection is not registered under the source's node |
| Beacon.EveryOtherNodeServed | server.py:851-879 | Where connections are registered under the nodes holding them, every live link of every other node gets the beacon or has a sibling with the same endpoint that did |
| Beacon.ReregisteredMissed | server.py:851-879 | A room reached by three registrations, in which a connection registered again under the source's node is a live link that is not served |
| Beacon.FanOutBeacon | server.py:851-879 | The nested loops with their set of handed endpoints make exactly the specified copies |
| Icmp.FoldIsOnesComplement | hook/hk_udp.c:98 | Folding terminates and is addition in one's complement (RFC 1071, section 4.1) |
| Icmp.NoWrap | hook/hk_udp.c:90-96 | The 32-bit sum cannot wrap for any message up to 131072 bytes |
| Icmp.SumByPlace | hook/hk_udp.c:90-97 | The sum weighs every byte by its place: even ones by 256, a last odd one out included |
| Icmp.OddIsPadded | hook/hk_udp.c:97 | An odd last byte counts as if a zero byte followed it |
| Icmp.Cksum | hook/hk_udp.c:90-100 | The loops in 32-bit arithmetic compute the Internet checksum, odd lengths included |
| Icmp.BuildRep | hook/hk_udp.c:102-118 | The buffer's front becomes the reply, the rest is untouched |
| Icmp.ReplyVerifies | hook/hk_udp.c:102-118 | Recomputing the checksum over every built reply gives 0 |
| Icmp.ChecksumVerifies | hook/hk_udp.c:114-116 | Recomputing gives 0 for the built checksum and for no other value, but the second zero of one's complement |
| Icmp.ReplyReadsBack | hook/hk_udp.c:102-118 | The reply's fields read back as an Echo Reply (RFC 792) of the request's id, sequence number and data |

## Left out

- Sockets, threads, select and poll, asyncio, DNS, logging and TCP tuning are inputs or steps of the environment.
- API interception and the Windows back ends (`hook/hk_winsock.c`, `hook/hk_wininst.c`, `hook/hk_winnic.c`, `hook/hk_wicmp.c`), `injector.c`, `wclient.py`, packaging and benches: plumbing.
- The pre-pipe drain of joinee frames (`server.py:674-687`) is taken as empty: a conforming joinee sends nothing before it reads its STOK.
- Exceptions other than connection errors inside the awaited reads, such as cancellation at shutdown.
- T_STSHUT during the handshake (`shut_from`) and the bytes of the established pipe (`server.py:720-754`).
- BUSY frames of an election go out in claim order in the model and in score order in the code; they go to different connections.
- Losslessness of the in-queue past DT_ST_MAXIN: an arrival that would pass it is not appended, so the theorems are about appended bytes.
- The close-time drain (`hook/hk_stream.c:695-722`), and a stream retired while an exit drain holds it: that pair does not use the sending and flushing marks.
- Failed allocations, full slot tables, failing select calls, and poll-for-write waiters that never saw a full queue: the 100 ms backstop covers these, not the wake protocol.
- StreamTheorems.NoLostWakeup: assumes that no last drain of a released slot takes the byte of a next owner that is disarmed or has something to report; WakeInEveryRun shows that this is exactly what the protocol needs.
- UdpTheorems.SameCarrierIff: no connection is closing while it is written to.
- The length check and the port filter of a beacon (`server.py:846-849`): the fan-out begins behind them.
- In the datagram runs, links and nodes that go away (pruning, eviction, disconnection) are any change of the nodes.
- Link numbers inside a node, host-claim stamping and the ordering of STREQ frames: they change no verdict modelled here.
- The codecs other than frames and ASSIGN, UTF-8 names and the token comparison: fixed-offset packing.
- Windows process start stamps: a process identity that died never returns, given as an input.
