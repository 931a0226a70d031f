/** One tunneled game stream of the hook, as the interleaving of every thread
    that touches it: app threads in recv/connect/send, the pump thread, the
    exit drain, and the shared wake-slot table (hook/hk_route.c,
    hook/hk_stream.c, hook/hk_sess.c). A step is one DLOCK section or one
    system call between two of them; any enabled step may come next. */
module StreamEngine {
  import opened Wire

  /** App-visible send buffer, and the level at which room is signalled. */
  const MAXOUT := 262144
  const WROOM := 174762
  /** Bytes the in-queue may hold; an arrival that would pass it is not appended. */
  const MAXIN := 1048576

  datatype Phase = Connecting | Open | Dead

  /** A byte accepted from the app, with the send call that supplied it. */
  datatype Tagged = Tagged(call: nat, b: byte)

  /** A send in progress outside the lock: n bytes of the queue's front were
      taken; after the system call, `put` of them are on the wire. */
  datatype Transfer = Off | Ready | Took(n: nat) | Put(put: nat)

  datatype Stream = Stream(
    phase: Phase,
    fdLive: bool,           // the relay connection is up
    attached: bool,         // the app's socket still names this stream
    dead: bool,             // the app closed it
    peerFin: bool, rdShut: bool, wrShut: bool, shutDone: bool,
    inq: seq<byte>,
    outq: seq<Tagged>,
    wrFull: bool, sending: bool, flushing: bool,
    pump: Transfer, drain: Transfer,
    // history
    kept: seq<byte>,        // appended to the in-queue and not discarded by SHUT_RD
    popped: seq<byte>,      // returned to the app
    accepted: seq<Tagged>,  // taken from the app
    wire: seq<Tagged>,      // handed to the relay socket
    freed: bool,            // the stream's queues were freed
    torn: bool)             // an exit-drain send failed after a partial write

  /** A wake slot; `watch` says this stream's socket is among those it names. */
  datatype Slot = Slot(used: bool, armed: bool, watch: bool, bytes: nat)

  /** What a blocked call waits for: recv, poll or select for reading, the connect
      verdict, room for the rest of a send (which knows how much it has queued),
      or another socket. */
  datatype Want = Recv | Poll | Connect | Send(call: nat, buf: seq<byte>, done: nat, nonblock: bool) | Elsewhere

  datatype Thread =
    | Idle
    | Trying(want: Want)              // looking without a slot
    | Claimed(slot: nat, want: Want)  // slot taken, not yet armed
    | Looking(slot: nat, want: Want)  // armed, about to look
    | Checking(slot: nat, want: Want) // a recv's look found nothing; liveness check next
    | Asleep(slot: nat, want: Want)
    | Awake(slot: nat, want: Want)    // sleep ended, drain next
    | Drained(slot: nat, want: Want)  // channel drained, re-arm next
    | Leaving(slot: nat)              // slot released, last drain next

  /** A finished send call: it reported that the first k bytes of buf were queued. */
  datatype Report = Report(buf: seq<byte>, k: nat)

  datatype State = State(st: Stream, slots: seq<Slot>, threads: map<nat, Thread>, calls: map<nat, Report>)

  // ---- the out-queue, in bytes ------------------------------------------

  datatype SendResult = NotOurs | Epipe | Reset | Full | Queued(n: nat)

  function Tag(call: nat, b: seq<byte>): (t: seq<Tagged>)
    ensures |t| == |b|
    ensures forall i | 0 <= i < |b| :: t[i] == Tagged(call, b[i])
  {
    seq(|b|, i requires 0 <= i < |b| => Tagged(call, b[i]))
  }

  /** How much of a write of len bytes the queue takes: all of it while it can
      ever fit, otherwise as much as there is room for. */
  function Admit(queued: nat, len: nat): Option<nat> {
    if queued + len <= MAXOUT then Some(len)
    else if len <= MAXOUT || queued >= MAXOUT then None
    else Some(MAXOUT - queued)
  }

  /** dt_stream_send's answer, in the order its tests are made. */
  function SendAnswer(attached: bool, wrShut: bool, gone: bool, queued: nat, len: nat): SendResult {
    if !attached then NotOurs
    else if wrShut then Epipe
    else if gone then Reset
    else if Admit(queued, len).None? then Full
    else Queued(Admit(queued, len).value)
  }

  function SendVerdict(st: Stream, len: nat): SendResult {
    SendAnswer(st.attached, st.wrShut, st.dead || st.phase == Dead, |st.outq|, len)
  }

  /** The full mark after the pump accounted for k bytes and `left` remain queued. */
  predicate StillFull(wrFull: bool, k: nat, left: nat) {
    wrFull && (k == 0 || left > WROOM)
  }

  // ---- wake slots --------------------------------------------------------

  function PokeSlot(x: Slot): Slot {
    if x.used && x.armed && x.watch then x.(armed := false, bytes := x.bytes + 1) else x
  }

  function Poke(slots: seq<Slot>): (r: seq<Slot>)
    ensures |r| == |slots|
    ensures forall i | 0 <= i < |r| :: r[i] == PokeSlot(slots[i])
  {
    seq(|slots|, i requires 0 <= i < |slots| => PokeSlot(slots[i]))
  }

  predicate HasSlot(th: Thread) {
    !th.Idle? && !th.Trying?
  }

  predicate OwnsSlot(th: Thread) {
    HasSlot(th) && !th.Leaving?
  }

  /** Something a look for this want would report. */
  predicate News(st: Stream, w: Want) {
    match w
    case Recv => st.inq != [] || st.peerFin || st.rdShut || st.dead || st.phase == Dead || !st.attached
    case Poll => st.attached && (st.inq != [] || st.peerFin || st.rdShut || st.dead || st.phase == Dead)
    case Connect => st.phase != Connecting
    case Send(_, _, _, _) => false
    case Elsewhere => false
  }

  // ---- steps -------------------------------------------------------------

  /** Steps that change the stream itself. */
  datatype StreamAction =
    // app calls that never wait
    | ShutRd | ShutWr | Close
    // relay connection and pump
    | LinkUp | Verdict(ok: bool) | FailLocal
    | Arrive(data: seq<byte>) | Fin | PeerReset | Retire
    | PumpTake(n: nat) | PumpWire(k: nat) | PumpAccount | SendShut
    // exit drain
    | DrainClaim | DrainTake(n: nat) | DrainWire | DrainFail(m: nat) | DrainAccount | DrainEnd

  datatype Action =
    | Start(t: nat, want: Want)
    | Claim(t: nat, slot: nat)
    | Arm(t: nat, watch: bool)
    | Look(t: nat, room: nat)
    | CheckAlive(t: nat)
    | GiveUp(t: nat)
    | Wake(t: nat)
    | DrainChannel(t: nat)
    | Rearm(t: nat)
    | LastDrain(t: nat)
    | Do(a: StreamAction)
    | OtherPoke(slot: nat) // another socket's event hits a slot that also names it

  predicate IsThreadAction(a: Action) {
    !a.Do? && !a.OtherPoke?
  }

  predicate ThreadIn(s: State, t: nat) {
    t in s.threads && (HasSlot(s.threads[t]) ==> s.threads[t].slot < |s.slots|)
  }

  /** A poll also scans right after it wakes. */
  predicate CanLook(th: Thread) {
    (th.Looking? || th.Trying? || (th.Awake? && th.want.Poll?)) && (th.want.Send? ==> th.want.done <= |th.want.buf|)
  }

  /** How many bytes a look pops for the app. */
  function PopCount(st: Stream, w: Want, room: nat): (n: nat)
    ensures n <= |st.inq|
  {
    if !w.Recv? || !st.attached then 0 else if room < |st.inq| then room else |st.inq|
  }

  /** How many further bytes of a send call's buffer a look queues. */
  function Moved(st: Stream, w: Want): (n: nat)
    requires w.Send? && w.done <= |w.buf|
    ensures w.done + n <= |w.buf|
  {
    var v := SendVerdict(st, |w.buf| - w.done);
    if v.Queued? then v.n else 0
  }

  /** The bytes a look queues. */
  function Offered(st: Stream, w: Want): seq<Tagged>
    requires w.Send? ==> w.done <= |w.buf|
  {
    if w.Send? then Tag(w.call, w.buf[w.done..w.done + Moved(st, w)]) else []
  }

  /** Did a look meet a queue too full for all it offered? */
  predicate MetFull(st: Stream, w: Want)
    requires w.Send? ==> w.done <= |w.buf|
  {
    w.Send? &&
    var v := SendVerdict(st, |w.buf| - w.done);
    v.Full? || (v.Queued? && v.n < |w.buf| - w.done)
  }

  /** What a look does to the stream: pop bytes, or queue some. */
  function LookStream(st: Stream, w: Want, room: nat): Stream
    requires w.Send? ==> w.done <= |w.buf|
  {
    var n := PopCount(st, w, room);
    st.(inq := st.inq[n..], popped := st.popped + st.inq[..n],
        outq := st.outq + Offered(st, w), accepted := st.accepted + Offered(st, w),
        wrFull := st.wrFull || MetFull(st, w))
  }

  /** How a look ends: the call returns, waits, or goes on with the rest of its buffer. */
  datatype Outcome = Returns | Waits | GoesOn(w: Want)

  function LookOutcome(st: Stream, w: Want): Outcome
    requires w.Send? ==> w.done <= |w.buf|
  {
    match w
    case Recv => if st.attached && News(st, Recv) then Returns else Waits
    case Poll => if News(st, Poll) then Returns else Waits
    case Connect => if News(st, Connect) then Returns else Waits
    case Send(call, buf, done, nb) =>
      (match SendVerdict(st, |buf| - done)
       case Queued(n) => if n > 0 && done + n < |buf| && !nb then GoesOn(w.(done := done + n)) else Returns
       case Full => if nb then Returns else Waits
       case _ => Returns)
    case Elsewhere => Waits
  }

  function AfterLook(th: Thread, o: Outcome): Thread
    requires CanLook(th)
  {
    match o
    case Returns => Released(th)
    case Waits =>
      if th.Trying? || th.Awake? then th
      else if th.want.Recv? then Checking(th.slot, th.want)
      else Asleep(th.slot, th.want)
    case GoesOn(w) => if th.Trying? then Trying(w) else Looking(th.slot, w)
  }

  /** The call returns: dt_wait_done releases the slot if one is held. */
  function Released(th: Thread): Thread {
    if OwnsSlot(th) then Leaving(th.slot) else Idle
  }

  predicate Enabled(s: State, a: Action) {
    match a
    case Start(t, w) =>
      t in s.threads && s.threads[t].Idle? &&
      (w.Send? ==> w.done == 0 && w.call !in s.calls && (forall x <- s.st.accepted :: x.call != w.call) &&
                   (forall u | u in s.threads && HasCall(s.threads[u]) :: s.threads[u].want.call != w.call))
    case Claim(t, k) => t in s.threads && s.threads[t].Trying? && k < |s.slots| && !s.slots[k].used
    case Arm(t, watch) =>
      ThreadIn(s, t) && s.threads[t].Claimed? && (!s.threads[t].want.Elsewhere? ==> watch)
    case Look(t, _) => ThreadIn(s, t) && CanLook(s.threads[t])
    case CheckAlive(t) => ThreadIn(s, t) && s.threads[t].Checking?
    case GiveUp(t) => ThreadIn(s, t) && (s.threads[t].Checking? || s.threads[t].Asleep? || s.threads[t].Looking?) && !s.threads[t].want.Send?
    case Wake(t) => ThreadIn(s, t) && s.threads[t].Asleep?
    case DrainChannel(t) => ThreadIn(s, t) && s.threads[t].Awake?
    case Rearm(t) => ThreadIn(s, t) && s.threads[t].Drained?
    case LastDrain(t) => ThreadIn(s, t) && s.threads[t].Leaving?
    case Do(a) => StreamEnabled(s.st, a)
    case OtherPoke(k) => k < |s.slots| && s.slots[k].used && s.slots[k].armed
  }

  predicate StreamEnabled(st: Stream, a: StreamAction) {
    match a
    case ShutRd => st.attached
    case ShutWr => st.attached
    case Close => st.attached && !st.dead
    case LinkUp => st.phase == Connecting && !st.fdLive && !st.freed
    case Verdict(_) => st.phase == Connecting && st.fdLive && !st.freed && st.pump.Off?
    case FailLocal => st.phase == Connecting && !st.freed && st.pump.Off?
    case Arrive(d) => !st.pump.Off? && !st.freed && d != []
    case Fin => !st.pump.Off? && !st.freed
    case PeerReset => st.pump.Ready? && !st.freed
    case Retire => st.pump.Ready? && !st.freed && (st.dead || st.phase == Dead) && st.drain.Off?
    case PumpTake(n) => st.pump.Ready? && !st.flushing && 0 < n <= |st.outq|
    case PumpWire(k) => st.pump.Took? && k <= st.pump.n <= |st.outq|
    case PumpAccount => st.pump.Put? && st.pump.put <= |st.outq|
    case SendShut => st.pump.Ready? && !st.freed && st.wrShut && !st.shutDone && st.outq == []
    case DrainClaim => st.drain.Off? && st.fdLive && !st.freed && st.outq != [] && st.phase != Dead
    case DrainTake(n) => st.drain.Ready? && !st.sending && 0 < n <= |st.outq|
    case DrainWire => st.drain.Took? && st.drain.n <= |st.outq|
    case DrainFail(m) => st.drain.Took? && m < st.drain.n <= |st.outq|
    case DrainAccount => st.drain.Put? && st.drain.put <= |st.outq|
    case DrainEnd => st.drain.Ready?
  }

  predicate HasCall(th: Thread) {
    !th.Idle? && !th.Leaving? && th.want.Send?
  }

  /** Where a thread's own step takes it. */
  function NextThread(s: State, a: Action): Thread
    requires IsThreadAction(a) && Enabled(s, a)
  {
    var th := s.threads[a.t];
    match a
    case Start(_, w) => Trying(w)
    case Claim(_, k) => Claimed(k, th.want)
    case Arm(_, _) => Looking(th.slot, th.want)
    case Look(_, _) => AfterLook(th, LookOutcome(s.st, th.want))
    case CheckAlive(_) => if s.st.attached then Asleep(th.slot, th.want) else Released(th)
    case GiveUp(_) => Released(th)
    case Wake(_) => Awake(th.slot, th.want)
    case DrainChannel(_) => Drained(th.slot, th.want)
    case Rearm(_) => Looking(th.slot, th.want)
    case LastDrain(_) => Idle
  }

  /** The slot a thread's own step works on. */
  function TouchedSlot(s: State, a: Action): Option<nat>
    requires IsThreadAction(a) && Enabled(s, a)
  {
    if a.Claim? then Some(a.slot)
    else if HasSlot(s.threads[a.t]) then Some(s.threads[a.t].slot)
    else None
  }

  /** What it does to that slot, given where it goes. */
  function SlotAfter(x: Slot, a: Action, next: Thread): Slot {
    match a
    case Claim(_, _) => x.(used := true)
    case Arm(_, watch) => x.(armed := true, watch := watch)
    case Rearm(_) => x.(armed := true)
    case DrainChannel(_) => x.(bytes := 0)
    case LastDrain(_) => x.(bytes := 0)
    case _ => x.(armed := x.armed && !next.Leaving?, used := x.used && !next.Leaving?)
  }

  function SlotsAfter(s: State, a: Action): (r: seq<Slot>)
    requires IsThreadAction(a) && Enabled(s, a)
    ensures |r| == |s.slots|
  {
    match TouchedSlot(s, a)
    case None => s.slots
    case Some(k) => s.slots[k := SlotAfter(s.slots[k], a, NextThread(s, a))]
  }

  function StreamAfter(s: State, a: Action): Stream
    requires IsThreadAction(a) && Enabled(s, a)
  {
    if a.Look? then LookStream(s.st, s.threads[a.t].want, a.room) else s.st
  }

  function CallsAfter(s: State, a: Action): map<nat, Report>
    requires IsThreadAction(a) && Enabled(s, a)
  {
    if a.Look? && s.threads[a.t].want.Send? && LookOutcome(s.st, s.threads[a.t].want).Returns? then
      var w := s.threads[a.t].want;
      s.calls[w.call := Report(w.buf, w.done + Moved(s.st, w))]
    else s.calls
  }

  function Apply(s: State, a: Action): State
    requires Enabled(s, a)
  {
    match a
    case Do(a) => s.(st := StreamStep(s.st, a), slots := if Signals(s.st, a) then Poke(s.slots) else s.slots)
    case OtherPoke(k) => s.(slots := s.slots[k := s.slots[k].(armed := false, bytes := s.slots[k].bytes + 1)])
    case _ =>
      State(StreamAfter(s, a),
            SlotsAfter(s, a),
            s.threads[a.t := NextThread(s, a)],
            CallsAfter(s, a))
  }

  function StreamStep(st: Stream, a: StreamAction): Stream
    requires StreamEnabled(st, a)
  {
    match a
    case ShutRd => st.(rdShut := true, inq := [], kept := st.popped)
    case ShutWr => st.(wrShut := true)
    case Close =>
      // before the link is up nobody else owns the queues: they are freed here
      var early := st.phase == Connecting && !st.fdLive;
      st.(dead := true,
          attached := !early && (st.phase == Connecting || !st.fdLive),
          freed := st.freed || early,
          inq := if early then [] else st.inq,
          outq := if early then [] else st.outq,
          kept := if early then st.popped else st.kept)
    case LinkUp => st.(fdLive := true)
    case Verdict(ok) => st.(phase := if ok then Open else Dead, pump := if ok then Ready else Off)
    case FailLocal => st.(phase := Dead)
    case Arrive(d) =>
      var d' := if |st.inq| + |d| > MAXIN then [] else d;
      st.(inq := st.inq + d', kept := st.kept + d')
    case Fin => st.(peerFin := true)
    case PeerReset => st.(phase := Dead)
    case Retire =>
      var free := st.dead || st.wrShut; // the app is done with it
      st.(phase := Dead, pump := Off,
          attached := st.attached && !free,
          freed := st.freed || free,
          inq := if free then [] else st.inq,
          outq := if free then [] else st.outq,
          kept := if free then st.popped else st.kept)
    case PumpTake(n) => st.(pump := Took(n), sending := true)
    case PumpWire(k) => st.(pump := Put(k), wire := st.wire + st.outq[..k])
    case PumpAccount =>
      var q := st.outq[st.pump.put..];
      st.(pump := Ready, sending := false, outq := q, wrFull := StillFull(st.wrFull, st.pump.put, |q|))
    case SendShut => st.(shutDone := true)
    case DrainClaim => st.(flushing := true, drain := Ready)
    case DrainTake(n) => st.(drain := Took(n), sending := true)
    case DrainWire => st.(drain := Put(st.drain.n), wire := st.wire + st.outq[..st.drain.n])
    case DrainFail(m) =>
      st.(drain := Ready, sending := false, wire := st.wire + st.outq[..m], torn := st.torn || m > 0)
    case DrainAccount => st.(drain := Ready, sending := false, outq := st.outq[st.drain.put..])
    case DrainEnd => st.(drain := Off, flushing := false)
  }

  /** Which stream steps call dt_sig_locked. */
  predicate Signals(st: Stream, a: StreamAction) {
    match a
    case ShutRd => true
    case Close => true
    case Verdict(_) => true
    case FailLocal => true
    case Arrive(d) => |st.inq| + |d| <= MAXIN
    case Fin => st.inq == []
    case PeerReset => true
    case Retire => st.dead || st.wrShut
    case PumpAccount =>
      && st.pump.Put? && st.pump.put <= |st.outq|
      && st.wrFull && !StillFull(st.wrFull, st.pump.put, |st.outq| - st.pump.put) && st.attached
    case _ => false
  }

  const FRESH := Stream(Connecting, false, true, false, false, false, false, false,
                        [], [], false, false, false, Off, Off, [], [], [], [], false, false)

  /** The stream was just allocated; other threads may already be using the slot table. */
  predicate Initial(s: State) {
    && s.st == FRESH
    && s.calls == map[]
    && (forall t | t in s.threads :: s.threads[t].Idle?)
    && (forall i | 0 <= i < |s.slots| :: !s.slots[i].used && !s.slots[i].armed)
  }

  /** The last drain of a released slot ends before the slot is taken again. */
  predicate Orderly(s: State, a: Action) {
    a.Claim? ==> forall t | t in s.threads && s.threads[t].Leaving? :: s.threads[t].slot != a.slot
  }

  /** A run: states joined by enabled steps. */
  ghost predicate Run(states: seq<State>, acts: seq<Action>) {
    && |states| == |acts| + 1
    && Initial(states[0])
    && forall i | 0 <= i < |acts| :: Enabled(states[i], acts[i]) && states[i + 1] == Apply(states[i], acts[i])
  }

  ghost predicate OrderlyRun(states: seq<State>, acts: seq<Action>) {
    && Run(states, acts)
    && forall i | 0 <= i < |acts| :: Orderly(states[i], acts[i])
  }
}
