/** What each look, and each event on a stream, does to the app's call, the queues
    and the sleepers, told by the state before and after (hook/hk_route.c:106-296,
    hook/hk_stream.c:808-916). */
module StreamOutcomes {
  import opened Wire
  import opened StreamEngine
  import opened StreamTheorems

  // ---- a look by a sender ------------------------------------------------------------

  /** Thread t is looking for a send that has `rest` left to queue. */
  predicate Sending(s: State, t: nat, room: nat, rest: seq<byte>) {
    Enabled(s, Look(t, room)) && s.threads[t].want.Send? && rest == s.threads[t].want.buf[s.threads[t].want.done..]
  }

  /** The app may write to the stream. */
  predicate Writable(st: Stream) {
    st.attached && !st.wrShut && !st.dead && st.phase != Dead
  }

  /** The look queued these bytes of the call, behind what was queued. */
  predicate Queues(st: Stream, st': Stream, call: nat, bytes: seq<byte>) {
    st'.outq == st.outq + Tag(call, bytes) && st'.accepted == st.accepted + Tag(call, bytes)
  }

  /** The call has returned and reports that its first k bytes were queued. */
  predicate Reports(s': State, t: nat, w: Want, k: nat)
    requires w.Send?
  {
    t in s'.threads && !HasCall(s'.threads[t]) && w.call in s'.calls && s'.calls[w.call] == Report(w.buf, k)
  }

  /** The call goes on: k bytes of its buffer are queued now. */
  predicate GoesOnAt(s: State, s': State, t: nat, w: Want, k: nat)
    requires w.Send?
  {
    t in s'.threads && HasCall(s'.threads[t]) && s'.threads[t].want == w.(done := k) && s'.calls == s.calls
  }

  /** What a sender's look did, by the answer it got. */
  predicate Looked(s: State, s': State, t: nat)
    requires Enabled(s, Look(t, 0)) && s.threads[t].want.Send?
  {
    var w := s.threads[t].want;
    var v, n := SendVerdict(s.st, |w.buf| - w.done), Moved(s.st, w);
    && Queues(s.st, s'.st, w.call, w.buf[w.done..][..n]) && s'.st.wrFull == (s.st.wrFull || MetFull(s.st, w))
    && if (v.Full? && !w.nonblock) || (v.Queued? && v.n > 0 && w.done + n < |w.buf| && !w.nonblock)
       then GoesOnAt(s, s', t, w, w.done + n) else Reports(s', t, w, w.done + n)
  }

  lemma LookDoes(s: State, t: nat, room: nat)
    requires Enabled(s, Look(t, room)) && s.threads[t].want.Send?
    ensures Looked(s, Apply(s, Look(t, room)), t)
  {
    var w := s.threads[t].want;
    assert w.buf[w.done..][..Moved(s.st, w)] == w.buf[w.done..w.done + Moved(s.st, w)];
    LookCallRecord(s, t, room);
  }

  /** A write that fits is queued whole, and the call returns. */
  lemma SendFits(s: State, t: nat, room: nat, rest: seq<byte>)
    requires Sending(s, t, room, rest) && Writable(s.st) && |s.st.outq| + |rest| <= 262144
    ensures var s', w := Apply(s, Look(t, room)), s.threads[t].want;
            && Queues(s.st, s'.st, w.call, rest) && s'.st.wrFull == s.st.wrFull
            && Reports(s', t, w, |w.buf|)
  {
    LookDoes(s, t, room);
    FitsWhole(s, Apply(s, Look(t, room)), t, rest);
  }

  lemma FitsWhole(s: State, s': State, t: nat, rest: seq<byte>)
    requires Sending(s, t, 0, rest) && Looked(s, s', t) && Writable(s.st) && |s.st.outq| + |rest| <= 262144
    ensures var w := s.threads[t].want;
            Queues(s.st, s'.st, w.call, rest) && s'.st.wrFull == s.st.wrFull && Reports(s', t, w, |w.buf|)
  {
    assert rest[..|rest|] == rest;
  }

  /** A write that does not fit, but could if the queue were emptier, or any write to
      a full queue: nothing of it is queued, the queue is marked full, a nonblocking
      call returns and a blocking one goes on waiting. */
  lemma SendMustWait(s: State, t: nat, room: nat, rest: seq<byte>)
    requires Sending(s, t, room, rest) && Writable(s.st) && |s.st.outq| + |rest| > 262144
    requires |rest| <= 262144 || |s.st.outq| >= 262144
    ensures var s', w := Apply(s, Look(t, room)), s.threads[t].want;
            && s'.st.outq == s.st.outq && s'.st.accepted == s.st.accepted && s'.st.wrFull
            && if w.nonblock then Reports(s', t, w, w.done) else GoesOnAt(s, s', t, w, w.done)
  {
    LookDoes(s, t, room);
    MustWait(s, Apply(s, Look(t, room)), t, rest);
  }

  lemma MustWait(s: State, s': State, t: nat, rest: seq<byte>)
    requires Sending(s, t, 0, rest) && Looked(s, s', t) && Writable(s.st) && |s.st.outq| + |rest| > 262144
    requires |rest| <= 262144 || |s.st.outq| >= 262144
    ensures s'.st.outq == s.st.outq && s'.st.accepted == s.st.accepted && s'.st.wrFull
    ensures var w := s.threads[t].want; if w.nonblock then Reports(s', t, w, w.done) else GoesOnAt(s, s', t, w, w.done)
  {
    assert SendVerdict(s.st, |rest|) == Full;
  }

  /** A write longer than the whole queue fills it, whatever room there is; a
      nonblocking call returns with that part, a blocking one goes on with the rest. */
  lemma SendFills(s: State, t: nat, room: nat, rest: seq<byte>)
    requires Sending(s, t, room, rest) && Writable(s.st) && |rest| > 262144 && |s.st.outq| < 262144
    ensures var s', w := Apply(s, Look(t, room)), s.threads[t].want;
            var n := 262144 - |s.st.outq|;
            && Queues(s.st, s'.st, w.call, rest[..n]) && |s'.st.outq| == 262144 && s'.st.wrFull
            && if w.nonblock then Reports(s', t, w, w.done + n) else GoesOnAt(s, s', t, w, w.done + n)
  {
    LookDoes(s, t, room);
    Fills(s, Apply(s, Look(t, room)), t, rest);
  }

  lemma Fills(s: State, s': State, t: nat, rest: seq<byte>)
    requires Sending(s, t, 0, rest) && Looked(s, s', t) && Writable(s.st) && |rest| > 262144 && |s.st.outq| < 262144
    ensures var w, n := s.threads[t].want, 262144 - |s.st.outq|;
            && Queues(s.st, s'.st, w.call, rest[..n]) && |s'.st.outq| == 262144 && s'.st.wrFull
            && if w.nonblock then Reports(s', t, w, w.done + n) else GoesOnAt(s, s', t, w, w.done + n)
  {
    assert SendVerdict(s.st, |rest|) == Queued(262144 - |s.st.outq|);
  }

  /** A stream that is not ours, was shut for writing, or is dead, takes nothing, and
      the call returns with what it had queued before. */
  lemma SendToNone(s: State, t: nat, room: nat, rest: seq<byte>)
    requires Sending(s, t, room, rest) && !Writable(s.st)
    ensures var s', w := Apply(s, Look(t, room)), s.threads[t].want;
            s'.st.outq == s.st.outq && s'.st.accepted == s.st.accepted && s'.st.wrFull == s.st.wrFull && Reports(s', t, w, w.done)
  {
    LookDoes(s, t, room);
    ToNone(s, Apply(s, Look(t, room)), t, rest);
  }

  lemma ToNone(s: State, s': State, t: nat, rest: seq<byte>)
    requires Sending(s, t, 0, rest) && Looked(s, s', t) && !Writable(s.st)
    ensures s'.st.outq == s.st.outq && s'.st.accepted == s.st.accepted && s'.st.wrFull == s.st.wrFull
    ensures Reports(s', t, s.threads[t].want, s.threads[t].want.done)
  {
    assert SendVerdict(s.st, |rest|) in {NotOurs, Epipe, Reset};
  }

  /** Which of the three refusals: not ours before EPIPE, EPIPE before a reset. */
  lemma SendRefusals(st: Stream, len: nat)
    ensures SendVerdict(st, len) == NotOurs <==> !st.attached
    ensures SendVerdict(st, len) == Epipe <==> st.attached && st.wrShut
    ensures SendVerdict(st, len) == Reset <==> st.attached && !st.wrShut && (st.dead || st.phase == Dead)
  {
  }

  // ---- a look by a reader --------------------------------------------------------------

  /** The stream has ended for its reader. */
  predicate Ended(st: Stream) {
    st.peerFin || st.rdShut || st.dead || st.phase == Dead
  }

  /** The call of thread t is over. */
  predicate Returned(s': State, t: nat) {
    t in s'.threads && (s'.threads[t].Idle? || s'.threads[t].Leaving?)
  }

  /** A recv takes the oldest bytes queued, as many as it has room for. It returns
      exactly when there were any or the stream has ended, and waits otherwise. */
  lemma RecvOutcome(s: State, t: nat, room: nat)
    requires Enabled(s, Look(t, room)) && s.threads[t].want.Recv? && s.st.attached
    ensures var s', n := Apply(s, Look(t, room)), if room < |s.st.inq| then room else |s.st.inq|;
            && s'.st.popped == s.st.popped + s.st.inq[..n] && s'.st.inq == s.st.inq[n..]
            && s'.st.outq == s.st.outq && s'.st.wrFull == s.st.wrFull
            && (Returned(s', t) <==> s.st.inq != [] || Ended(s.st))
            && (!Returned(s', t) ==> s'.threads[t].want == Recv)
  {
    assert s.st.outq + [] == s.st.outq;
  }

  /** A recv that returns without a byte has had every byte that was kept for the app. */
  lemma EofAfterLastByte(states: seq<State>, acts: seq<Action>, i: nat, t: nat, room: nat)
    requires Run(states, acts) && i < |acts| && acts[i] == Look(t, room) && room > 0
    requires states[i].threads[t].want.Recv? && states[i].st.attached && Returned(states[i + 1], t)
    requires states[i + 1].st.popped == states[i].st.popped
    ensures Ended(states[i].st) && states[i].st.popped == states[i].st.kept
  {
    QueuesInEveryRun(states, acts, i);
    RecvOutcome(states[i], t, room);
    var st := states[i].st;
    assert |states[i + 1].st.popped| == |st.popped| + if room < |st.inq| then room else |st.inq|;
    assert st.popped + [] == st.popped;
  }

  /** poll reports the stream exactly when a recv would return; a connect waits
      exactly while there is no verdict. Neither takes anything. */
  lemma WaitOutcome(s: State, t: nat, room: nat)
    requires Enabled(s, Look(t, room)) && (s.threads[t].want.Poll? || s.threads[t].want.Connect?)
    ensures var s' := Apply(s, Look(t, room));
            && s'.st.inq == s.st.inq && s'.st.popped == s.st.popped && s'.st.outq == s.st.outq && s'.st.wrFull == s.st.wrFull
            && (Returned(s', t) <==>
                  if s.threads[t].want.Poll? then s.st.attached && (s.st.inq != [] || Ended(s.st)) else s.st.phase != Connecting)
  {
    assert s.st.outq + [] == s.st.outq && s.st.popped + [] == s.st.popped;
  }

  /** What a recv that found nothing does next: it returns when the socket no longer names
      the stream, and sleeps when it does. */
  lemma CheckOutcome(s: State, t: nat)
    requires Enabled(s, CheckAlive(t))
    ensures var s' := Apply(s, CheckAlive(t));
            && s'.st == s.st
            && if s.st.attached then t in s'.threads && s'.threads[t] == Asleep(s.threads[t].slot, s.threads[t].want) else Returned(s', t)
  {
  }

  // ---- the slot of a waiting thread --------------------------------------------------------

  /** Only the slot a thread works on changes, and to this. */
  predicate SlotBecomes(s: State, s': State, k: nat, x: Slot) {
    && k < |s.slots| && |s'.slots| == |s.slots| && s'.slots[k] == x
    && s'.st == s.st && forall j | 0 <= j < |s.slots| && j != k :: s'.slots[j] == s.slots[j]
  }

  /** The life of a slot: taken as it is; armed for the sockets named; after a sleep its
      channel is drained, then it is armed again; at the end it is released and only then
      drained. */
  lemma SlotLife(s: State, a: Action)
    requires Enabled(s, a) && (a.Claim? || a.Arm? || a.DrainChannel? || a.Rearm? || a.GiveUp? || a.LastDrain?)
    ensures var s', k := Apply(s, a), if a.Claim? then a.slot else s.threads[a.t].slot;
            && k < |s.slots|
            && var x := s.slots[k];
               match a
               case Claim(_, _) => SlotBecomes(s, s', k, x.(used := true)) && s'.threads[a.t] == Claimed(k, s.threads[a.t].want)
               case Arm(_, watch) => SlotBecomes(s, s', k, x.(armed := true, watch := watch)) && s'.threads[a.t] == Looking(k, s.threads[a.t].want)
               case DrainChannel(_) => SlotBecomes(s, s', k, x.(bytes := 0)) && s'.threads[a.t] == Drained(k, s.threads[a.t].want)
               case Rearm(_) => SlotBecomes(s, s', k, x.(armed := true)) && s'.threads[a.t] == Looking(k, s.threads[a.t].want)
               case GiveUp(_) => SlotBecomes(s, s', k, x.(armed := false, used := false)) && s'.threads[a.t] == Leaving(k)
               case LastDrain(_) => SlotBecomes(s, s', k, x.(bytes := 0)) && s'.threads[a.t] == Idle
  {
  }

  // ---- events ------------------------------------------------------------------------------

  /** Every armed slot that names the stream has one more wake byte and is disarmed. */
  predicate WokeAll(slots: seq<Slot>, slots': seq<Slot>) {
    && |slots'| == |slots|
    && forall i | 0 <= i < |slots| ::
         var x := slots[i];
         slots'[i] == if x.used && x.armed && x.watch then Slot(true, false, true, x.bytes + 1) else x
  }

  /** The pump's accounting takes the bytes sent off the queue. It clears the full mark
      exactly when bytes were sent and at most 174762 remain, and then, and only
      then, wakes everybody. */
  lemma PumpAccountOutcome(s: State)
    requires Enabled(s, Do(PumpAccount))
    ensures var s', k := Apply(s, Do(PumpAccount)), s.st.pump.put;
            var cleared := s.st.wrFull && k > 0 && |s.st.outq| - k <= 174762;
            && s'.st.outq == s.st.outq[k..] && s'.st.wrFull == (s.st.wrFull && !cleared) && !s'.st.sending
            && if cleared && s.st.attached then WokeAll(s.slots, s'.slots) else s'.slots == s.slots
  {
  }

  /** Bytes from the relay are queued, and everybody woken, exactly while the queue
      stays within 1 MiB. */
  lemma ArriveOutcome(s: State, d: seq<byte>)
    requires Enabled(s, Do(Arrive(d)))
    ensures var s' := Apply(s, Do(Arrive(d)));
            if |s.st.inq| + |d| <= 1048576 then
              s'.st.inq == s.st.inq + d && s'.st.kept == s.st.kept + d && WokeAll(s.slots, s'.slots)
            else s'.st.inq == s.st.inq && s'.st.kept == s.st.kept && s'.slots == s.slots
  {
  }

  /** The peer's FIN leaves what is queued to be read first, and wakes readers when nothing is. */
  lemma FinOutcome(s: State)
    requires Enabled(s, Do(Fin))
    ensures var s' := Apply(s, Do(Fin));
            && s'.st == s.st.(peerFin := true)
            && if s.st.inq == [] then WokeAll(s.slots, s'.slots) else s'.slots == s.slots
  {
  }

  /** SHUT_RD discards what is queued and ends reading; SHUT_WR ends writing and
      leaves what is queued to be sent. */
  lemma ShutOutcome(s: State)
    requires s.st.attached
    ensures var r, w := Apply(s, Do(ShutRd)), Apply(s, Do(ShutWr));
            && r.st.inq == [] && r.st.rdShut && r.st.outq == s.st.outq && WokeAll(s.slots, r.slots)
            && w.st.wrShut && w.st.outq == s.st.outq && w.st.inq == s.st.inq && w.slots == s.slots
  {
  }

  /** close wakes everybody. Before the link is up it frees the stream; after that the
      out-queue stays to be sent, and once there is a verdict the socket is let go. */
  lemma CloseOutcome(s: State)
    requires Enabled(s, Do(Close))
    ensures var st, st' := s.st, Apply(s, Do(Close)).st;
            && st'.dead && WokeAll(s.slots, Apply(s, Do(Close)).slots)
            && if st.phase == Connecting && !st.fdLive then st'.freed && st'.outq == [] && st'.inq == [] && !st'.attached
               else st'.freed == st.freed && st'.outq == st.outq && st'.inq == st.inq && (st'.attached <==> st.phase == Connecting || !st.fdLive)
  {
  }

  /** The pump's end kills the stream; it is freed, and everybody woken, exactly when
      the app has closed it or shut it for writing. */
  lemma RetireOutcome(s: State)
    requires Enabled(s, Do(Retire))
    ensures var s', done := Apply(s, Do(Retire)), s.st.dead || s.st.wrShut;
            && s'.st.phase == Dead && s'.st.pump == Off
            && if done then s'.st.freed && s'.st.outq == [] && s'.st.inq == [] && !s'.st.attached && WokeAll(s.slots, s'.slots)
               else s'.st.freed == s.st.freed && s'.st.outq == s.st.outq && s'.st.inq == s.st.inq && s'.slots == s.slots
  {
  }
}
