/** What every run of the stream engine keeps. */
module StreamTheorems {
  import opened Wire
  import opened StreamEngine

  // ---- the two byte queues ------------------------------------------------

  predicate Mid(x: Transfer) {
    x.Took? || x.Put?
  }

  /** Bytes on the wire that the queue has not yet been told about. */
  function InFlight(st: Stream): nat {
    if st.pump.Put? then st.pump.put else if st.drain.Put? then st.drain.put else 0
  }

  predicate Fits(x: Transfer, n: nat) {
    (x.Took? ==> 0 < x.n <= n) && (x.Put? ==> x.put <= n)
  }

  predicate OutShape(st: Stream) {
    && |st.outq| <= MAXOUT
    && (st.sending <==> Mid(st.pump) || Mid(st.drain))
    && !(Mid(st.pump) && Mid(st.drain))
    && (st.flushing <==> !st.drain.Off?)
    && Fits(st.pump, |st.outq|) && Fits(st.drain, |st.outq|)
    && (!st.pump.Off? || !st.drain.Off? ==> st.fdLive)
    && (st.freed ==> st.outq == [] && !st.attached && st.pump.Off? && st.drain.Off?)
    && (st.shutDone ==> st.wrShut && (st.freed || st.outq == []))
  }

  /** Bytes accepted = bytes on the wire followed by bytes still queued. */
  predicate OutConserved(st: Stream)
    requires OutShape(st)
  {
    st.accepted == st.wire + st.outq[InFlight(st)..]
  }

  predicate OutInv(st: Stream) {
    OutShape(st) && (!st.freed && !st.torn ==> OutConserved(st))
  }

  predicate InInv(st: Stream) {
    |st.inq| <= MAXIN && st.kept == st.popped + st.inq
  }

  lemma SplitOut(st: Stream, k: nat)
    requires k <= |st.outq|
    ensures st.wire + st.outq == st.wire + st.outq[..k] + st.outq[k..]
  {
    assert st.outq == st.outq[..k] + st.outq[k..];
  }

  lemma PumpKeepsOut(st: Stream, a: StreamAction)
    requires a.PumpTake? || a.PumpWire? || a.PumpAccount?
    requires StreamEnabled(st, a) && OutInv(st)
    ensures OutInv(StreamStep(st, a))
  {
    if a.PumpWire? {
      SplitOut(st, a.k);
    }
  }

  lemma DrainKeepsOut(st: Stream, a: StreamAction)
    requires a.DrainClaim? || a.DrainTake? || a.DrainWire? || a.DrainFail? || a.DrainAccount? || a.DrainEnd?
    requires StreamEnabled(st, a) && OutInv(st)
    ensures OutInv(StreamStep(st, a))
  {
    if a.DrainWire? {
      SplitOut(st, st.drain.n);
    } else if a.DrainFail? && a.m == 0 {
      assert st.wire + st.outq[..0] == st.wire;
    }
  }

  lemma StreamStepKeepsOut(st: Stream, a: StreamAction)
    requires StreamEnabled(st, a) && OutInv(st)
    ensures OutInv(StreamStep(st, a))
  {
    if a.PumpTake? || a.PumpWire? || a.PumpAccount? {
      PumpKeepsOut(st, a);
    } else if a.DrainClaim? || a.DrainTake? || a.DrainWire? || a.DrainFail? || a.DrainAccount? || a.DrainEnd? {
      DrainKeepsOut(st, a);
    }
  }

  lemma StreamStepKeepsIn(st: Stream, a: StreamAction)
    requires StreamEnabled(st, a) && InInv(st)
    ensures InInv(StreamStep(st, a))
  {
    if a.Arrive? {
      var d := if |st.inq| + |a.data| > MAXIN then [] else a.data;
      assert st.popped + (st.inq + d) == (st.popped + st.inq) + d;
    } else if a.ShutRd? || a.Close? || a.Retire? {
      assert st.popped + [] == st.popped;
    }
  }

  lemma OfferFits(st: Stream, w: Want)
    requires |st.outq| <= MAXOUT && (w.Send? ==> w.done <= |w.buf|)
    ensures |st.outq| + |Offered(st, w)| <= MAXOUT
    ensures Offered(st, w) != [] ==> st.attached && !st.wrShut
  {
  }

  lemma QueuingKeepsOut(st: Stream, st': Stream, t: seq<Tagged>)
    requires OutInv(st) && |st.outq| + |t| <= MAXOUT && (t != [] ==> st.attached && !st.wrShut)
    requires st'.outq == st.outq + t && st'.accepted == st.accepted + t && st'.wire == st.wire
    requires st'.sending == st.sending && st'.flushing == st.flushing && st'.pump == st.pump && st'.drain == st.drain
    requires st'.fdLive == st.fdLive && st'.attached == st.attached && st'.wrShut == st.wrShut
    requires st'.shutDone == st.shutDone && st'.freed == st.freed && st'.torn == st.torn
    ensures OutInv(st')
  {
    var i := InFlight(st);
    assert (st.outq + t)[i..] == st.outq[i..] + t;
    assert st.wire + (st.outq[i..] + t) == (st.wire + st.outq[i..]) + t;
  }

  lemma LookKeepsOut(st: Stream, w: Want, room: nat)
    requires OutInv(st) && (w.Send? ==> w.done <= |w.buf|)
    ensures OutInv(LookStream(st, w, room))
  {
    OfferFits(st, w);
    QueuingKeepsOut(st, LookStream(st, w, room), Offered(st, w));
  }

  lemma LookKeepsIn(st: Stream, w: Want, room: nat)
    requires InInv(st) && (w.Send? ==> w.done <= |w.buf|)
    ensures InInv(LookStream(st, w, room))
  {
    var n := PopCount(st, w, room);
    assert st.inq == st.inq[..n] + st.inq[n..];
    assert st.popped + st.inq == (st.popped + st.inq[..n]) + st.inq[n..];
  }

  lemma StepKeepsQueues(s: State, a: Action)
    requires Enabled(s, a) && OutInv(s.st) && InInv(s.st)
    ensures OutInv(Apply(s, a).st) && InInv(Apply(s, a).st)
  {
    if a.Do? {
      StreamStepKeepsOut(s.st, a.a);
      StreamStepKeepsIn(s.st, a.a);
    } else if a.Look? {
      LookKeepsOut(s.st, s.threads[a.t].want, a.room);
      LookKeepsIn(s.st, s.threads[a.t].want, a.room);
    } else {
      assert Apply(s, a).st == s.st;
    }
  }

  /** Every reachable state: bytes accepted are the bytes on the wire followed
      by the bytes queued; the pump and the exit drain are never both sending;
      the queue is bounded; and the in-queue loses and reorders nothing. */
  lemma {:induction false} QueuesInEveryRun(states: seq<State>, acts: seq<Action>, i: nat)
    requires Run(states, acts) && i < |states|
    ensures OutInv(states[i].st) && InInv(states[i].st)
  {
    if i > 0 {
      QueuesInEveryRun(states, acts, i - 1);
      StepKeepsQueues(states[i - 1], acts[i - 1]);
    }
  }

  /** The half-close reaches the peer only after every accepted byte. */
  lemma ShutAfterLastByte(states: seq<State>, acts: seq<Action>, i: nat)
    requires Run(states, acts) && i < |states|
    requires states[i].st.shutDone && !states[i].st.freed && !states[i].st.torn
    ensures states[i].st.wire == states[i].st.accepted
  {
    QueuesInEveryRun(states, acts, i);
    var st := states[i].st;
    assert st.wire + st.outq[InFlight(st)..] == st.wire;
  }

  /** A failed exit-drain send breaks conservation exactly when it had already
      put bytes on the wire: they stay queued and would be sent again. */
  lemma DrainFailTearsIff(st: Stream, m: nat)
    requires StreamEnabled(st, DrainFail(m)) && OutShape(st) && OutConserved(st)
    ensures OutShape(StreamStep(st, DrainFail(m)))
    ensures OutConserved(StreamStep(st, DrainFail(m))) <==> m == 0
  {
    var st' := StreamStep(st, DrainFail(m));
    assert st.accepted == st.wire + st.outq;
    assert st'.outq == st.outq && |st'.wire| == |st.wire| + m;
    if m == 0 {
      assert st.wire + st.outq[..0] == st.wire;
    } else {
      assert |st'.wire + st'.outq| > |st.accepted|;
    }
  }

  /** A drain send that failed after it had written something. */
  predicate Tears(a: Action) {
    a.Do? && a.a.DrainFail? && a.a.m > 0
  }

  predicate Tore(acts: seq<Action>) {
    exists a <- acts :: Tears(a)
  }

  lemma ToreSnoc(acts: seq<Action>, n: nat)
    requires n < |acts|
    ensures Tore(acts[..n + 1]) <==> Tore(acts[..n]) || Tears(acts[n])
  {
    assert acts[..n + 1] == acts[..n] + [acts[n]];
    assert forall a :: a in acts[..n + 1] <==> a in acts[..n] || a == acts[n];
  }

  /** Once torn, the wire and the queue together hold more than was accepted. */
  predicate Surplus(st: Stream)
    requires OutShape(st)
  {
    st.torn && !st.freed ==> |st.wire| + |st.outq| - InFlight(st) > |st.accepted|
  }

  lemma StreamStepKeepsSurplus(st: Stream, a: StreamAction)
    requires StreamEnabled(st, a) && OutInv(st) && Surplus(st)
    ensures OutInv(StreamStep(st, a)) && Surplus(StreamStep(st, a))
    ensures StreamStep(st, a).torn <==> st.torn || (a.DrainFail? && a.m > 0)
  {
    StreamStepKeepsOut(st, a);
    if a.DrainFail? && !st.torn && !st.freed {
      assert |st.accepted| == |st.wire| + |st.outq|;
    }
  }

  lemma StepKeepsSurplus(s: State, a: Action)
    requires Enabled(s, a) && OutInv(s.st) && InInv(s.st) && Surplus(s.st)
    ensures OutInv(Apply(s, a).st) && Surplus(Apply(s, a).st)
    ensures Apply(s, a).st.torn <==> s.st.torn || Tears(a)
  {
    StepKeepsQueues(s, a);
    if a.Do? {
      StreamStepKeepsSurplus(s.st, a.a);
    } else if a.Look? {
      assert |Apply(s, a).st.outq| == |s.st.outq| + |Offered(s.st, s.threads[a.t].want)|;
    } else {
      assert Apply(s, a).st == s.st;
    }
  }

  lemma RunTears(states: seq<State>, acts: seq<Action>, i: nat)
    requires Run(states, acts) && i < |acts| && OutInv(states[i].st) && Surplus(states[i].st)
    ensures OutInv(states[i + 1].st) && Surplus(states[i + 1].st)
    ensures states[i + 1].st.torn <==> states[i].st.torn || Tears(acts[i])
  {
    QueuesInEveryRun(states, acts, i);
    StepKeepsSurplus(states[i], acts[i]);
  }

  lemma {:induction false} TornInEveryRun(states: seq<State>, acts: seq<Action>, i: nat)
    requires Run(states, acts) && i < |states|
    ensures OutInv(states[i].st) && Surplus(states[i].st) && (states[i].st.torn <==> Tore(acts[..i]))
  {
    if i > 0 {
      TornInEveryRun(states, acts, i - 1);
      RunTears(states, acts, i - 1);
      ToreSnoc(acts, i - 1);
    }
  }

  /** In every run, while the stream is not freed, the bytes accepted are the
      bytes on the wire followed by those queued if and only if no exit-drain
      send has failed after writing something. */
  lemma ConservedIffNeverTorn(states: seq<State>, acts: seq<Action>, i: nat)
    requires Run(states, acts) && i < |states| && !states[i].st.freed
    ensures OutShape(states[i].st) && (OutConserved(states[i].st) <==> !Tore(acts[..i]))
  {
    TornInEveryRun(states, acts, i);
    var st := states[i].st;
    assert |st.wire + st.outq[InFlight(st)..]| == |st.wire| + |st.outq| - InFlight(st);
  }

  // ---- what a send call reports -------------------------------------------

  function ByCall(h: seq<Tagged>, call: nat): seq<byte> {
    if h == [] then []
    else if h[|h| - 1].call == call then ByCall(h[..|h| - 1], call) + [h[|h| - 1].b]
    else ByCall(h[..|h| - 1], call)
  }

  lemma {:induction false} ByCallAppend(h: seq<Tagged>, c: nat, data: seq<byte>, call: nat)
    ensures ByCall(h + Tag(c, data), call) == if c == call then ByCall(h, call) + data else ByCall(h, call)
  {
    var t := Tag(c, data);
    if data == [] {
      assert h + t == h;
      assert ByCall(h, call) + data == ByCall(h, call);
    } else {
      var n := |data| - 1;
      var g := h + t;
      assert t[..n] == Tag(c, data[..n]);
      assert g[..|g| - 1] == h + t[..n] && g[|g| - 1] == Tagged(c, data[n]);
      ByCallAppend(h, c, data[..n], call);
      assert data == data[..n] + [data[n]];
      assert ByCall(h, call) + data[..n] + [data[n]] == ByCall(h, call) + data;
    }
  }

  lemma {:induction false} ByCallNone(h: seq<Tagged>, call: nat)
    requires forall x <- h :: x.call != call
    ensures ByCall(h, call) == []
  {
    if h != [] {
      ByCallNone(h[..|h| - 1], call);
    }
  }

  predicate CallOk(s: State, th: Thread) {
    HasCall(th) ==>
      var w := th.want;
      && w.done <= |w.buf| && w.call !in s.calls
      && ByCall(s.st.accepted, w.call) == w.buf[..w.done]
  }

  predicate CallsInv(s: State) {
    && (forall t | t in s.threads :: CallOk(s, s.threads[t]))
    && (forall c | c in s.calls ::
          s.calls[c].k <= |s.calls[c].buf| && ByCall(s.st.accepted, c) == s.calls[c].buf[..s.calls[c].k])
    && (forall t, u | t in s.threads && u in s.threads && t != u && HasCall(s.threads[t]) && HasCall(s.threads[u]) ::
          s.threads[t].want.call != s.threads[u].want.call)
  }

  /** The bytes one look adds to the history of each call. */
  lemma SendExtendsCall(st: Stream, w: Want, room: nat, c: nat)
    requires w.Send? && w.done <= |w.buf|
    ensures ByCall(LookStream(st, w, room).accepted, c)
            == if c == w.call then ByCall(st.accepted, c) + w.buf[w.done..w.done + Moved(st, w)] else ByCall(st.accepted, c)
  {
    assert LookStream(st, w, room).accepted == st.accepted + Tag(w.call, w.buf[w.done..w.done + Moved(st, w)]);
    ByCallAppend(st.accepted, w.call, w.buf[w.done..w.done + Moved(st, w)], c);
  }

  /** After a look by a sender, its call is either reported or carried on, at the new length. */
  lemma LookCallRecord(s: State, t: nat, room: nat)
    requires Enabled(s, Look(t, room)) && s.threads[t].want.Send?
    ensures var w := s.threads[t].want;
            var d := w.done + Moved(s.st, w);
            var th' := NextThread(s, Look(t, room));
            if HasCall(th') then th'.want == w.(done := d) && CallsAfter(s, Look(t, room)) == s.calls
            else CallsAfter(s, Look(t, room)) == s.calls[w.call := Report(w.buf, d)]
  {
  }

  /** Sender t moved on to d bytes; nobody else's call changed. */
  ghost predicate CallMoved(s: State, s': State, t: nat, d: nat)
    requires t in s.threads && HasCall(s.threads[t])
  {
    var w := s.threads[t].want;
    && d <= |w.buf|
    && t in s'.threads && s'.threads == s.threads[t := s'.threads[t]]
    && (if HasCall(s'.threads[t]) then s'.threads[t].want == w.(done := d) && s'.calls == s.calls
        else s'.calls == s.calls[w.call := Report(w.buf, d)])
    && ByCall(s'.st.accepted, w.call) == w.buf[..d]
    && (forall c :: c != w.call ==> ByCall(s'.st.accepted, c) == ByCall(s.st.accepted, c))
  }

  lemma CallMovedKeepsCalls(s: State, s': State, t: nat, d: nat)
    requires t in s.threads && HasCall(s.threads[t]) && CallMoved(s, s', t, d) && CallsInv(s)
    ensures CallsInv(s')
  {
    forall u | u in s'.threads
      ensures CallOk(s', s'.threads[u])
    {
      if u != t && HasCall(s.threads[u]) {
        assert CallOk(s, s.threads[u]);
      }
    }
  }

  /** The history after a look of w: its own call is n bytes further on, the others are where they were. */
  ghost predicate Moves(before: seq<Tagged>, after: seq<Tagged>, w: Want, n: nat)
    requires w.Send? && w.done + n <= |w.buf|
  {
    forall c :: ByCall(after, c)
                == if c == w.call then ByCall(before, c) + w.buf[w.done..w.done + n] else ByCall(before, c)
  }

  lemma LookMoves(st: Stream, w: Want, room: nat)
    requires w.Send? && w.done <= |w.buf|
    ensures Moves(st.accepted, LookStream(st, w, room).accepted, w, Moved(st, w))
  {
    forall c
      ensures ByCall(LookStream(st, w, room).accepted, c)
              == if c == w.call then ByCall(st.accepted, c) + w.buf[w.done..w.done + Moved(st, w)] else ByCall(st.accepted, c)
    {
      SendExtendsCall(st, w, room, c);
    }
  }

  lemma MovesOwn(before: seq<Tagged>, after: seq<Tagged>, w: Want, n: nat)
    requires w.Send? && w.done + n <= |w.buf| && Moves(before, after, w, n)
    requires ByCall(before, w.call) == w.buf[..w.done]
    ensures ByCall(after, w.call) == w.buf[..w.done + n]
  {
    assert w.buf[..w.done] + w.buf[w.done..w.done + n] == w.buf[..w.done + n];
  }

  lemma LookMovesCall(s: State, t: nat, room: nat)
    requires Enabled(s, Look(t, room)) && s.threads[t].want.Send? && CallOk(s, s.threads[t])
    ensures CallMoved(s, Apply(s, Look(t, room)), t, s.threads[t].want.done + Moved(s.st, s.threads[t].want))
  {
    LookCallRecord(s, t, room);
    var w := s.threads[t].want;
    var after := StreamAfter(s, Look(t, room)).accepted;
    LookMoves(s.st, w, room);
    MovesOwn(s.st.accepted, after, w, Moved(s.st, w));
  }

  lemma SendLookKeepsCalls(s: State, t: nat, room: nat)
    requires Enabled(s, Look(t, room)) && s.threads[t].want.Send? && CallsInv(s)
    ensures CallsInv(Apply(s, Look(t, room)))
  {
    var w := s.threads[t].want;
    assert CallOk(s, s.threads[t]);
    LookMovesCall(s, t, room);
    CallMovedKeepsCalls(s, Apply(s, Look(t, room)), t, w.done + Moved(s.st, w));
  }

  lemma AcceptedKept(st: Stream, a: StreamAction)
    requires StreamEnabled(st, a)
    ensures StreamStep(st, a).accepted == st.accepted
  {
    match a {
      case ShutRd => case ShutWr => case Close => case LinkUp => case Verdict(_) =>
      case FailLocal => case Arrive(_) => case Fin => case PeerReset => case Retire =>
      case PumpTake(_) => AcceptedKeptOnWayOut(st, a);
      case PumpWire(_) => AcceptedKeptOnWayOut(st, a);
      case PumpAccount => AcceptedKeptOnWayOut(st, a);
      case SendShut => AcceptedKeptOnWayOut(st, a);
      case DrainClaim => AcceptedKeptOnWayOut(st, a);
      case DrainTake(_) => AcceptedKeptOnWayOut(st, a);
      case DrainWire => AcceptedKeptOnWayOut(st, a);
      case DrainFail(_) => AcceptedKeptOnWayOut(st, a);
      case DrainAccount => AcceptedKeptOnWayOut(st, a);
      case DrainEnd => AcceptedKeptOnWayOut(st, a);
    }
  }

  lemma AcceptedKeptOnWayOut(st: Stream, a: StreamAction)
    requires StreamEnabled(st, a)
    requires a.PumpTake? || a.PumpWire? || a.PumpAccount? || a.SendShut? || a.DrainClaim?
             || a.DrainTake? || a.DrainWire? || a.DrainFail? || a.DrainAccount? || a.DrainEnd?
    ensures StreamStep(st, a).accepted == st.accepted
  {
  }

  lemma QuietLook(st: Stream, w: Want, room: nat)
    requires !w.Send?
    ensures LookStream(st, w, room).accepted == st.accepted
  {
    assert st.accepted + [] == st.accepted;
  }

  /** Every other step leaves the calls and the history of accepted bytes alone. */
  lemma QuietForCalls(s: State, a: Action)
    requires Enabled(s, a) && IsThreadAction(a) && !(a.Look? && s.threads[a.t].want.Send?)
    ensures StreamAfter(s, a).accepted == s.st.accepted && CallsAfter(s, a) == s.calls
    ensures HasCall(NextThread(s, a)) ==>
              if a.Start? then NextThread(s, a).want == a.want
              else HasCall(s.threads[a.t]) && NextThread(s, a).want == s.threads[a.t].want
  {
    if a.Look? {
      QuietLook(s.st, s.threads[a.t].want, a.room);
    }
  }

  lemma StepKeepsCalls(s: State, a: Action)
    requires Enabled(s, a) && CallsInv(s)
    ensures CallsInv(Apply(s, a))
  {
    if a.Look? && s.threads[a.t].want.Send? {
      SendLookKeepsCalls(s, a.t, a.room);
    } else if a.Do? {
      AcceptedKept(s.st, a.a);
      forall t | t in s.threads
        ensures CallOk(Apply(s, a), s.threads[t])
      {
        assert CallOk(s, s.threads[t]);
      }
    } else if IsThreadAction(a) {
      QuietForCalls(s, a);
      if a.Start? && a.want.Send? {
        ByCallNone(s.st.accepted, a.want.call);
      }
      var s' := Apply(s, a);
      forall t | t in s'.threads
        ensures CallOk(s', s'.threads[t])
      {
        assert CallOk(s, s.threads[t]);
      }
    }
  }

  /** A send call that reports k queued exactly the first k bytes of its
      buffer, in order, whatever other senders did meanwhile. */
  lemma {:induction false} ReportsInEveryRun(states: seq<State>, acts: seq<Action>, i: nat)
    requires Run(states, acts) && i < |states|
    ensures CallsInv(states[i])
  {
    if i > 0 {
      ReportsInEveryRun(states, acts, i - 1);
      StepKeepsCalls(states[i - 1], acts[i - 1]);
    }
  }

  // ---- wake slots -----------------------------------------------------------

  /** A sender asleep without a wake byte still waits for the pump to clear the full mark. */
  predicate SenderOk(st: Stream) {
    st.attached && st.wrFull
  }

  predicate WatchOk(st: Stream, x: Slot, th: Thread) {
    match th
    case Looking(_, w) => w.Elsewhere? || (x.watch && (x.armed || x.bytes > 0))
    case Checking(_, w) => w.Recv? && x.watch && (x.bytes > 0 || (x.armed && (!st.attached || !News(st, w))))
    case Asleep(_, w) =>
      w.Elsewhere? || (x.watch && (x.bytes > 0 || (x.armed && !News(st, w) && (w.Send? ==> SenderOk(st)))))
    case Awake(_, w) => w.Elsewhere? || x.watch
    case Drained(_, w) => w.Elsewhere? || x.watch
    case _ => true
  }

  predicate ThreadOk(s: State, th: Thread) {
    HasSlot(th) ==>
      && th.slot < |s.slots|
      && (OwnsSlot(th) ==> s.slots[th.slot].used)
      && WatchOk(s.st, s.slots[th.slot], th)
  }

  predicate WakeInv(s: State) {
    && (forall t | t in s.threads :: ThreadOk(s, s.threads[t]))
    && (forall t, u | t in s.threads && u in s.threads && t != u && OwnsSlot(s.threads[t]) && OwnsSlot(s.threads[u]) ::
          s.threads[t].slot != s.threads[u].slot)
  }

  /** A waiter that would miss its event without the bytes in its channel. */
  predicate Leans(st: Stream, x: Slot, th: Thread) {
    match th
    case Looking(_, w) => !w.Elsewhere? && !x.armed
    case Checking(_, w) => !x.armed || (st.attached && News(st, w))
    case Asleep(_, w) => !w.Elsewhere? && (!x.armed || News(st, w) || (w.Send? && !SenderOk(st)))
    case _ => false
  }

  /** The last drain of thread t takes no byte that an owner of its slot leans on. */
  predicate Harmless(s: State, t: nat)
    requires ThreadIn(s, t) && s.threads[t].Leaving?
  {
    forall u | u in s.threads && OwnsSlot(s.threads[u]) && s.threads[u].slot == s.threads[t].slot ::
      !(s.slots[s.threads[t].slot].bytes > 0 && Leans(s.st, s.slots[s.threads[t].slot], s.threads[u]))
  }

  predicate Calm(s: State, a: Action)
    requires Enabled(s, a)
  {
    a.LastDrain? ==> Harmless(s, a.t)
  }

  /** Only signalling steps make news; the rest leave a sleeper right to sleep. */
  lemma SilentSteps(st: Stream, a: StreamAction)
    requires StreamEnabled(st, a) && OutShape(st) && !Signals(st, a)
    ensures News(StreamStep(st, a), Recv) ==> News(st, Recv)
    ensures News(StreamStep(st, a), Poll) ==> News(st, Poll)
    ensures News(StreamStep(st, a), Connect) ==> News(st, Connect)
    ensures SenderOk(st) ==> SenderOk(StreamStep(st, a))
    ensures StreamStep(st, a).attached == st.attached
  {
  }

  /** A stream step leaves every waiter either right to wait or poked. */
  lemma StreamStepKeepsWatch(st: Stream, a: StreamAction, x: Slot, th: Thread)
    requires StreamEnabled(st, a) && OutShape(st) && WatchOk(st, x, th) && x.used
    ensures WatchOk(StreamStep(st, a), if Signals(st, a) then PokeSlot(x) else x, th)
  {
    if !Signals(st, a) {
      SilentSteps(st, a);
    }
  }

  lemma StreamStepKeepsWake(s: State, a: StreamAction)
    requires Enabled(s, Do(a)) && OutShape(s.st) && WakeInv(s)
    ensures WakeInv(Apply(s, Do(a)))
  {
    var s' := Apply(s, Do(a));
    forall t | t in s'.threads
      ensures ThreadOk(s', s'.threads[t])
    {
      var th := s.threads[t];
      assert ThreadOk(s, th);
      if OwnsSlot(th) {
        StreamStepKeepsWatch(s.st, a, s.slots[th.slot], th);
      }
    }
  }

  /** Another thread's look consumes data or queues bytes; it never creates news. */
  lemma LookIsQuiet(st: Stream, w: Want, room: nat, x: Slot, th: Thread)
    requires (w.Send? ==> w.done <= |w.buf|) && WatchOk(st, x, th)
    ensures WatchOk(LookStream(st, w, room), x, th)
  {
    LookMakesNoNews(st, w, room);
    assert |LookStream(st, w, room).outq| >= |st.outq|;
  }

  /** A thread's own step touches no slot another thread owns, but for a last drain. */
  lemma OthersUntouched(s: State, a: Action, u: nat)
    requires IsThreadAction(a) && Enabled(s, a) && WakeInv(s) && !a.LastDrain?
    requires u in s.threads && u != a.t && OwnsSlot(s.threads[u])
    ensures TouchedSlot(s, a) != Some(s.threads[u].slot)
  {
    assert ThreadOk(s, s.threads[u]);
    if !a.Claim? && HasSlot(s.threads[a.t]) {
      assert OwnsSlot(s.threads[a.t]);
    }
  }

  lemma OthersKept(s: State, a: Action, u: nat)
    requires IsThreadAction(a) && Enabled(s, a) && WakeInv(s) && !a.LastDrain?
    requires u in s.threads && u != a.t
    ensures ThreadOk(Apply(s, a), s.threads[u])
  {
    var th := s.threads[u];
    assert ThreadOk(s, th);
    if OwnsSlot(th) {
      OthersUntouched(s, a, u);
      assert SlotsAfter(s, a)[th.slot] == s.slots[th.slot];
      if a.Look? {
        LookIsQuiet(s.st, s.threads[a.t].want, a.room, s.slots[th.slot], th);
      }
    }
  }

  /** A last drain breaks exactly the owners that lean on the bytes it takes. */
  lemma LateDrainBreaksIff(s: State, t: nat, u: nat)
    requires Enabled(s, LastDrain(t)) && WakeInv(s) && u in s.threads && u != t && OwnsSlot(s.threads[u])
    ensures var k := s.threads[t].slot;
            !ThreadOk(Apply(s, LastDrain(t)), s.threads[u])
            <==> s.threads[u].slot == k && s.slots[k].bytes > 0 && Leans(s.st, s.slots[k], s.threads[u])
  {
    assert ThreadOk(s, s.threads[u]);
    assert ThreadOk(s, s.threads[t]);
    var s' := Apply(s, LastDrain(t));
    assert s'.st == s.st && s'.slots == s.slots[s.threads[t].slot := s.slots[s.threads[t].slot].(bytes := 0)];
  }

  /** The wake protocol survives a last drain if and only if the drain is harmless. */
  lemma LastDrainKeepsIff(s: State, t: nat)
    requires Enabled(s, LastDrain(t)) && WakeInv(s)
    ensures WakeInv(Apply(s, LastDrain(t))) <==> Harmless(s, t)
  {
    var s' := Apply(s, LastDrain(t));
    forall u | u in s.threads && u != t && OwnsSlot(s.threads[u])
      ensures u in s'.threads && s'.threads[u] == s.threads[u]
      ensures !ThreadOk(s', s'.threads[u])
              <==> s.threads[u].slot == s.threads[t].slot && s.slots[s.threads[t].slot].bytes > 0
                   && Leans(s.st, s.slots[s.threads[t].slot], s.threads[u])
    {
      LateDrainBreaksIff(s, t, u);
    }
    forall u | u in s.threads && u != t && !OwnsSlot(s.threads[u]) ensures ThreadOk(s', s'.threads[u]) {
      assert ThreadOk(s, s.threads[u]);
    }
  }

  /** A sender told to wait has marked the queue full, and it is not empty. */
  lemma WaitingSenderFacts(st: Stream, w: Want)
    requires w.Send? && w.done <= |w.buf| && LookOutcome(st, w).Waits?
    ensures st.attached && st.outq != [] && MetFull(st, w) && Offered(st, w) == []
  {
  }

  lemma LookMakesNoNews(st: Stream, w: Want, room: nat)
    requires w.Send? ==> w.done <= |w.buf|
    ensures var st' := LookStream(st, w, room);
            && st'.attached == st.attached && (News(st', Recv) ==> News(st, Recv))
            && (News(st', Poll) ==> News(st, Poll)) && (News(st', Connect) ==> News(st, Connect))
  {
    assert |LookStream(st, w, room).inq| <= |st.inq|;
  }

  lemma WaitingSenderOk(st: Stream, w: Want, room: nat)
    requires w.Send? && w.done <= |w.buf| && LookOutcome(st, w).Waits?
    ensures SenderOk(LookStream(st, w, room))
  {
    WaitingSenderFacts(st, w);
    var st' := LookStream(st, w, room);
    assert |st'.outq| >= |st.outq|;
  }

  /** A look that ends in waiting leaves the thread right to wait. */
  lemma OwnLookKept(st: Stream, st': Stream, th: Thread, x: Slot)
    requires CanLook(th) && WatchOk(st, x, th)
    requires st'.attached == st.attached
    requires News(st', Recv) ==> News(st, Recv)
    requires News(st', Poll) ==> News(st, Poll)
    requires News(st', Connect) ==> News(st, Connect)
    requires th.want.Send? && LookOutcome(st, th.want).Waits? ==> SenderOk(st')
    ensures var o := LookOutcome(st, th.want);
            !o.Returns? ==> WatchOk(st', x, AfterLook(th, o))
  {
    match th.want {
      case Recv =>
      case Poll =>
      case Connect =>
      case Elsewhere =>
      case Send(_, _, _, _) =>
    }
  }

  lemma OwnLookStepKept(s: State, a: Action)
    requires a.Look? && Enabled(s, a) && WakeInv(s) && HasSlot(s.threads[a.t])
    ensures ThreadOk(Apply(s, a), NextThread(s, a))
  {
    var th := s.threads[a.t];
    assert ThreadOk(s, th);
    LookMakesNoNews(s.st, th.want, a.room);
    if th.want.Send? && LookOutcome(s.st, th.want).Waits? {
      WaitingSenderOk(s.st, th.want, a.room);
    }
    OwnLookKept(s.st, StreamAfter(s, a), th, s.slots[th.slot]);
    if !LookOutcome(s.st, th.want).Returns? {
      assert SlotsAfter(s, a)[th.slot] == s.slots[th.slot];
    }
  }

  lemma OwnStepKept(s: State, a: Action)
    requires IsThreadAction(a) && Enabled(s, a) && WakeInv(s)
    ensures ThreadOk(Apply(s, a), NextThread(s, a))
  {
    assert ThreadOk(s, s.threads[a.t]);
    if a.Look? && HasSlot(s.threads[a.t]) {
      OwnLookStepKept(s, a);
    }
  }

  lemma ThreadStepKeepsWake(s: State, a: Action)
    requires IsThreadAction(a) && Enabled(s, a) && WakeInv(s) && !a.LastDrain?
    ensures WakeInv(Apply(s, a))
  {
    var s' := Apply(s, a);
    OwnStepKept(s, a);
    forall u | u in s'.threads
      ensures ThreadOk(s', s'.threads[u])
    {
      if u != a.t {
        OthersKept(s, a, u);
      }
    }
    assert HasSlot(NextThread(s, a)) ==> TouchedSlot(s, a) == Some(NextThread(s, a).slot);
    forall u | u in s.threads && u != a.t && OwnsSlot(s.threads[u])
      ensures TouchedSlot(s, a) != Some(s.threads[u].slot)
    {
      OthersUntouched(s, a, u);
    }
  }

  lemma OtherPokeKeepsWake(s: State, a: Action)
    requires a.OtherPoke? && Enabled(s, a) && WakeInv(s)
    ensures WakeInv(Apply(s, a))
  {
    var s' := Apply(s, a);
    forall t | t in s'.threads
      ensures ThreadOk(s', s'.threads[t])
    {
      assert ThreadOk(s, s.threads[t]);
    }
  }

  lemma StepKeepsWakeIff(s: State, a: Action)
    requires Enabled(s, a) && OutShape(s.st) && WakeInv(s)
    ensures WakeInv(Apply(s, a)) <==> Calm(s, a)
  {
    if a.Do? {
      StreamStepKeepsWake(s, a.a);
    } else if a.OtherPoke? {
      OtherPokeKeepsWake(s, a);
    } else if a.LastDrain? {
      LastDrainKeepsIff(s, a.t);
    } else {
      ThreadStepKeepsWake(s, a);
    }
  }

  ghost predicate AllWake(states: seq<State>, n: nat)
    requires n <= |states|
  {
    forall j | 0 <= j < n :: WakeInv(states[j])
  }

  ghost predicate AllCalm(states: seq<State>, acts: seq<Action>, n: nat)
    requires Run(states, acts) && n <= |acts|
  {
    forall j | 0 <= j < n :: Calm(states[j], acts[j])
  }

  lemma RunWakesIff(states: seq<State>, acts: seq<Action>, i: nat)
    requires Run(states, acts) && i < |acts| && WakeInv(states[i])
    ensures WakeInv(states[i + 1]) <==> Calm(states[i], acts[i])
  {
    QueuesInEveryRun(states, acts, i);
    StepKeepsWakeIff(states[i], acts[i]);
  }

  lemma CalmSnoc(states: seq<State>, acts: seq<Action>, n: nat)
    requires Run(states, acts) && n < |acts|
    ensures AllCalm(states, acts, n + 1) <==> AllCalm(states, acts, n) && Calm(states[n], acts[n])
  {
  }

  lemma WakeSnoc(states: seq<State>, n: nat)
    requires n < |states|
    ensures AllWake(states, n + 1) <==> AllWake(states, n) && WakeInv(states[n])
  {
  }

  /** In every run, the wake protocol holds in all its states if and only if no
      last drain took a byte that an owner of its slot leaned on. */
  lemma {:induction false} WakeInEveryRun(states: seq<State>, acts: seq<Action>, i: nat)
    requires Run(states, acts) && i < |states|
    ensures AllWake(states, i + 1) <==> AllCalm(states, acts, i)
  {
    WakeSnoc(states, i);
    if i > 0 {
      WakeInEveryRun(states, acts, i - 1);
      CalmSnoc(states, acts, i - 1);
      if AllWake(states, i) {
        RunWakesIff(states, acts, i - 1);
      }
    } else {
      assert Initial(states[0]);
    }
  }

  /** A run in which no last drain took a byte that an owner of its slot leaned on. */
  ghost predicate CalmRun(states: seq<State>, acts: seq<Action>) {
    Run(states, acts) && forall i | 0 <= i < |acts| :: Calm(states[i], acts[i])
  }

  /** No two threads name one slot, not even one that is leaving it. */
  predicate SlotsApart(s: State) {
    && (forall t | t in s.threads && HasSlot(s.threads[t]) :: s.threads[t].slot < |s.slots|)
    && (forall t | t in s.threads && OwnsSlot(s.threads[t]) :: s.slots[s.threads[t].slot].used)
    && (forall t, u | t in s.threads && u in s.threads && t != u && HasSlot(s.threads[t]) && HasSlot(s.threads[u]) ::
          s.threads[t].slot != s.threads[u].slot)
  }

  lemma StepKeepsApart(s: State, a: Action)
    requires Enabled(s, a) && Orderly(s, a) && SlotsApart(s)
    ensures SlotsApart(Apply(s, a))
  {
    if IsThreadAction(a) {
      OwnStepApart(s, a);
    } else if a.Do? {
    } else {
    }
  }

  lemma OwnStepApart(s: State, a: Action)
    requires IsThreadAction(a) && Enabled(s, a) && Orderly(s, a) && SlotsApart(s)
    ensures SlotsApart(Apply(s, a))
  {
    var s', next := Apply(s, a), NextThread(s, a);
    assert HasSlot(next) ==> TouchedSlot(s, a) == Some(next.slot);
    if OwnsSlot(next) { OwnSlotUsed(s, a); }
    forall u | u in s.threads && u != a.t && HasSlot(s.threads[u]) ensures TouchedSlot(s, a) != Some(s.threads[u].slot) {
    }
  }

  lemma OwnSlotUsed(s: State, a: Action)
    requires IsThreadAction(a) && Enabled(s, a) && SlotsApart(s) && OwnsSlot(NextThread(s, a))
    ensures NextThread(s, a).slot < |s.slots| && SlotsAfter(s, a)[NextThread(s, a).slot].used
  {
  }

  lemma ApartIsCalm(s: State, a: Action)
    requires Enabled(s, a) && SlotsApart(s)
    ensures Calm(s, a)
  {
  }

  /** When every last drain ends before its slot is taken again, the run is calm. */
  lemma {:induction false} OrderlyIsCalm(states: seq<State>, acts: seq<Action>, i: nat)
    requires OrderlyRun(states, acts) && i < |states|
    ensures SlotsApart(states[i]) && forall j | 0 <= j < i :: Calm(states[j], acts[j])
  {
    if i > 0 {
      OrderlyIsCalm(states, acts, i - 1);
      ApartIsCalm(states[i - 1], acts[i - 1]);
      StepKeepsApart(states[i - 1], acts[i - 1]);
    }
  }

  /** No lost wake-up, as a state property: a thread asleep on this stream has
      a wake byte waiting, or there is nothing to report and the next event
      will find its slot armed. */
  lemma NoLostWakeup(states: seq<State>, acts: seq<Action>, i: nat, t: nat)
    requires CalmRun(states, acts) && i < |states|
    requires t in states[i].threads && states[i].threads[t].Asleep? && !states[i].threads[t].want.Elsewhere?
    ensures var th := states[i].threads[t];
            && th.slot < |states[i].slots|
            && (states[i].slots[th.slot].bytes > 0 || (states[i].slots[th.slot].armed && !News(states[i].st, th.want)))
  {
    WakeInEveryRun(states, acts, i);
    assert ThreadOk(states[i], states[i].threads[t]);
  }

  /** Data queued, connect verdict, SHUT_RD, reset or close. */
  predicate Newsworthy(st: Stream, a: StreamAction) {
    || (a.Arrive? && |st.inq| + |a.data| <= MAXIN)
    || a.Verdict? || a.FailLocal? || a.ShutRd? || a.PeerReset? || a.Close?
  }

  /** The same, as an event property: the step that changes something leaves a
      wake byte in the channel of everyone asleep on this stream. */
  lemma EventLeavesByte(states: seq<State>, acts: seq<Action>, i: nat, t: nat)
    requires CalmRun(states, acts) && i < |acts| && acts[i].Do?
    requires t in states[i].threads && states[i].threads[t].Asleep? && !states[i].threads[t].want.Elsewhere?
    requires Newsworthy(states[i].st, acts[i].a) 
             || (acts[i].a.Fin? && (states[i].threads[t].want.Recv? || (states[i].threads[t].want.Poll? && states[i].st.attached)))
    ensures t in states[i + 1].threads && states[i + 1].threads[t] == states[i].threads[t]
    ensures var k := states[i].threads[t].slot;
            k < |states[i + 1].slots| && states[i + 1].slots[k].bytes > 0
  {
    WakeInEveryRun(states, acts, i);
    assert ThreadOk(states[i], states[i].threads[t]);
  }

  // A run in which thread 1 leaves slot 0, thread 2 takes it over and falls
  // asleep, and only then thread 1 performs its last drain.

  const OPENED := FRESH.(fdLive := true, phase := Open, pump := Ready)
  const ARMED := Slot(true, true, true, 0)

  function LateThreads(i: nat): map<nat, Thread> {
    var one :=
      if i <= 2 then Idle else if i == 3 then Trying(Recv) else if i == 4 then Claimed(0, Recv)
      else if i == 5 then Looking(0, Recv) else if i <= 12 then Leaving(0) else Idle;
    var two :=
      if i <= 6 then Idle else if i == 7 then Trying(Recv) else if i == 8 then Claimed(0, Recv)
      else if i == 9 then Looking(0, Recv) else if i == 10 then Checking(0, Recv) else Asleep(0, Recv);
    map[1 := one, 2 := two]
  }

  function LateSlot(i: nat): Slot {
    if i <= 3 then Slot(false, false, false, 0) else if i == 4 then Slot(true, false, false, 0)
    else if i == 5 then ARMED else if i <= 7 then Slot(false, false, true, 0)
    else if i == 8 then Slot(true, false, true, 0) else if i <= 11 then ARMED
    else if i == 12 then Slot(true, false, true, 1) else Slot(true, false, true, 0)
  }

  function LateStream(i: nat): Stream {
    if i == 0 then FRESH else if i == 1 then FRESH.(fdLive := true) else if i <= 11 then OPENED
    else OPENED.(inq := [7], kept := [7])
  }

  function LateState(i: nat): State {
    State(LateStream(i), [LateSlot(i)], LateThreads(i), map[])
  }

  const LATE_ACTS := [Do(LinkUp), Do(Verdict(true)), Start(1, Recv), Claim(1, 0), Arm(1, true), GiveUp(1),
                      Start(2, Recv), Claim(2, 0), Arm(2, true), Look(2, 0), CheckAlive(2), Do(Arrive([7])), LastDrain(1)]

  lemma LateEarlySteps(i: nat)
    requires 2 <= i < 6
    ensures Enabled(LateState(i), LATE_ACTS[i]) && Apply(LateState(i), LATE_ACTS[i]) == LateState(i + 1)
  {
    if i == 2 {} else if i == 3 {} else if i == 4 {} else {}
  }

  lemma LateLaterSteps(i: nat)
    requires 6 <= i < 13 && i != 11 && i != 9
    ensures Enabled(LateState(i), LATE_ACTS[i]) && Apply(LateState(i), LATE_ACTS[i]) == LateState(i + 1)
  {
    if i == 6 {} else if i == 7 {} else if i == 8 {} else if i == 10 {} else {}
  }

  lemma LateStreamStep(i: nat)
    requires i < 2 || i == 11 || i == 9
    ensures Enabled(LateState(i), LATE_ACTS[i]) && Apply(LateState(i), LATE_ACTS[i]) == LateState(i + 1)
  {
    var s := LateState(i);
    assert Poke(s.slots) == [PokeSlot(LateSlot(i))];
    if i == 9 {
      assert s.st.outq + [] == s.st.outq && s.st.accepted + [] == s.st.accepted;
    }
  }

  /** The orderliness assumption is needed: when a released slot is taken
      again before its previous owner's last drain, that drain can swallow the
      new owner's wake byte and leave it asleep over queued data. */
  lemma LateDrainLosesByte()
    ensures exists states: seq<State>, acts: seq<Action> ::
              && Run(states, acts)
              && var s := states[|states| - 1];
                 && 2 in s.threads && s.threads[2] == Asleep(0, Recv) && |s.slots| == 1
                 && News(s.st, Recv) && s.slots[0].bytes == 0 && !s.slots[0].armed
  {
    var states := seq(14, i requires 0 <= i => LateState(i));
    forall i | 0 <= i < |LATE_ACTS|
      ensures Enabled(states[i], LATE_ACTS[i]) && states[i + 1] == Apply(states[i], LATE_ACTS[i])
    {
      if i < 2 || i == 11 || i == 9 {
        LateStreamStep(i);
      } else if i < 6 {
        LateEarlySteps(i);
      } else {
        LateLaterSteps(i);
      }
    }
    assert Run(states, LATE_ACTS);
  }
}
