/** Runs of the stream engine in which its exit drain tears the byte stream or
    strands a sleeping sender (hook/hk_stream.c:396-432, hook/hk_sess.c:641-648). */
module StreamWitnesses {
  import opened Wire
  import opened StreamEngine
  import opened StreamTheorems
  import opened StreamSenders

  ghost predicate Reachable(s: State) {
    exists states, acts :: Run(states, acts) && states[|acts|] == s
  }

  lemma ReachOn(s: State, a: Action, s': State)
    requires Reachable(s) && Enabled(s, a) && s' == Apply(s, a)
    ensures Reachable(s')
  {
    var states, acts :| Run(states, acts) && states[|acts|] == s;
    RunOn(states, acts, a, s');
  }

  lemma RunOn(states: seq<State>, acts: seq<Action>, a: Action, s': State)
    requires Run(states, acts) && Enabled(states[|acts|], a) && s' == Apply(states[|acts|], a)
    ensures Run(states + [s'], acts + [a]) && (states + [s'])[|acts + [a]|] == s'
  {
    var ss, aa := states + [s'], acts + [a];
    forall k | 0 <= k < |aa| ensures Enabled(ss[k], aa[k]) && ss[k + 1] == Apply(ss[k], aa[k]) {
      if k < |acts| { assert ss[k] == states[k] && ss[k + 1] == states[k + 1] && aa[k] == acts[k]; }
    }
  }

  const FREE := Slot(false, false, false, 0)

  function Begin(): State {
    State(FRESH, [FREE], map[1 := Idle, 2 := Idle], map[])
  }

  lemma BeginReachable()
    ensures Reachable(Begin())
  {
    var none: seq<Action> := [];
    assert Run([Begin()], none) && [Begin()][|none|] == Begin();
  }

  /** A buffer queued by a send that has returned; nothing else happened yet. */
  function Queued(buf: seq<byte>): Stream {
    FRESH.(outq := Tag(0, buf), accepted := Tag(0, buf))
  }

  function QueuedState(buf: seq<byte>): State {
    State(Queued(buf), [FREE], map[1 := Idle, 2 := Idle], map[0 := Report(buf, |buf|)])
  }

  lemma QueuedReachable(buf: seq<byte>)
    requires 0 < |buf| <= MAXOUT
    ensures Reachable(QueuedState(buf))
  {
    BeginReachable();
    var w := Send(0, buf, 0, false);
    var s1 := Begin().(threads := map[1 := Trying(w), 2 := Idle]);
    ReachOn(Begin(), Start(1, w), s1);
    FirstLook(buf, w, s1);
    ReachOn(s1, Look(1, 0), QueuedState(buf));
  }

  lemma FirstLookStream(buf: seq<byte>, w: Want)
    requires 0 < |buf| <= MAXOUT && w == Send(0, buf, 0, false)
    ensures Moved(FRESH, w) == |buf| && LookStream(FRESH, w, 0) == Queued(buf) && LookOutcome(FRESH, w) == Returns
  {
    assert buf[0..0 + Moved(FRESH, w)] == buf;
    assert Offered(FRESH, w) == Tag(0, buf);
    assert [] + Tag(0, buf) == Tag(0, buf);
  }

  lemma FirstReturns(s: State, w: Want)
    requires w.Send? && w.done <= |w.buf| && LookOutcome(s.st, w) == Returns && s.slots == [FREE]
    requires s.threads == map[1 := Trying(w), 2 := Idle]
    ensures Enabled(s, Look(1, 0))
    ensures Apply(s, Look(1, 0)) == State(LookStream(s.st, w, 0), [FREE], map[1 := Idle, 2 := Idle],
                                          s.calls[w.call := Report(w.buf, w.done + Moved(s.st, w))])
  {
    assert s.threads[1 := Idle] == map[1 := Idle, 2 := Idle];
  }

  lemma FirstLook(buf: seq<byte>, w: Want, s1: State)
    requires 0 < |buf| <= MAXOUT && w == Send(0, buf, 0, false)
    requires s1 == Begin().(threads := map[1 := Trying(w), 2 := Idle])
    ensures Enabled(s1, Look(1, 0)) && Apply(s1, Look(1, 0)) == QueuedState(buf)
  {
    FirstLookStream(buf, w);
    FirstReturns(s1, w);
    assert map[][0 := Report(buf, |buf|)] == map[0 := Report(buf, |buf|)];
  }

  /** A stream step that pokes nobody. */
  lemma ReachDo(s: State, a: StreamAction, st': Stream)
    requires Reachable(s) && StreamEnabled(s.st, a) && !Signals(s.st, a) && st' == StreamStep(s.st, a)
    ensures Reachable(s.(st := st'))
  {
    ReachOn(s, Do(a), s.(st := st'));
  }

  /** The same, with the marks later calls leave. */
  function Marked(buf: seq<byte>, rd: bool, full: bool): Stream {
    Queued(buf).(rdShut := rd, wrFull := full)
  }

  /** The stream while the exit drain sends its whole queue. */
  function Draining(buf: seq<byte>, rd: bool, full: bool): Stream {
    Marked(buf, rd, full).(fdLive := true, flushing := true, sending := true, drain := Took(|buf|))
  }

  /** The link comes up and the exit drain takes the whole queue. */
  lemma DrainBegins(q: State, buf: seq<byte>, rd: bool, full: bool)
    requires Reachable(q) && q.st == Marked(buf, rd, full) && 0 < |buf| <= MAXOUT
    ensures Reachable(q.(st := Draining(buf, rd, full)))
  {
    var st1 := q.st.(fdLive := true);
    ReachDo(q, LinkUp, st1);
    var st2 := st1.(flushing := true, drain := Ready);
    ReachDo(q.(st := st1), DrainClaim, st2);
    ReachDo(q.(st := st2), DrainTake(|buf|), Draining(buf, rd, full));
  }

  /** The stream after that drain: everything on the wire, nothing queued, nobody told. */
  function DrainedOff(buf: seq<byte>, rd: bool, full: bool): Stream {
    Marked(buf, rd, full).(fdLive := true, flushing := true, drain := Ready, outq := [], wire := Tag(0, buf))
  }

  lemma DrainEmpties(q: State, buf: seq<byte>, rd: bool, full: bool)
    requires Reachable(q) && q.st == Marked(buf, rd, full) && 0 < |buf| <= MAXOUT
    ensures Reachable(q.(st := DrainedOff(buf, rd, full)))
  {
    DrainBegins(q, buf, rd, full);
    var st := Draining(buf, rd, full);
    var st1 := st.(drain := Put(|buf|), wire := Tag(0, buf));
    assert [] + st.outq[..|buf|] == Tag(0, buf);
    ReachDo(q.(st := st), DrainWire, st1);
    assert st1.outq[|buf|..] == [];
    ReachDo(q.(st := st1), DrainAccount, DrainedOff(buf, rd, full));
  }

  lemma DrainingConserved(buf: seq<byte>)
    requires 0 < |buf| <= MAXOUT
    ensures OutShape(Draining(buf, false, false)) && OutConserved(Draining(buf, false, false))
  {
    var st := Draining(buf, false, false);
    assert st.outq[0..] == st.outq;
    assert [] + st.outq == st.outq;
  }

  /** A drain send that fails after m bytes of the only chunk is reachable, and breaks conservation. */
  lemma TearReachable(buf: seq<byte>, m: nat) returns (s: State)
    requires 1 < |buf| <= MAXOUT && 0 < m < |buf|
    ensures Reachable(s) && !s.st.freed && OutShape(s.st) && !OutConserved(s.st)
  {
    QueuedReachable(buf);
    var q := QueuedState(buf);
    DrainBegins(q, buf, false, false);
    var st := Draining(buf, false, false);
    DrainingConserved(buf);
    ReachDo(q.(st := st), DrainFail(m), StreamStep(st, DrainFail(m)));
    s := q.(st := StreamStep(st, DrainFail(m)));
    DrainFailTearsIff(st, m);
  }

  // ---- a stranded sender ---------------------------------------------------------------

  /** The second thread's send of one more byte. */
  function More(x: byte): Want {
    Send(1, [x], 0, false)
  }

  /** The first thread is done with its send, the second at its own. */
  function Pair(buf: seq<byte>, rd: bool, full: bool, one: Thread, two: Thread, slot: Slot): State {
    State(Marked(buf, rd, full), [slot], map[1 := one, 2 := two], map[0 := Report(buf, |buf|)])
  }

  lemma LookMeetsFull(buf: seq<byte>, x: byte, rd: bool, full: bool)
    requires |buf| == MAXOUT
    ensures var st := Marked(buf, rd, full);
            LookStream(st, More(x), 0) == Marked(buf, rd, true) && LookOutcome(st, More(x)) == Waits
  {
    var st := Marked(buf, rd, full);
    assert Offered(st, More(x)) == [];
    assert st.outq + [] == st.outq && st.accepted + [] == st.accepted;
  }

  /** One thread's step that leaves the stream and the calls alone. */
  lemma ReachThread(s: State, a: Action, one: Thread, two: Thread, slot: Slot)
    requires Reachable(s) && IsThreadAction(a) && Enabled(s, a) && !a.Look? && |s.slots| == 1
    requires SlotsAfter(s, a) == [slot] && s.threads[a.t := NextThread(s, a)] == map[1 := one, 2 := two]
    ensures Reachable(State(s.st, [slot], map[1 := one, 2 := two], s.calls))
  {
    ReachOn(s, a, State(s.st, [slot], map[1 := one, 2 := two], s.calls));
  }

  /** A look that ends no send call. */
  lemma ReachLook(s: State, t: nat, st': Stream, one: Thread, two: Thread, slot: Slot)
    requires Reachable(s) && Enabled(s, Look(t, 0)) && |s.slots| == 1 && !(s.threads[t].want.Send? && LookOutcome(s.st, s.threads[t].want).Returns?)
    requires LookStream(s.st, s.threads[t].want, 0) == st'
    requires SlotsAfter(s, Look(t, 0)) == [slot] && s.threads[t := NextThread(s, Look(t, 0))] == map[1 := one, 2 := two]
    ensures Reachable(State(st', [slot], map[1 := one, 2 := two], s.calls))
  {
    ReachOn(s, Look(t, 0), State(st', [slot], map[1 := one, 2 := two], s.calls));
  }

  /** The second sender meets the full queue, takes the slot, arms it, looks again and sleeps. */
  lemma SleeperReachable(buf: seq<byte>, x: byte, rd: bool, one: Thread, slot: Slot)
    requires |buf| == MAXOUT && (one == Idle || one == Leaving(0)) && !slot.used && !slot.armed
    requires Reachable(Pair(buf, rd, false, one, Idle, slot))
    ensures Reachable(Pair(buf, rd, true, one, Asleep(0, More(x)), Slot(true, true, true, slot.bytes)))
  {
    SecondLooks(buf, x, rd, one, slot);
    SecondArms(buf, x, rd, one, slot);
    var s := Pair(buf, rd, true, one, Looking(0, More(x)), Slot(true, true, true, slot.bytes));
    LookMeetsFull(buf, x, rd, true);
    ReachLook(s, 2, s.st, one, Asleep(0, More(x)), s.slots[0]);
  }

  lemma SecondArms(buf: seq<byte>, x: byte, rd: bool, one: Thread, slot: Slot)
    requires (one == Idle || one == Leaving(0)) && !slot.used && !slot.armed
    requires Reachable(Pair(buf, rd, true, one, Trying(More(x)), slot))
    ensures Reachable(Pair(buf, rd, true, one, Looking(0, More(x)), Slot(true, true, true, slot.bytes)))
  {
    var taken := slot.(used := true);
    ReachThread(Pair(buf, rd, true, one, Trying(More(x)), slot), Claim(2, 0), one, Claimed(0, More(x)), taken);
    ReachThread(Pair(buf, rd, true, one, Claimed(0, More(x)), taken), Arm(2, true), one, Looking(0, More(x)),
                Slot(true, true, true, slot.bytes));
  }

  lemma SecondStarts(buf: seq<byte>, x: byte, rd: bool, one: Thread, slot: Slot)
    requires (one == Idle || one == Leaving(0)) && Reachable(Pair(buf, rd, false, one, Idle, slot))
    ensures Reachable(Pair(buf, rd, false, one, Trying(More(x)), slot))
  {
    ReachThread(Pair(buf, rd, false, one, Idle, slot), Start(2, More(x)), one, Trying(More(x)), slot);
  }

  lemma SecondLooks(buf: seq<byte>, x: byte, rd: bool, one: Thread, slot: Slot)
    requires |buf| == MAXOUT && (one == Idle || one == Leaving(0))
    requires Reachable(Pair(buf, rd, false, one, Idle, slot))
    ensures Reachable(Pair(buf, rd, true, one, Trying(More(x)), slot))
  {
    SecondStarts(buf, x, rd, one, slot);
    var s := Pair(buf, rd, false, one, Trying(More(x)), slot);
    LookMeetsFull(buf, x, rd, false);
    ReachLook(s, 2, Marked(buf, rd, true), one, Trying(More(x)), slot);
  }

  /** The exit drain takes everything: the sender sleeps on with nothing to wake it. */
  lemma StrandReachable(buf: seq<byte>, x: byte) returns (s: State)
    requires |buf| == MAXOUT
    ensures Reachable(s) && SleepingSender(s, 2) && s.st.outq == [] && !Sound(s, 2)
  {
    QueuedReachable(buf);
    SleeperReachable(buf, x, false, Idle, FREE);
    var q := Pair(buf, false, true, Idle, Asleep(0, More(x)), ARMED);
    DrainEmpties(q, buf, false, true);
    s := q.(st := DrainedOff(buf, false, true));
  }

  // ---- the same, by a last drain -------------------------------------------------------

  const POKED := Slot(false, false, true, 1)

  const HIT := Slot(true, false, true, 1)

  /** A recv arms slot 0, a shutdown pokes it, the recv returns: the byte is still unread. */
  lemma LeaverReachable(buf: seq<byte>)
    requires 0 < |buf| <= MAXOUT
    ensures Reachable(Pair(buf, true, false, Leaving(0), Idle, POKED))
  {
    ReaderReachable(buf);
    ReaderPoked(buf);
    var s := Pair(buf, true, false, Looking(0, Recv), Idle, HIT);
    ReadsNothing(s.st);
    ReaderReturns(s);
    ReachLook(s, 1, s.st, Leaving(0), Idle, POKED);
  }

  lemma ReaderReturns(s: State)
    requires s.slots == [HIT] && s.threads == map[1 := Looking(0, Recv), 2 := Idle] && s.st.attached && s.st.rdShut
    ensures Enabled(s, Look(1, 0)) && SlotsAfter(s, Look(1, 0)) == [POKED]
    ensures s.threads[1 := NextThread(s, Look(1, 0))] == map[1 := Leaving(0), 2 := Idle]
  {
    assert LookOutcome(s.st, Recv) == Returns;
    assert NextThread(s, Look(1, 0)) == Leaving(0);
  }

  lemma ReaderPoked(buf: seq<byte>)
    requires Reachable(Pair(buf, false, false, Looking(0, Recv), Idle, ARMED))
    ensures Reachable(Pair(buf, true, false, Looking(0, Recv), Idle, HIT))
  {
    var s := Pair(buf, false, false, Looking(0, Recv), Idle, ARMED);
    assert Poke(s.slots) == [HIT];
    ReachOn(s, Do(ShutRd), Pair(buf, true, false, Looking(0, Recv), Idle, HIT));
  }

  lemma ReadsNothing(st: Stream)
    requires st.inq == []
    ensures LookStream(st, Recv, 0) == st
  {
    assert st.outq + [] == st.outq && st.accepted + [] == st.accepted && st.popped + [] == st.popped;
  }

  lemma ReaderReachable(buf: seq<byte>)
    requires 0 < |buf| <= MAXOUT
    ensures Reachable(Pair(buf, false, false, Looking(0, Recv), Idle, ARMED))
  {
    QueuedReachable(buf);
    ReachThread(QueuedState(buf), Start(1, Recv), Trying(Recv), Idle, FREE);
    var taken := Slot(true, false, false, 0);
    ReachThread(Pair(buf, false, false, Trying(Recv), Idle, FREE), Claim(1, 0), Claimed(0, Recv), Idle, taken);
    ReachThread(Pair(buf, false, false, Claimed(0, Recv), Idle, taken), Arm(1, true), Looking(0, Recv), Idle, ARMED);
  }

  /** The exit drain empties the queue over a sleeper that still has a wake byte, and the
      last drain of the slot's previous owner takes that byte. */
  lemma RobReachable(buf: seq<byte>, x: byte) returns (before: State, s: State)
    requires |buf| == MAXOUT
    ensures Reachable(before) && SleepingSender(before, 2) && Sound(before, 2)
    ensures Enabled(before, LastDrain(1)) && s == Apply(before, LastDrain(1)) && Robs(before, LastDrain(1), 2)
    ensures Reachable(s) && SleepingSender(s, 2) && !Sound(s, 2)
  {
    LeaverReachable(buf);
    SleeperReachable(buf, x, true, Leaving(0), POKED);
    var q := Pair(buf, true, true, Leaving(0), Asleep(0, More(x)), Slot(true, true, true, 1));
    DrainEmpties(q, buf, true, true);
    before := q.(st := DrainedOff(buf, true, true));
    s := Apply(before, LastDrain(1));
    ReachOn(before, LastDrain(1), s);
  }
}
