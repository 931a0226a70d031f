/** Who will hear of room: the senders asleep on a full queue, and the two ways one
    is left asleep with nothing to wake it (hook/hk_route.c, hook/hk_stream.c). */
module StreamSenders {
  import opened Wire
  import opened StreamEngine
  import opened StreamTheorems

  /** A sleeping sender will hear of room: a wake byte waits, or the queue is
      non-empty and still marked full, so the pump will signal it. */
  predicate Sound(s: State, t: nat)
    requires t in s.threads && s.threads[t].Asleep? && s.threads[t].slot < |s.slots|
  {
    s.slots[s.threads[t].slot].bytes > 0 || (s.st.wrFull && s.st.outq != [])
  }

  /** The exit drain takes the last byte of a queue marked full. */
  predicate Empties(s: State, a: Action) {
    a == Do(DrainAccount) && s.st.wrFull && s.st.drain.Put? && s.st.drain.put == |s.st.outq|
  }

  predicate SleepingSender(s: State, t: nat) {
    t in s.threads && s.threads[t].Asleep? && s.threads[t].want.Send? && s.threads[t].slot < |s.slots|
  }

  predicate SendersSound(s: State) {
    forall t <- s.threads | SleepingSender(s, t) :: Sound(s, t)
  }

  /** The last drain of thread a.t takes the byte sleeper t would hear of room by. */
  predicate Robs(s: State, a: Action, t: nat)
    requires Enabled(s, a) && SleepingSender(s, t)
  {
    && a.LastDrain? && s.threads[a.t].slot == s.threads[t].slot
    && s.slots[s.threads[t].slot].bytes > 0 && !(s.st.wrFull && s.st.outq != [])
  }

  /** The step leaves sleeping sender t with nobody to tell it of room. */
  predicate StrandsOne(s: State, a: Action, t: nat)
    requires Enabled(s, a) && SleepingSender(s, t)
  {
    (Empties(s, a) && s.slots[s.threads[t].slot].bytes == 0) || Robs(s, a, t)
  }

  predicate Strands(s: State, a: Action)
    requires Enabled(s, a)
  {
    exists t <- s.threads :: SleepingSender(s, t) && StrandsOne(s, a, t)
  }

  lemma DrainKeepsQueue(st: Stream, a: StreamAction)
    requires StreamEnabled(st, a) && (a.DrainClaim? || a.DrainTake? || a.DrainWire? || a.DrainFail? || a.DrainEnd?)
    ensures StreamStep(st, a).wrFull == st.wrFull && StreamStep(st, a).outq == st.outq
  {
  }

  /** Only the two accounts and the two ends of the stream touch the out-queue or its mark. */
  lemma QueueKept(st: Stream, a: StreamAction)
    requires StreamEnabled(st, a) && !a.PumpAccount? && !a.DrainAccount? && !a.Close? && !a.Retire?
    ensures StreamStep(st, a).wrFull == st.wrFull && StreamStep(st, a).outq == st.outq
  {
    if a.DrainClaim? || a.DrainTake? || a.DrainWire? || a.DrainFail? || a.DrainEnd? {
      DrainKeepsQueue(st, a);
    }
  }

  /** A stream step that pokes nobody keeps the full mark, and all but one keep bytes queued. */
  lemma MarkKept(st: Stream, a: StreamAction)
    requires StreamEnabled(st, a) && OutShape(st) && SenderOk(st) && st.outq != [] && !Signals(st, a)
    ensures var st' := StreamStep(st, a);
            st'.wrFull && (st'.outq == [] <==> a.DrainAccount? && st.drain.put == |st.outq|)
  {
    if a.DrainAccount? {
      assert |StreamStep(st, a).outq| == |st.outq| - st.drain.put;
    } else if a.PumpAccount? {
      assert |StreamStep(st, a).outq| == |st.outq| - st.pump.put;
    } else if !a.Retire? {
      QueueKept(st, a);
    }
  }

  /** What a stream step does to one sleeping sender. */
  lemma StreamStepStrandsIff(s: State, a: StreamAction, t: nat)
    requires Enabled(s, Do(a)) && OutShape(s.st) && WakeInv(s) && SleepingSender(s, t) && Sound(s, t)
    ensures !Sound(Apply(s, Do(a)), t) <==> StrandsOne(s, Do(a), t)
  {
    assert ThreadOk(s, s.threads[t]);
    if s.slots[s.threads[t].slot].bytes == 0 && !Signals(s.st, a) {
      MarkKept(s.st, a);
    }
  }

  /** A thread's own step robs a sleeper by its last drain or not at all. */
  lemma ThreadStepStrandsIff(s: State, a: Action, t: nat)
    requires IsThreadAction(a) && Enabled(s, a) && WakeInv(s) && SleepingSender(s, t) && a.t != t && Sound(s, t)
    ensures SleepingSender(Apply(s, a), t)
    ensures !Sound(Apply(s, a), t) <==> StrandsOne(s, a, t)
  {
    if !a.LastDrain? {
      OthersUntouched(s, a, t);
      assert SlotsAfter(s, a)[s.threads[t].slot] == s.slots[s.threads[t].slot];
    }
  }

  /** Any step strands a sleeping sender exactly when it is the exit drain taking the
      last byte of the queue with no wake byte waiting, or a last drain taking that byte. */
  lemma StepStrandsIff(s: State, a: Action, t: nat)
    requires Enabled(s, a) && OutShape(s.st) && WakeInv(s) && SleepingSender(s, t) && Sound(s, t)
    ensures SleepingSender(Apply(s, a), t) && !Sound(Apply(s, a), t) <==> StrandsOne(s, a, t)
  {
    if a.Do? {
      StreamStepStrandsIff(s, a.a, t);
    } else if IsThreadAction(a) && a.t != t {
      ThreadStepStrandsIff(s, a, t);
    }
  }

  /** A sender that falls asleep has just met a full queue. */
  lemma FallsAsleepSound(s: State, a: Action, t: nat)
    requires Enabled(s, a) && WakeInv(s) && !SleepingSender(s, t) && SleepingSender(Apply(s, a), t)
    ensures Sound(Apply(s, a), t)
  {
    assert IsThreadAction(a) && a.t == t;
    assert ThreadOk(s, s.threads[t]);
    assert a.Look?;
    WaitingSenderFacts(s.st, s.threads[t].want);
  }

  lemma StepKeepsSoundIff(s: State, a: Action)
    requires Enabled(s, a) && OutShape(s.st) && WakeInv(s) && SendersSound(s)
    ensures SendersSound(Apply(s, a)) <==> !Strands(s, a)
  {
    var s' := Apply(s, a);
    forall t | SleepingSender(s', t)
      ensures !Sound(s', t) <==> SleepingSender(s, t) && StrandsOne(s, a, t)
    {
      if SleepingSender(s, t) { StepStrandsIff(s, a, t); } else { FallsAsleepSound(s, a, t); }
    }
    if t :| t in s.threads && SleepingSender(s, t) && StrandsOne(s, a, t) {
      StepStrandsIff(s, a, t);
    }
  }

  /** Every waiter is served, sleeping senders included. */
  predicate AllServed(s: State) {
    WakeInv(s) && SendersSound(s)
  }

  predicate ServesAll(s: State, a: Action)
    requires Enabled(s, a)
  {
    Calm(s, a) && !Strands(s, a)
  }

  lemma StepServesIff(s: State, a: Action)
    requires Enabled(s, a) && OutShape(s.st) && AllServed(s)
    ensures AllServed(Apply(s, a)) <==> ServesAll(s, a)
  {
    StepKeepsWakeIff(s, a);
    StepKeepsSoundIff(s, a);
  }

  ghost predicate ServedUpTo(states: seq<State>, n: nat)
    requires n <= |states|
  {
    forall j | 0 <= j < n :: AllServed(states[j])
  }

  ghost predicate Serving(states: seq<State>, acts: seq<Action>, n: nat)
    requires Run(states, acts) && n <= |acts|
  {
    forall k | 0 <= k < n :: ServesAll(states[k], acts[k])
  }

  lemma ServedSnoc(states: seq<State>, n: nat)
    requires n < |states|
    ensures ServedUpTo(states, n + 1) <==> ServedUpTo(states, n) && AllServed(states[n])
  {
  }

  lemma ServingSnoc(states: seq<State>, acts: seq<Action>, n: nat)
    requires Run(states, acts) && n < |acts|
    ensures Serving(states, acts, n + 1) <==> Serving(states, acts, n) && ServesAll(states[n], acts[n])
  {
  }

  lemma RunServesIff(states: seq<State>, acts: seq<Action>, i: nat)
    requires Run(states, acts) && i < |acts| && AllServed(states[i])
    ensures AllServed(states[i + 1]) <==> ServesAll(states[i], acts[i])
  {
    QueuesInEveryRun(states, acts, i);
    StepServesIff(states[i], acts[i]);
  }

  lemma StartServed(s: State)
    requires Initial(s)
    ensures AllServed(s)
  {
  }

  /** In every run, every waiter of every state is served, sleeping senders included,
      if and only if no last drain took a byte its slot's next owner needed and no
      exit drain took the last byte over a sleeping sender without a wake byte. */
  lemma {:induction false} ServedInEveryRun(states: seq<State>, acts: seq<Action>, i: nat)
    requires Run(states, acts) && i < |states|
    ensures ServedUpTo(states, i + 1) <==> Serving(states, acts, i)
  {
    ServedSnoc(states, i);
    if i > 0 {
      ServedInEveryRun(states, acts, i - 1);
      ServingSnoc(states, acts, i - 1);
      if ServedUpTo(states, i) {
        RunServesIff(states, acts, i - 1);
      }
    } else {
      StartServed(states[0]);
    }
  }

  /** The exit drain empties the full queue under a sleeping sender that has no wake byte. */
  predicate DrainStrands(s: State, a: Action) {
    Empties(s, a) && exists t <- s.threads :: SleepingSender(s, t) && s.slots[s.threads[t].slot].bytes == 0
  }

  lemma ApartStrands(s: State, a: Action)
    requires Enabled(s, a) && SlotsApart(s)
    ensures Strands(s, a) <==> DrainStrands(s, a)
  {
    if t :| t in s.threads && SleepingSender(s, t) && StrandsOne(s, a, t) {
      assert !Robs(s, a, t);
    }
    if DrainStrands(s, a) {
      var t :| t in s.threads && SleepingSender(s, t) && s.slots[s.threads[t].slot].bytes == 0;
      assert StrandsOne(s, a, t);
    }
  }

  ghost predicate SoundUpTo(states: seq<State>, n: nat)
    requires n <= |states|
  {
    forall j | 0 <= j < n :: SendersSound(states[j])
  }

  ghost predicate NoneStranded(states: seq<State>, acts: seq<Action>, n: nat)
    requires n <= |acts| && n <= |states|
  {
    forall k | 0 <= k < n :: !DrainStrands(states[k], acts[k])
  }

  lemma OrderlyServesIff(states: seq<State>, acts: seq<Action>, n: nat)
    requires OrderlyRun(states, acts) && n <= |acts|
    ensures Serving(states, acts, n) <==> NoneStranded(states, acts, n)
  {
    forall k | 0 <= k < n ensures ServesAll(states[k], acts[k]) <==> !DrainStrands(states[k], acts[k]) {
      OrderlyIsCalm(states, acts, k + 1);
      OrderlyIsCalm(states, acts, k);
      ApartStrands(states[k], acts[k]);
    }
  }

  lemma OrderlyServedIff(states: seq<State>, acts: seq<Action>, i: nat)
    requires OrderlyRun(states, acts) && i < |states|
    ensures ServedUpTo(states, i + 1) <==> SoundUpTo(states, i + 1)
  {
    OrderlyIsCalm(states, acts, i);
    WakeInEveryRun(states, acts, i);
  }

  /** In every orderly run, every sleeping sender of every state will hear of room if and
      only if no exit drain emptied the full queue under one that had no wake byte. */
  lemma SenderStrandedIff(states: seq<State>, acts: seq<Action>, i: nat)
    requires OrderlyRun(states, acts) && i < |states|
    ensures SoundUpTo(states, i + 1) <==> NoneStranded(states, acts, i)
  {
    ServedInEveryRun(states, acts, i);
    OrderlyServesIff(states, acts, i);
    OrderlyServedIff(states, acts, i);
  }

  /** Step k stranded sender t, which has slept since. */
  ghost predicate StrandedAt(states: seq<State>, acts: seq<Action>, k: nat, i: nat, t: nat)
    requires Run(states, acts) && k < i < |states|
  {
    SleepingSender(states[k], t) && StrandsOne(states[k], acts[k], t) && forall j | k <= j <= i :: SleepingSender(states[j], t)
  }

  lemma UnsoundSleeper(states: seq<State>, acts: seq<Action>, i: nat, t: nat)
    requires CalmRun(states, acts) && i < |states| && SleepingSender(states[i], t)
    ensures !Sound(states[i], t) <==> states[i].st.outq == [] && states[i].slots[states[i].threads[t].slot].bytes == 0
  {
    WakeInEveryRun(states, acts, i);
    assert ThreadOk(states[i], states[i].threads[t]);
  }

  lemma UnsoundBefore(states: seq<State>, acts: seq<Action>, i: nat, t: nat)
    requires CalmRun(states, acts) && i < |acts| && SleepingSender(states[i + 1], t) && !Sound(states[i + 1], t)
    ensures SleepingSender(states[i], t) && (!Sound(states[i], t) || StrandsOne(states[i], acts[i], t))
  {
    WakeInEveryRun(states, acts, i);
    QueuesInEveryRun(states, acts, i);
    if !SleepingSender(states[i], t) {
      FallsAsleepSound(states[i], acts[i], t);
    } else if Sound(states[i], t) {
      StepStrandsIff(states[i], acts[i], t);
    }
  }

  /** A sender that will not hear of room was stranded while it slept, and the queue is empty. */
  lemma {:induction false} StrandedOnce(states: seq<State>, acts: seq<Action>, i: nat, t: nat)
    requires CalmRun(states, acts) && i < |states| && SleepingSender(states[i], t) && !Sound(states[i], t)
    ensures states[i].st.outq == [] && states[i].slots[states[i].threads[t].slot].bytes == 0
    ensures exists k :: 0 <= k < i && StrandedAt(states, acts, k, i, t)
  {
    UnsoundSleeper(states, acts, i, t);
    if i > 0 {
      UnsoundBefore(states, acts, i - 1, t);
      if StrandsOne(states[i - 1], acts[i - 1], t) {
        assert StrandedAt(states, acts, i - 1, i, t);
      } else {
        StrandedOnce(states, acts, i - 1, t);
        var k :| 0 <= k < i - 1 && StrandedAt(states, acts, k, i - 1, t);
        assert StrandedAt(states, acts, k, i, t);
      }
    }
  }

  /** The exit drain strands a sleeper exactly when it takes the last queued
      byte and nothing has woken that sleeper: unlike the pump it never
      signals room. */
  lemma ExitDrainStrandsIff(s: State, t: nat)
    requires Enabled(s, Do(DrainAccount))
    requires t in s.threads && s.threads[t].Asleep? && s.threads[t].slot < |s.slots| && Sound(s, t)
    ensures var s' := Apply(s, Do(DrainAccount));
            !Sound(s', t) <==> s.st.drain.put == |s.st.outq| && s.slots[s.threads[t].slot].bytes == 0
  {
    var s' := Apply(s, Do(DrainAccount));
    assert s'.slots == s.slots && s'.st.outq == s.st.outq[s.st.drain.put..];
  }
}
