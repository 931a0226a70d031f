/** What each step of the relay's send queue does to the frame it is about
    (server.py:135-189, 917-926). */
module RelayQueueOutcomes {
  import opened Wire
  import opened RelayQueue
  import opened RelayQueueTheorems

  /** The queue a new send finds: the registered one, or a new empty one. */
  function Found(s: State): seq<Item>
    requires s.live ==> s.qs != []
  {
    if s.live then Newest(s).items else []
  }

  function FoundCount(s: State): int {
    if s.live then s.cnt else 0
  }

  function FoundBytes(s: State): int {
    if s.live then s.byts else 0
  }

  /** The registered queue and its counters, and nothing else about older queues. */
  predicate Registered(s: State, s': State, items: seq<Item>, cnt: int, byts: int) {
    && s'.live && s'.qs != [] && |s'.qs| == |s.qs| + (if s.live then 0 else 1)
    && Newest(s').items == items && s'.cnt == cnt && s'.byts == byts
    && forall g | 0 <= g < |s'.qs| - 1 :: s'.qs[g] == s.qs[g]
  }

  /** A frame that may be dropped joins the end of the queue and is counted exactly when
      fewer than 1024 frames wait, the bytes waiting and its own stay within 64 KiB, and
      the queue has a place; otherwise it is gone. It never makes its sender wait. */
  lemma DroppableOutcome(s: State, id: nat, frame: seq<byte>)
    requires Enabled(s, RSend(id, frame, true))
    ensures var s' := Apply(s, RSend(id, frame, true));
            var joins := FoundCount(s) < 1024 && FoundBytes(s) + |frame| <= 65536 && |Found(s)| < 1024;
            && (if joins then Registered(s, s', Found(s) + [F(frame)], FoundCount(s) + 1, FoundBytes(s) + |frame|)
                else Registered(s, s', Found(s), FoundCount(s), FoundBytes(s)))
            && s'.sleepers == s.sleepers && s'.blocked == s.blocked
  {
  }

  /** Any other frame is never dropped. While 1024 frames or more than 4 MiB wait, its sender
      sleeps with it and with the queue it found; else it joins the queue and is counted if
      the queue has a place; else its sender blocks on the queue. */
  lemma LastingOutcome(s: State, id: nat, frame: seq<byte>)
    requires Enabled(s, RSend(id, frame, false))
    ensures var s' := Apply(s, RSend(id, frame, false));
            var sleeps := FoundCount(s) >= 1024 || FoundBytes(s) > 4194304;
            var joins := !sleeps && |Found(s)| < 1024;
            && (if joins then Registered(s, s', Found(s) + [F(frame)], FoundCount(s) + 1, FoundBytes(s) + |frame|)
                else Registered(s, s', Found(s), FoundCount(s), FoundBytes(s)))
            && s'.sleepers == (if sleeps then s.sleepers[id := Sleeper(|s'.qs| - 1, frame)] else s.sleepers)
            && s'.blocked == (if sleeps || joins then s.blocked else s.blocked + {id})
  {
  }

  /** A sleeper that wakes makes the same tests, against the registered counters and the
      queue it found when it came; when the queue was taken away meanwhile its frame is lost. */
  lemma WakeOutcome(s: State, id: nat)
    requires Enabled(s, Resume(id))
    ensures var s', x := Apply(s, Resume(id)), s.sleepers[id];
            var sleeps := s.cnt >= 1024 || s.byts > 4194304;
            if !s.live then s' == s.(sleepers := s.sleepers - {id})
            else if sleeps then s' == s.(sleepers := (s.sleepers - {id})[id := x])
            else if |s.qs[x.gen].items| < 1024 then
              && |s'.qs| == |s.qs| && (forall g | 0 <= g < |s.qs| && g != x.gen :: s'.qs[g] == s.qs[g])
              && s'.qs[x.gen].items == s.qs[x.gen].items + [F(x.frame)]
              && s'.cnt == s.cnt + 1 && s'.byts == s.byts + |x.frame| && s'.sleepers == s.sleepers - {id} && s'.blocked == s.blocked
            else s' == s.(sleepers := s.sleepers - {id}, blocked := s.blocked + {id})
  {
  }

  /** The drain task writes the oldest frame and counts it off; at the stop mark it ends,
      and the queue with its counters is taken away. */
  lemma DrainOutcome(s: State)
    requires Enabled(s, DrainOne)
    ensures var s', q := Apply(s, DrainOne), Newest(s);
            if q.items[0].F? then
              && s'.live && |s'.qs| == |s.qs| && Newest(s').items == q.items[1..] && Newest(s').written == q.written + [q.items[0].frame]
              && s'.cnt == s.cnt - 1 && s'.byts == s.byts - |q.items[0].frame|
            else s' == s.(live := false)
  {
  }

  /** Teardown puts one stop mark behind what waits, if there is a place, and stops the
      drain task; the frames stay counted. */
  lemma TeardownOutcome(s: State)
    requires Enabled(s, Retire) && s.live
    ensures var s' := Apply(s, Retire);
            && s'.stopping && s'.live && s'.cnt == s.cnt && s'.byts == s.byts && s'.qs != []
            && Newest(s').items == if |Newest(s).items| < 1024 then Newest(s).items + [Stop] else Newest(s).items
  {
  }

  /** In every run, with nobody's frame in an older queue: a frame that may be dropped is
      queued exactly when fewer than 1024 frames wait and they and it stay within 64 KiB,
      unless teardown has filled the last place. */
  lemma DroppableJoinsIff(states: seq<State>, acts: seq<Action>, i: nat)
    requires Run(states, acts) && i < |acts| && acts[i].RSend? && acts[i].droppable
    requires states[i].live && states[i].stale == [] && Stop !in Newest(states[i]).items
    ensures var q, q', f := Newest(states[i]), states[i + 1].qs, acts[i].frame;
            && q' != []
            && q'[|q'| - 1].items == if |Frames(q.items)| < 1024 && Total(Frames(q.items)) + |f| <= 65536 then q.items + [F(f)] else q.items
  {
    CountersInEveryRun(states, acts, i);
    DroppableOutcome(states[i], acts[i].id, acts[i].frame);
    NoStops(Newest(states[i]).items);
  }
}
