/** What every run of the relay's send queue keeps, and the runs in which it
    does less than it promises (server.py:135-189, 917-926). */
module RelayQueueTheorems {
  import opened Wire
  import opened RelayQueue

  // ---- lists of items --------------------------------------------------------------

  lemma {:induction false} FramesAppend(items: seq<Item>, x: Item)
    ensures Frames(items + [x]) == Frames(items) + (if x.F? then [x.frame] else [])
  {
    if items == [] {
      assert items + [x] == [x] && Frames([x][1..]) == [];
    } else {
      assert (items + [x])[0] == items[0] && (items + [x])[1..] == items[1..] + [x];
      FramesAppend(items[1..], x);
    }
  }

  lemma {:induction false} TotalAppend(fs: seq<seq<byte>>, f: seq<byte>)
    ensures Total(fs + [f]) == Total(fs) + |f|
  {
    if fs == [] {
      assert fs + [f] == [f] && Total([f][1..]) == 0;
    } else {
      assert (fs + [f])[0] == fs[0] && (fs + [f])[1..] == fs[1..] + [f];
      TotalAppend(fs[1..], f);
    }
  }

  lemma {:induction false} NoStops(items: seq<Item>)
    requires Stop !in items
    ensures |Frames(items)| == |items|
  {
    if items != [] {
      assert items[0] in items;
      NoStops(items[1..]);
    }
  }

  // ---- the invariants ------------------------------------------------------------------

  /** Every queue object is first-in first-out: what was admitted is what was written, then what waits. */
  ghost predicate Fifo(s: State) {
    forall g | 0 <= g < |s.qs| :: s.qs[g].admitted == s.qs[g].written + Frames(s.qs[g].items)
  }

  /** All but the newest frame waiting stay within the byte bound. */
  predicate Bounded(fs: seq<seq<byte>>) {
    fs != [] ==> Total(fs[..|fs| - 1]) <= MAXBYTES
  }

  /** The counters are the queue's frames and bytes together with the stale
      frames, and the queue is bounded. */
  predicate Counted(s: State) {
    s.live ==>
      && s.qs != []
      && s.cnt == |Frames(Newest(s).items)| + |s.stale| <= MAXFRAMES
      && s.byts == Total(Frames(Newest(s).items)) + Total(s.stale)
      && Bounded(Frames(Newest(s).items))
      // teardown's stop mark goes in once
      && |Newest(s).items| == |Frames(Newest(s).items)| + (if Stop in Newest(s).items then 1 else 0)
      && (Stop in Newest(s).items ==> s.stopping)
  }

  /** No queue object ever holds more than it may. */
  predicate Capped(s: State) {
    forall g | 0 <= g < |s.qs| :: |s.qs[g].items| <= MAXFRAMES
  }

  /** The counters are the registered queue's own frame count and byte sum. */
  predicate Exact(s: State) {
    s.live ==> s.qs != [] && s.cnt == |Frames(Newest(s).items)| && s.byts == Total(Frames(Newest(s).items))
  }

  predicate SleepersOk(s: State) {
    (forall id | id in s.sleepers :: s.sleepers[id].gen < |s.qs|) && (s.live ==> s.qs != [])
  }

  lemma PutKeepsCounted(s: State, frame: seq<byte>)
    requires s.live && Counted(s) && s.cnt < MAXFRAMES && s.byts <= MAXBYTES
    ensures var s' := s.(qs := s.qs[Gen(s) := Put(Newest(s), frame)], cnt := s.cnt + 1, byts := s.byts + |frame|);
            Counted(s')
  {
    var items := Newest(s).items;
    FramesAppend(items, F(frame));
    TotalAppend(Frames(items), frame);
    assert (Frames(items) + [frame])[..|Frames(items)|] == Frames(items);
    assert Stop in items + [F(frame)] <==> Stop in items;
  }

  lemma DrainKeepsCounted(s: State)
    requires Enabled(s, DrainOne) && Counted(s)
    ensures Counted(Drained(s))
  {
    var items := Newest(s).items;
    if items[0].F? {
      var fs := Frames(items);
      assert fs == [items[0].frame] + Frames(items[1..]);
      assert fs[1..] == Frames(items[1..]);
      if fs[1..] != [] {
        assert fs[..|fs| - 1][0] == fs[0] && fs[..|fs| - 1][1..] == fs[1..][..|fs[1..]| - 1];
      }
      assert items == [items[0]] + items[1..];
      assert Stop in items <==> Stop in items[1..];
    }
  }

  lemma RetireKeepsCounted(s: State)
    requires Enabled(s, Retire) && Counted(s)
    ensures Counted(Retired(s))
  {
    if s.live && |Newest(s).items| < MAXFRAMES {
      FramesAppend(Newest(s).items, Stop);
      assert Frames(Newest(s).items) + [] == Frames(Newest(s).items);
    }
  }

  /** A put in an older queue object is counted all the same. */
  lemma StalePutKeepsCounted(s: State, gen: nat, frame: seq<byte>)
    requires s.live && Counted(s) && gen < Gen(s) && s.cnt < MAXFRAMES
    ensures Counted(s.(qs := s.qs[gen := Put(s.qs[gen], frame)], cnt := s.cnt + 1, byts := s.byts + |frame|, stale := s.stale + [frame]))
  {
    TotalAppend(s.stale, frame);
  }

  lemma SettleKeepsCounted(s: State, id: nat, gen: nat, frame: seq<byte>, droppable: bool)
    requires s.live && gen < |s.qs| && Counted(s)
    ensures Counted(Settle(s, id, gen, frame, droppable))
  {
    if Decide(s, gen, frame, droppable).Admitted? {
      if gen == Gen(s) {
        PutKeepsCounted(s, frame);
      } else {
        StalePutKeepsCounted(s, gen, frame);
      }
    }
  }

  lemma StepKeepsCounted(s: State, a: Action)
    requires Enabled(s, a) && Counted(s)
    ensures Counted(Apply(s, a))
  {
    match a {
      case RSend(id, frame, droppable) => SettleKeepsCounted(Ensure(s), id, |Ensure(s).qs| - 1, frame, droppable);
      case Resume(id) =>
        if s.live {
          SettleKeepsCounted(s.(sleepers := s.sleepers - {id}), id, s.sleepers[id].gen, s.sleepers[id].frame, false);
        }
      case DrainOne => DrainKeepsCounted(s);
      case DrainEnd =>
      case Retire => RetireKeepsCounted(s);
    }
  }

  lemma StepKeepsCapped(s: State, a: Action)
    requires Enabled(s, a) && Capped(s)
    ensures Capped(Apply(s, a))
  {
    match a {
      case RSend(_, _, _) =>
      case Resume(_) =>
      case DrainOne =>
      case DrainEnd =>
      case Retire =>
    }
  }

  lemma BytesWithoutNewest(s: State)
    requires Counted(s) && s.live && Frames(Newest(s).items) != []
    ensures var fs := Frames(Newest(s).items); Total(fs) <= MAXBYTES + |fs[|fs| - 1]|
  {
    var fs := Frames(Newest(s).items);
    assert fs == fs[..|fs| - 1] + [fs[|fs| - 1]];
    TotalAppend(fs[..|fs| - 1], fs[|fs| - 1]);
  }

  /** In every run the counters are the registered queue's frames and bytes
      together with the frames that went to an older queue object, so they are
      exact if and only if there are none of those; the queue never holds more
      than 1024 frames, and never more than 4 MiB besides its newest frame. */
  lemma {:induction false} CountersInEveryRun(states: seq<State>, acts: seq<Action>, i: nat)
    requires Run(states, acts) && i < |states|
    ensures Counted(states[i]) && Capped(states[i])
    ensures states[i].live ==> (Exact(states[i]) <==> states[i].stale == [])
    ensures var s := states[i];
            s.live && Frames(Newest(s).items) != [] ==>
              var fs := Frames(Newest(s).items);
              |fs| <= MAXFRAMES && Total(fs) <= MAXBYTES + |fs[|fs| - 1]|
  {
    if i > 0 {
      CountersInEveryRun(states, acts, i - 1);
      StepKeepsCounted(states[i - 1], acts[i - 1]);
      StepKeepsCapped(states[i - 1], acts[i - 1]);
    }
    if states[i].live && Frames(Newest(states[i]).items) != [] {
      BytesWithoutNewest(states[i]);
    }
  }

  lemma SettleKeepsFifo(s: State, id: nat, gen: nat, frame: seq<byte>, droppable: bool)
    requires gen < |s.qs| && Fifo(s)
    ensures Fifo(Settle(s, id, gen, frame, droppable))
  {
    var q := s.qs[gen];
    FramesAppend(q.items, F(frame));
    assert q.written + (Frames(q.items) + [frame]) == (q.written + Frames(q.items)) + [frame];
  }

  lemma StepKeepsFifo(s: State, a: Action)
    requires Enabled(s, a) && Fifo(s) && SleepersOk(s)
    ensures Fifo(Apply(s, a)) && SleepersOk(Apply(s, a))
  {
    match a {
      case RSend(id, frame, droppable) =>
        var s' := Ensure(s);
        assert Fifo(s');
        SettleKeepsFifo(s', id, |s'.qs| - 1, frame, droppable);
      case Resume(id) =>
        if s.live {
          SettleKeepsFifo(s.(sleepers := s.sleepers - {id}), id, s.sleepers[id].gen, s.sleepers[id].frame, false);
        }
      case DrainOne => DrainKeepsFifo(s);
      case DrainEnd =>
      case Retire => RetireKeepsFifo(s);
    }
  }

  lemma DrainKeepsFifo(s: State)
    requires Enabled(s, DrainOne) && Fifo(s) && SleepersOk(s)
    ensures Fifo(Apply(s, DrainOne)) && SleepersOk(Apply(s, DrainOne))
  {
    var q := Newest(s);
    if q.items[0].F? {
      assert q.written + ([q.items[0].frame] + Frames(q.items[1..])) == (q.written + [q.items[0].frame]) + Frames(q.items[1..]);
    }
  }

  lemma RetireKeepsFifo(s: State)
    requires Enabled(s, Retire) && Fifo(s) && SleepersOk(s)
    ensures Fifo(Apply(s, Retire)) && SleepersOk(Apply(s, Retire))
  {
    if s.live {
      FramesAppend(Newest(s).items, Stop);
      assert Frames(Newest(s).items) + [] == Frames(Newest(s).items);
    }
  }

  /** Order is first-in first-out in every run, stale sleepers included. */
  lemma {:induction false} FifoInEveryRun(states: seq<State>, acts: seq<Action>, i: nat)
    requires Run(states, acts) && i < |states|
    ensures Fifo(states[i]) && SleepersOk(states[i])
  {
    if i > 0 {
      FifoInEveryRun(states, acts, i - 1);
      StepKeepsFifo(states[i - 1], acts[i - 1]);
    }
  }

  /** A droppable frame is admitted only if everything waiting, it included, stays within 64 KiB. */
  lemma DroppableWithinBound(states: seq<State>, acts: seq<Action>, i: nat)
    requires Run(states, acts) && i < |acts| && acts[i].RSend? && acts[i].droppable
    requires Decide(Ensure(states[i]), |Ensure(states[i]).qs| - 1, acts[i].frame, true).Admitted?
    ensures states[i + 1].live && states[i + 1].qs != []
    ensures Total(Frames(Newest(states[i + 1]).items)) <= DROP_BYTES
  {
    CountersInEveryRun(states, acts, i);
    CountersInEveryRun(states, acts, i + 1);
  }

  // ---- the blocking put -------------------------------------------------------------------

  /** The state in which the tests are made: a first r_send creates the queue. */
  function Tested(s: State, a: Action): State
    requires Enabled(s, a) && (a.RSend? || a.Resume?)
  {
    if a.RSend? then Ensure(s) else s.(sleepers := s.sleepers - {a.id})
  }

  /** The queue object the coroutine holds. */
  function Held(s: State, a: Action): (g: nat)
    requires Enabled(s, a) && (a.RSend? || a.Resume?)
    ensures g < |Tested(s, a).qs|
  {
    if a.RSend? then |Ensure(s).qs| - 1 else s.sleepers[a.id].gen
  }

  /** What a pass of r_send meets. */
  function FateOf(s: State, a: Action): Fate
    requires Enabled(s, a) && (a.RSend? || a.Resume?)
  {
    if a.RSend? then Decide(Ensure(s), Held(s, a), a.frame, a.droppable)
    else Decide(s, Held(s, a), s.sleepers[a.id].frame, false)
  }

  /** The registered counters let a frame through. */
  predicate ShowRoom(s: State) {
    s.cnt < MAXFRAMES && s.byts <= MAXBYTES
  }

  /** In every run, a first pass or a waking sleeper reaches the blocking q.put
      exactly when the counters show room, and either the queue it holds is the
      registered one with teardown's uncounted stop mark in its last place, or
      it is an older queue object and full. */
  lemma BlockingPutIff(states: seq<State>, acts: seq<Action>, i: nat, a: Action)
    requires Run(states, acts) && i < |states| && Enabled(states[i], a)
    requires (a.RSend? && !a.droppable) || (a.Resume? && states[i].live)
    ensures var s, g := Tested(states[i], a), Held(states[i], a);
            FateOf(states[i], a).Blocks? <==>
              && ShowRoom(s)
              && if g == Gen(s) then Stop in s.qs[g].items && |Frames(s.qs[g].items)| == MAXFRAMES - 1 == s.cnt
                 else |s.qs[g].items| == MAXFRAMES
  {
    CountersInEveryRun(states, acts, i);
  }

  /** A droppable frame never blocks. */
  lemma DroppableNeverBlocks(s: State, a: Action)
    requires Enabled(s, a) && a.RSend? && a.droppable
    ensures !FateOf(s, a).Blocks?
  {
  }

  /** A waking sleeper whose frame is admitted keeps the counters exact if and
      only if the queue it holds is the registered one. */
  lemma StaleSleeperBreaksIff(states: seq<State>, acts: seq<Action>, i: nat, id: nat)
    requires Run(states, acts) && i < |states| && Enabled(states[i], Resume(id)) && states[i].live && Exact(states[i])
    requires FateOf(states[i], Resume(id)).Admitted?
    ensures Exact(Apply(states[i], Resume(id))) <==> states[i].sleepers[id].gen == Gen(states[i])
  {
    CountersInEveryRun(states, acts, i);
    var s := states[i];
    var s1 := s.(sleepers := s.sleepers - {id});
    var x := s.sleepers[id];
    if x.gen == Gen(s) {
      PutKeepsCounted(s1, x.frame);
    } else {
      StalePutKeepsCounted(s1, x.gen, x.frame);
    }
  }

  // ---- such states are reached -------------------------------------------------------------

  ghost predicate Reachable(s: State) {
    exists states, acts :: Run(states, acts) && states[|acts|] == s
  }

  lemma ReachOn(s: State, a: Action)
    requires Reachable(s) && Enabled(s, a)
    ensures Reachable(Apply(s, a))
  {
    var states, acts :| Run(states, acts) && states[|acts|] == s;
    RunOn(states, acts, a, Apply(s, a));
  }

  lemma RunOn(states: seq<State>, acts: seq<Action>, a: Action, s': State)
    requires Run(states, acts) && Enabled(states[|acts|], a) && s' == Apply(states[|acts|], a)
    ensures Run(states + [s'], acts + [a]) && (states + [s'])[|acts + [a]|] == s'
  {
    var ss, aa := states + [s'], acts + [a];
    forall k | 0 <= k < |aa| ensures Enabled(ss[k], aa[k]) && ss[k + 1] == Apply(ss[k], aa[k]) {
      if k < |acts| { assert ss[k] == states[k] && ss[k + 1] == states[k + 1] && aa[k] == acts[k]; }
    }
  }

  /** n sends of one small frame wait in a fresh queue. */
  function Full(n: nat, f: seq<byte>): State {
    START.(qs := [Waiting(n, f)], live := true, cnt := n, byts := n * |f|)
  }

  function Waiting(n: nat, f: seq<byte>): Q {
    Q(seq(n, _ => F(f)), seq(n, _ => f), [])
  }

  lemma {:induction false} FullReachable(n: nat, f: seq<byte>)
    requires 0 < n <= MAXFRAMES && 0 < |f| <= 4096
    ensures Reachable(Full(n, f))
  {
    if n == 1 {
      var none: seq<Action> := [];
      assert Run([START], none) && [START][|none|] == START;
      ReachOn(START, RSend(0, f, false));
      assert Put(Q([], [], []), f) == Waiting(1, f);
      assert Apply(START, RSend(0, f, false)) == Full(1, f);
    } else {
      FullReachable(n - 1, f);
      ReachOn(Full(n - 1, f), RSend(0, f, false));
      OneMoreSend(n - 1, f);
    }
  }

  lemma {:induction false} MulBound(n: nat, m: nat)
    requires m <= 4096
    ensures 0 <= n * m <= n * 4096
  {
    if n > 0 {
      MulBound(n - 1, m);
      assert n * m == (n - 1) * m + m;
    }
  }

  lemma Small(n: nat, f: seq<byte>)
    requires n <= MAXFRAMES && |f| <= 4096
    ensures 0 <= n * |f| <= MAXBYTES && (n + 1) * |f| == n * |f| + |f|
  {
    MulBound(n, |f|);
  }

  lemma OneMoreSend(n: nat, f: seq<byte>)
    requires 0 < n < MAXFRAMES && 0 < |f| <= 4096
    ensures Apply(Full(n, f), RSend(0, f, false)) == Full(n + 1, f)
  {
    Small(n, f);
    OneMoreFrame(Full(n, f), f, Waiting(n, f), Waiting(n + 1, f));
  }

  lemma OneMoreFrame(s: State, f: seq<byte>, q: Q, q': Q)
    requires s.live && s.qs == [q] && s.cnt < MAXFRAMES && s.byts <= MAXBYTES && |q.items| < MAXFRAMES && f != []
    requires q' == Q(q.items + [F(f)], q.admitted + [f], q.written) && 0 !in s.sleepers && 0 !in s.blocked
    ensures Apply(s, RSend(0, f, false)) == s.(qs := [q'], cnt := s.cnt + 1, byts := s.byts + |f|)
  {
    assert Put(q, f) == q' && [q][0 := q'] == [q'];
  }

  /** First way to block: 1023 frames wait, teardown adds its mark, and one more
      r_send comes before the drain task has ended. */
  lemma StopMarkBlocks(f: seq<byte>) returns (s: State)
    requires 0 < |f| <= 4096
    ensures Reachable(s) && Enabled(s, RSend(0, f, false)) && FateOf(s, RSend(0, f, false)).Blocks?
    ensures Held(s, RSend(0, f, false)) == Gen(s)
  {
    var n := MAXFRAMES - 1;
    FullReachable(n, f);
    ReachOn(Full(n, f), Retire);
    s := Apply(Full(n, f), Retire);
    Small(n, f);
  }

  /** A sleeper behind a full queue, `gone` of whose frames were written before
      the drain task failed; another r_send then made a fresh queue. */
  function Outlived(gone: nat, f: seq<byte>): State
    requires gone <= 1
  {
    var dead := Waiting(MAXFRAMES, f);
    State([if gone == 0 then dead else Q(dead.items[1..], dead.admitted, [f]), Waiting(1, f)],
          true, 1, |f|, [], false, map[1 := Sleeper(0, f)], {})
  }

  lemma SleeperOutlives(gone: nat, f: seq<byte>)
    requires gone <= 1 && 0 < |f| <= 4096
    ensures Reachable(Outlived(gone, f))
  {
    var dead := Waiting(MAXFRAMES, f);
    FullReachable(MAXFRAMES, f);
    ReachOn(Full(MAXFRAMES, f), RSend(1, f, false));
    var s := Full(MAXFRAMES, f).(sleepers := map[1 := Sleeper(0, f)]);
    assert Apply(Full(MAXFRAMES, f), RSend(1, f, false)) == s;
    if gone == 1 {
      ReachOn(s, DrainOne);
      assert Newest(s).written + [f] == [f];
      s := Apply(s, DrainOne);
    }
    AfterDrainEnds(s, f, if gone == 0 then dead else Q(dead.items[1..], dead.admitted, [f]));
  }

  lemma AfterDrainEnds(s: State, f: seq<byte>, dead: Q)
    requires Reachable(s) && s.live && f != [] && |f| <= 4096 && !s.stopping && s.blocked == {}
    requires s.qs == [dead] && s.sleepers == map[1 := Sleeper(0, f)]
    ensures Reachable(State([dead, Waiting(1, f)], true, 1, |f|, [], false, s.sleepers, {}))
  {
    ReachOn(s, DrainEnd);
    var d := s.(live := false);
    ReachOn(d, RSend(2, f, false));
    var e := Ensure(d);
    assert e.qs == [dead, Q([], [], [])];
    assert Put(Q([], [], []), f) == Waiting(1, f);
    assert e.qs[1 := Waiting(1, f)] == [dead, Waiting(1, f)];
  }

  /** Second way to block, without any teardown: the sleeper wakes to fresh
      counters and puts into the dead queue, which is still full. */
  lemma DeadQueueBlocks(f: seq<byte>)
    requires 0 < |f| <= 4096
    ensures Reachable(Outlived(0, f)) && FateOf(Outlived(0, f), Resume(1)).Blocks?
    ensures Held(Outlived(0, f), Resume(1)) != Gen(Outlived(0, f)) && !Outlived(0, f).stopping
  {
    SleeperOutlives(0, f);
  }

  /** With one place free in the dead queue the frame goes there instead, and is
      counted for the fresh one. */
  lemma StaleSleeperReachable(f: seq<byte>)
    requires 0 < |f| <= 4096
    ensures Reachable(Outlived(1, f)) && Exact(Outlived(1, f))
    ensures FateOf(Outlived(1, f), Resume(1)).Admitted?
    ensures Reachable(Apply(Outlived(1, f), Resume(1))) && !Exact(Apply(Outlived(1, f), Resume(1)))
  {
    SleeperOutlives(1, f);
    ReachOn(Outlived(1, f), Resume(1));
    OneFrame(f);
  }

  lemma OneFrame(f: seq<byte>)
    ensures Frames(Waiting(1, f).items) == [f] && Total([f]) == |f|
  {
    assert Waiting(1, f).items == [F(f)] && [F(f)][1..] == [];
    assert Frames([F(f)]) == [f] + Frames([]);
    assert [f][1..] == [];
  }
}
