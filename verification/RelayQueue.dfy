/** The relay's send queue for one control connection (server.py:135-181), as
    the interleaving of the coroutines that call r_send, the connection's drain
    task, and the connection's teardown (server.py:917-926). A step runs from
    one suspension point to the next. */
module RelayQueue {
  import opened Wire

  const MAXFRAMES := 1024
  const MAXBYTES := 4194304
  const DROP_BYTES := 65536

  /** What the asyncio queue holds: frames, and teardown's uncounted stop mark. */
  datatype Item = F(frame: seq<byte>) | Stop

  /** A coroutine inside r_send's wait loop; it keeps the queue object it looked up on entry. */
  datatype Sleeper = Sleeper(gen: nat, frame: seq<byte>)

  /** Each queue object ever created for this connection has a generation number. */
  datatype Q = Q(items: seq<Item>, admitted: seq<seq<byte>>, written: seq<seq<byte>>)

  datatype State = State(
    qs: seq<Q>,                  // by generation
    live: bool,                  // the newest queue is registered in wq / wq_size
    cnt: int, byts: int,         // wq_size, while registered
    stale: seq<seq<byte>>,       // frames counted there but put in an older queue object
    stopping: bool,              // teardown cancelled the drain task, which has not ended yet
    sleepers: map<nat, Sleeper>,
    blocked: set<nat>)           // coroutines in the blocking q.put fallback

  datatype Action =
    | RSend(id: nat, frame: seq<byte>, droppable: bool)
    | Resume(id: nat)            // a sleeper's 10 ms are over
    | DrainOne                   // the drain task gets one item
    | DrainEnd                   // the drain task fails or is cancelled: the dictionaries are cleared
    | Retire                     // the connection's handler ends

  function Frames(items: seq<Item>): seq<seq<byte>> {
    if items == [] then []
    else if items[0].F? then [items[0].frame] + Frames(items[1..])
    else Frames(items[1..])
  }

  function Total(fs: seq<seq<byte>>): nat {
    if fs == [] then 0 else |fs[0]| + Total(fs[1..])
  }

  function Newest(s: State): Q
    requires s.qs != []
  {
    s.qs[|s.qs| - 1]
  }

  function Gen(s: State): int {
    |s.qs| - 1
  }

  /** What one pass through r_send's tests decides. */
  datatype Fate = Dropped | Sleeps | Admitted | Blocks

  function Decide(s: State, gen: nat, frame: seq<byte>, droppable: bool): Fate
    requires gen < |s.qs|
  {
    if droppable && (s.cnt >= MAXFRAMES || s.byts + |frame| > DROP_BYTES) then Dropped
    else if s.cnt >= MAXFRAMES || s.byts > MAXBYTES then Sleeps
    else if |s.qs[gen].items| < MAXFRAMES then Admitted
    else if droppable then Dropped
    else Blocks
  }

  function Put(q: Q, frame: seq<byte>): Q {
    q.(items := q.items + [F(frame)], admitted := q.admitted + [frame])
  }

  /** Carry out the decision. The counters updated are the registered ones,
      the queue filled is the one the coroutine holds. */
  function Settle(s: State, id: nat, gen: nat, frame: seq<byte>, droppable: bool): State
    requires gen < |s.qs|
  {
    match Decide(s, gen, frame, droppable)
    case Dropped => s
    case Sleeps => s.(sleepers := s.sleepers[id := Sleeper(gen, frame)])
    case Admitted => s.(qs := s.qs[gen := Put(s.qs[gen], frame)], cnt := s.cnt + 1, byts := s.byts + |frame|,
                          stale := if gen == Gen(s) then s.stale else s.stale + [frame])
    case Blocks => s.(blocked := s.blocked + {id})
  }

  /** A queue and its drain task are created on first use. */
  function Ensure(s: State): (r: State)
    ensures r.qs != [] || s.live
  {
    if s.live then s
    else s.(qs := s.qs + [Q([], [], [])], live := true, cnt := 0, byts := 0, stale := [], stopping := false)
  }

  predicate Enabled(s: State, a: Action) {
    match a
    case RSend(id, frame, _) => frame != [] && id !in s.sleepers && id !in s.blocked && (s.live ==> s.qs != [])
    case Resume(id) => id in s.sleepers && s.sleepers[id].gen < |s.qs|
    case DrainOne => s.live && s.qs != [] && !s.stopping && Newest(s).items != []
    case DrainEnd => s.live
    case Retire => s.live ==> s.qs != [] && !s.stopping
  }

  function Drained(s: State): State
    requires s.qs != [] && Newest(s).items != []
  {
    var q := Newest(s);
    match q.items[0]
    case Stop => s.(live := false)
    case F(f) =>
      s.(qs := s.qs[Gen(s) := q.(items := q.items[1..], written := q.written + [f])],
         cnt := s.cnt - 1, byts := s.byts - |f|)
  }

  function Retired(s: State): State
    requires s.live ==> s.qs != []
  {
    if !s.live then s
    else
      var q := Newest(s);
      var q' := if |q.items| < MAXFRAMES then q.(items := q.items + [Stop]) else q;
      s.(qs := s.qs[Gen(s) := q'], stopping := true)
  }

  function Apply(s: State, a: Action): State
    requires Enabled(s, a)
  {
    match a
    case RSend(id, frame, droppable) =>
      var s' := Ensure(s);
      Settle(s', id, |s'.qs| - 1, frame, droppable)
    case Resume(id) =>
      var x := s.sleepers[id];
      var s' := s.(sleepers := s.sleepers - {id});
      if s.live then Settle(s', id, x.gen, x.frame, false)
      else s' // wq_size[key] is gone: the coroutine ends with a KeyError
    case DrainOne => Drained(s)
    case DrainEnd => s.(live := false)
    case Retire => Retired(s)
  }

  const START := State([], false, 0, 0, [], false, map[], {})

  ghost predicate Run(states: seq<State>, acts: seq<Action>) {
    && |states| == |acts| + 1 && states[0] == START
    && forall i | 0 <= i < |acts| :: Enabled(states[i], acts[i]) && states[i + 1] == Apply(states[i], acts[i])
  }

  // ---- the code's own state -----------------------------------------------------------

  /** wq, wq_size and the queue objects of one connection, updated in place. */
  class Writer {
    var queues: seq<seq<Item>> // every queue object, by generation
    var live: bool
    var cnt: int
    var byts: int
    ghost var s: State

    ghost predicate Valid()
      reads this
    {
      && |queues| == |s.qs| && (forall g | 0 <= g < |queues| :: queues[g] == s.qs[g].items)
      && live == s.live && cnt == s.cnt && byts == s.byts
    }

    constructor ()
      ensures Valid() && s == START
    {
      queues, live, cnt, byts, s := [], false, 0, 0, START;
    }

    /** r_send up to its first suspension or return. */
    method RSend(id: nat, frame: seq<byte>, droppable: bool) returns (fate: Fate)
      requires Valid() && Enabled(s, Action.RSend(id, frame, droppable))
      modifies this
      ensures Valid() && s == Apply(old(s), Action.RSend(id, frame, droppable))
      ensures |s.qs| > 0 && fate == Decide(Ensure(old(s)), |s.qs| - 1, frame, droppable)
    {
      ghost var target := Apply(s, Action.RSend(id, frame, droppable));
      if !live {
        queues := queues + [[]];
        cnt, byts, live := 0, 0, true;
      }
      s := Ensure(s);
      if droppable && (cnt >= MAXFRAMES || byts + |frame| > DROP_BYTES) {
        s := target;
        return Dropped;
      }
      fate := PutOrWait(id, |queues| - 1, frame, droppable);
    }

    /** The wait loop's test and the put that follows it. */
    method PutOrWait(id: nat, gen: nat, frame: seq<byte>, droppable: bool) returns (fate: Fate)
      requires Valid() && gen < |queues|
      requires droppable ==> cnt < MAXFRAMES && byts + |frame| <= DROP_BYTES
      modifies this
      ensures Valid() && s == Settle(old(s), id, gen, frame, droppable)
      ensures fate == Decide(old(s), gen, frame, droppable)
    {
      ghost var target := Settle(s, id, gen, frame, droppable);
      if cnt >= MAXFRAMES || byts > MAXBYTES {
        fate := Sleeps;
      } else if |queues[gen]| < MAXFRAMES {
        queues := queues[gen := queues[gen] + [F(frame)]];
        cnt, byts := cnt + 1, byts + |frame|;
        fate := Admitted;
      } else if droppable {
        fate := Dropped;
      } else {
        fate := Blocks;
      }
      s := target;
    }

    /** A sleeper wakes with its own locals: the queue object it looked up on
        entry and its frame. False: the dictionaries are gone (KeyError). */
    method Resume(id: nat, gen: nat, frame: seq<byte>) returns (alive: bool)
      requires Valid() && Enabled(s, Action.Resume(id)) && s.sleepers[id] == Sleeper(gen, frame)
      modifies this
      ensures Valid() && s == Apply(old(s), Action.Resume(id)) && alive == old(live)
    {
      s := s.(sleepers := s.sleepers - {id});
      alive := live;
      if live {
        var fate := PutOrWait(id, gen, frame, false);
      }
    }

    /** One turn of _wq_drain; None: the stop mark. */
    method DrainOne() returns (frame: Option<seq<byte>>)
      requires Valid() && Enabled(s, Action.DrainOne)
      modifies this
      ensures Valid() && s == Drained(old(s))
      ensures frame == if Newest(old(s)).items[0].F? then Some(Newest(old(s)).items[0].frame) else None
    {
      s := Drained(s);
      var g := |queues| - 1;
      match queues[g][0] {
        case Stop =>
          live := false;
          frame := None;
        case F(f) =>
          queues := queues[g := queues[g][1..]];
          cnt, byts := cnt - 1, byts - |f|;
          frame := Some(f);
      }
    }

    /** The handler's teardown: a stop mark if it fits, and the drain task is cancelled. */
    method Retire()
      requires Valid() && Enabled(s, Action.Retire)
      modifies this
      ensures Valid() && s == Retired(old(s))
    {
      s := Retired(s);
      if live {
        var g := |queues| - 1;
        if |queues[g]| < MAXFRAMES {
          queues := queues[g := queues[g] + [Stop]];
        }
      }
    }
  }
}
