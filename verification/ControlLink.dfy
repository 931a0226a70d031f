/** The hook's outbound control queue across link deaths and redials
    (hook/hk_ports.c:208-246, hook/hk_stream.c:1451-1480, 1575-1604), and what
    the relay's reader makes of each link (common.py:416-428). */
module ControlLink {
  import opened Wire
  import opened Deframe

  const CTLQ_DROP := 65536
  const DT_BCAST: byte := 3
  const DT_UDP_TUN: byte := 6

  function Size(f: Frame): nat {
    5 + |f.payload|
  }

  function Sizes(fs: seq<Frame>): nat {
    if fs == [] then 0 else Size(fs[0]) + Sizes(fs[1..])
  }

  lemma {:induction false} SizesAppend(fs: seq<Frame>, gs: seq<Frame>)
    ensures Sizes(fs + gs) == Sizes(fs) + Sizes(gs)
  {
    if fs == [] {
      assert fs + gs == gs;
    } else {
      assert (fs + gs)[0] == fs[0] && (fs + gs)[1..] == fs[1..] + gs;
      SizesAppend(fs[1..], gs);
    }
  }

  /** Datagram-like frames: refused when too much already waits. */
  predicate Droppable(f: Frame) {
    f.kind == DT_UDP_TUN || f.kind == DT_BCAST
  }

  /** One frame on its way out: off bytes of it were sent. */
  datatype Outgoing = Nobody | Going(f: Frame, off: nat)

  /** What happened on one link: the frames sent whole, the frame it died in
      the middle of (with the bytes that got out), and the bytes it carried. */
  datatype Log = Log(sent: seq<Frame>, torn: Outgoing, wire: seq<byte>)

  datatype Ctl = Ctl(
    queue: seq<Frame>,
    cur: Outgoing,
    bytes: nat,          // g_sq_bytes
    up: bool,
    links: seq<Log>,     // every link so far; the last one is current while up
    enq: seq<Frame>)     // every frame ever accepted

  datatype Action =
    | Enqueue(f: Frame)  // dt_tcp_queue
    | Dial               // the link comes up
    | Take               // the control thread takes the head of the queue
    | Push(k: nat)       // send() accepted k more bytes of the current frame
    | Die                // redial

  predicate Admitted(c: Ctl, f: Frame) {
    !(Droppable(f) && c.bytes + Size(f) > CTLQ_DROP)
  }

  predicate Enabled(c: Ctl, a: Action) {
    match a
    case Enqueue(f) => Sendable(f)
    case Dial => !c.up
    case Take => c.up && c.cur.Nobody? && c.queue != []
    case Push(k) => c.up && c.links != [] && c.cur.Going? && Sendable(c.cur.f) && 0 < k && c.cur.off + k <= Size(c.cur.f)
    case Die => c.up && c.links != [] && (c.cur.Going? ==> Size(c.cur.f) <= c.bytes)
  }

  function Last(c: Ctl): Log
    requires c.links != []
  {
    c.links[|c.links| - 1]
  }

  function WithLast(c: Ctl, l: Log): seq<Log>
    requires c.links != []
  {
    c.links[..|c.links| - 1] + [l]
  }

  function Pushed(c: Ctl, k: nat): Ctl
    requires Enabled(c, Push(k))
  {
    var f, off, l := c.cur.f, c.cur.off, Last(c);
    var wire := l.wire + Encode(f)[off..off + k];
    if off + k < Size(f) then
      c.(cur := Going(f, off + k), links := WithLast(c, l.(wire := wire)))
    else
      c.(cur := Nobody, links := WithLast(c, l.(wire := wire, sent := l.sent + [f])),
         bytes := if Size(f) <= c.bytes then c.bytes - Size(f) else 0)
  }

  function Died(c: Ctl): Ctl
    requires Enabled(c, Die)
  {
    match c.cur
    case Nobody => c.(up := false)
    case Going(f, 0) => c.(up := false, cur := Nobody, queue := [f] + c.queue)
    case Going(f, off) =>
      c.(up := false, cur := Nobody, bytes := c.bytes - Size(f), links := WithLast(c, Last(c).(torn := c.cur)))
  }

  function Apply(c: Ctl, a: Action): Ctl
    requires Enabled(c, a)
  {
    match a
    case Enqueue(f) =>
      if Admitted(c, f) then c.(queue := c.queue + [f], bytes := c.bytes + Size(f), enq := c.enq + [f]) else c
    case Dial => c.(up := true, links := c.links + [Log([], Nobody, [])])
    case Take => c.(cur := Going(c.queue[0], 0), queue := c.queue[1..])
    case Push(k) => Pushed(c, k)
    case Die => Died(c)
  }

  const START := Ctl([], Nobody, 0, false, [], [])

  ghost predicate Run(states: seq<Ctl>, acts: seq<Action>) {
    && |states| == |acts| + 1 && states[0] == START
    && forall i | 0 <= i < |acts| :: Enabled(states[i], acts[i]) && states[i + 1] == Apply(states[i], acts[i])
  }

  // ---- the invariant -----------------------------------------------------------

  function AsList(o: Outgoing): seq<Frame> {
    if o.Going? then [o.f] else []
  }

  predicate GoingOk(o: Outgoing) {
    o.Going? ==> Sendable(o.f) && o.off < Size(o.f)
  }

  function Part(o: Outgoing): seq<byte>
    requires GoingOk(o)
  {
    if o.Going? then Encode(o.f)[..o.off] else []
  }

  /** A link carried its whole frames and then `part`. */
  predicate LogOk(l: Log, part: seq<byte>) {
    && (forall f <- l.sent :: Sendable(f))
    && l.wire == EncodeAll(l.sent) + part
  }

  /** All frames that left on some link, in link order. */
  function Departed(links: seq<Log>): seq<Frame> {
    if links == [] then []
    else Departed(links[..|links| - 1]) + links[|links| - 1].sent + AsList(links[|links| - 1].torn)
  }

  predicate OldLinkOk(l: Log) {
    GoingOk(l.torn) && LogOk(l, Part(l.torn))
  }

  predicate LinksOk(c: Ctl) {
    && (forall i | 0 <= i < |c.links| - (if c.up then 1 else 0) :: OldLinkOk(c.links[i]))
    && (c.up ==> c.links != [] && GoingOk(c.cur) && Last(c).torn.Nobody? && LogOk(Last(c), Part(c.cur)))
  }

  predicate Inv(c: Ctl) {
    && LinksOk(c)
    && (!c.up ==> c.cur.Nobody?)
    && (forall f <- c.queue :: Sendable(f))
    && c.bytes == Sizes(AsList(c.cur)) + Sizes(c.queue)
    && c.enq == Departed(c.links) + AsList(c.cur) + c.queue
  }

  lemma DepartedLast(c: Ctl, l: Log)
    requires c.links != []
    ensures Departed(WithLast(c, l)) == Departed(c.links[..|c.links| - 1]) + l.sent + AsList(l.torn)
  {
    var ls := WithLast(c, l);
    assert ls[..|ls| - 1] == c.links[..|c.links| - 1];
  }

  lemma EnqueueKeeps(c: Ctl, f: Frame)
    requires Sendable(f) && Inv(c)
    ensures Inv(Apply(c, Enqueue(f)))
  {
    SizesAppend(c.queue, [f]);
    assert Sizes([f]) == Size(f) + Sizes([]);
    assert (Departed(c.links) + AsList(c.cur) + c.queue) + [f] == Departed(c.links) + AsList(c.cur) + (c.queue + [f]);
  }

  lemma DialKeeps(c: Ctl)
    requires Enabled(c, Dial) && Inv(c)
    ensures Inv(Apply(c, Dial))
  {
    var c' := Apply(c, Dial);
    assert c'.links[..|c'.links| - 1] == c.links;
    assert Departed(c'.links) == Departed(c.links) + [] + [];
    assert Last(c') == Log([], Nobody, []);
  }

  lemma TakeKeeps(c: Ctl)
    requires Enabled(c, Take) && Inv(c)
    ensures Inv(Apply(c, Take))
  {
    var f := c.queue[0];
    assert f in c.queue;
    assert c.queue == [f] + c.queue[1..];
    assert Sizes([f]) == Size(f) + Sizes([]);
    assert Encode(f)[..0] == [];
    assert Departed(c.links) + [] + c.queue == Departed(c.links) + [f] + c.queue[1..];
  }

  lemma PushKeepsWire(c: Ctl, k: nat)
    requires Enabled(c, Push(k)) && Inv(c)
    ensures LinksOk(Pushed(c, k))
  {
    var f, off, l := c.cur.f, c.cur.off, Last(c);
    var c' := Pushed(c, k);
    var e := Encode(f);
    var wire := l.wire + e[off..off + k];
    assert c'.links == c.links[|c.links| - 1 := Last(c')];
    WireGrows(l.sent, l.wire, f, off, k);
    assert wire + [] == wire;
  }

  lemma PartGrows(e: seq<byte>, off: nat, k: nat)
    requires off + k <= |e|
    ensures e[..off] + e[off..off + k] == e[..off + k] && (off + k == |e| ==> e[..off + k] == e)
  {
  }

  /** A link's bytes after k more of a frame's. */
  lemma WireGrows(sent: seq<Frame>, wire: seq<byte>, f: Frame, off: nat, k: nat)
    requires Sendable(f) && off + k <= Size(f) && (forall x <- sent :: Sendable(x)) && wire == EncodeAll(sent) + Encode(f)[..off]
    ensures wire + Encode(f)[off..off + k] == EncodeAll(sent) + Encode(f)[..off + k]
    ensures forall x <- sent + [f] :: Sendable(x)
    ensures off + k == Size(f) ==> wire + Encode(f)[off..off + k] == EncodeAll(sent + [f])
  {
    var e, all := Encode(f), EncodeAll(sent);
    PartGrows(e, off, k);
    assert (all + e[..off]) + e[off..off + k] == all + (e[..off] + e[off..off + k]);
    EncodeOneMore(sent, f);
  }

  lemma EncodeOneMore(sent: seq<Frame>, f: Frame)
    requires Sendable(f) && forall x <- sent :: Sendable(x)
    ensures forall x <- sent + [f] :: Sendable(x)
    ensures EncodeAll(sent + [f]) == EncodeAll(sent) + Encode(f)
  {
    EncodeAllAppend(sent, [f]);
    assert EncodeAll([f]) == Encode(f) + EncodeAll([]);
  }

  lemma PushKeeps(c: Ctl, k: nat)
    requires Enabled(c, Push(k)) && Inv(c)
    ensures Inv(Pushed(c, k))
  {
    PushKeepsWire(c, k);
    PushKeepsOrder(c, k);
    assert Sizes([c.cur.f]) == Size(c.cur.f) + Sizes([]);
  }

  lemma PushKeepsOrder(c: Ctl, k: nat)
    requires Enabled(c, Push(k)) && c.enq == Departed(c.links) + AsList(c.cur) + c.queue && Last(c).torn.Nobody?
    ensures var c' := Pushed(c, k); c'.enq == Departed(c'.links) + AsList(c'.cur) + c'.queue
  {
    var l' := Last(Pushed(c, k));
    SameOrder(c, l', Pushed(c, k).cur, c.queue);
  }

  /** The order of all frames is kept when the last link's log, the frame in
      progress and the queue are the same frames in the same order. */
  lemma SameOrder(c: Ctl, l': Log, cur': Outgoing, queue': seq<Frame>)
    requires c.links != [] && c.enq == Departed(c.links) + AsList(c.cur) + c.queue
    requires var l := Last(c);
             l'.sent + AsList(l'.torn) + AsList(cur') + queue' == l.sent + AsList(l.torn) + AsList(c.cur) + c.queue
    ensures c.enq == Departed(WithLast(c, l')) + AsList(cur') + queue'
  {
    var l := Last(c);
    assert c.links == WithLast(c, l);
    DepartedLast(c, l);
    DepartedLast(c, l');
    var d := Departed(c.links[..|c.links| - 1]);
    Regroup(d, l'.sent, AsList(l'.torn), AsList(cur'), queue');
    Regroup(d, l.sent, AsList(l.torn), AsList(c.cur), c.queue);
  }

  lemma Regroup(d: seq<Frame>, a: seq<Frame>, b: seq<Frame>, x: seq<Frame>, q: seq<Frame>)
    ensures d + a + b + x + q == d + (a + b + x + q)
  {
  }

  lemma DieKeepsOrder(c: Ctl)
    requires Enabled(c, Die) && c.enq == Departed(c.links) + AsList(c.cur) + c.queue && Last(c).torn.Nobody?
    ensures var c' := Died(c); c'.enq == Departed(c'.links) + AsList(c'.cur) + c'.queue
  {
    if c.cur.Going? {
      var c' := Died(c);
      assert c.links == WithLast(c, Last(c));
      SameOrder(c, if c.cur.off == 0 then Last(c) else Last(c'), Nobody, c'.queue);
    }
  }

  lemma DieIdleKeeps(c: Ctl)
    requires Enabled(c, Die) && Inv(c) && c.cur.Nobody?
    ensures Inv(Died(c))
  {
    assert Part(c.cur) == Part(Last(c).torn);
  }

  lemma DieUntouchedKeeps(c: Ctl)
    requires Enabled(c, Die) && Inv(c) && c.cur.Going? && c.cur.off == 0
    ensures LinksOk(Died(c)) && Died(c).bytes == Sizes(Died(c).queue) && forall f <- Died(c).queue :: Sendable(f)
  {
    assert Encode(c.cur.f)[..0] == [];
    assert Sizes([c.cur.f]) == Size(c.cur.f) + Sizes([]);
    assert ([c.cur.f] + c.queue)[1..] == c.queue;
  }

  lemma DieTornKeeps(c: Ctl)
    requires Enabled(c, Die) && Inv(c) && c.cur.Going? && c.cur.off != 0
    ensures LinksOk(Died(c)) && Died(c).bytes == Sizes(Died(c).queue) && forall f <- Died(c).queue :: Sendable(f)
  {
    assert Sizes([c.cur.f]) == Size(c.cur.f) + Sizes([]);
    assert Died(c).links == c.links[|c.links| - 1 := Last(Died(c))];
  }

  lemma Rebuilt(c: Ctl)
    requires LinksOk(c) && !c.up && c.cur.Nobody? && c.bytes == Sizes(c.queue) && (forall f <- c.queue :: Sendable(f))
    requires c.enq == Departed(c.links) + AsList(c.cur) + c.queue
    ensures Inv(c)
  {
  }

  lemma DieKeeps(c: Ctl)
    requires Enabled(c, Die) && Inv(c)
    ensures Inv(Died(c))
  {
    if c.cur.Nobody? {
      DieIdleKeeps(c);
    } else {
      DieKeepsOrder(c);
      if c.cur.off == 0 { DieUntouchedKeeps(c); } else { DieTornKeeps(c); }
      Rebuilt(Died(c));
    }
  }

  lemma StepKeeps(c: Ctl, a: Action)
    requires Enabled(c, a) && Inv(c)
    ensures Inv(Apply(c, a))
  {
    match a {
      case Enqueue(f) => EnqueueKeeps(c, f);
      case Dial => DialKeeps(c);
      case Take => TakeKeeps(c);
      case Push(k) => PushKeeps(c, k);
      case Die => DieKeeps(c);
    }
  }

  /** Across any sequence of enqueues, sends, link deaths and redials:
      accepted frames leave in order and at most once, the byte counter is the
      frames queued and in progress, and each link carries whole frames
      followed by at most one truncated frame. */
  lemma {:induction false} OrderInEveryRun(states: seq<Ctl>, acts: seq<Action>, i: nat)
    requires Run(states, acts) && i < |states|
    ensures Inv(states[i])
  {
    if i > 0 {
      OrderInEveryRun(states, acts, i - 1);
      StepKeeps(states[i - 1], acts[i - 1]);
    }
  }

  /** What the relay reads from one link is exactly the frames sent whole on it. */
  lemma RelayReadsSent(states: seq<Ctl>, acts: seq<Action>, i: nat, link: nat)
    requires Run(states, acts) && i < |states| && link < |states[i].links|
    ensures Parse(states[i].links[link].wire).frames == states[i].links[link].sent
    ensures Parse(states[i].links[link].wire).tail.Rest?
  {
    OrderInEveryRun(states, acts, i);
    var c := states[i];
    var l := c.links[link];
    var o := if c.up && link == |c.links| - 1 then c.cur else l.torn;
    if o.Going? {
      PrefixIsIncomplete(o.f, o.off);
    }
    ParseOfEncodeAll(l.sent, Part(o));
  }

  /** Frames the relay gets over all links, plus the ones a link died inside,
      plus what is still waiting, are everything accepted, in order; a link
      loses at most the one frame it died in the middle of. */
  lemma OnlyTornFramesAreLost(states: seq<Ctl>, acts: seq<Action>, i: nat)
    requires Run(states, acts) && i < |states|
    ensures var c := states[i];
            && c.enq == Departed(c.links) + AsList(c.cur) + c.queue
            && (forall l | 0 <= l < |c.links| :: c.links[l].torn.Going? ==> 0 <= c.links[l].torn.off < Size(c.links[l].torn.f))
            && c.bytes == Sizes(AsList(c.cur) + c.queue)
  {
    OrderInEveryRun(states, acts, i);
    KeptOrder(states[i]);
  }

  lemma KeptOrder(c: Ctl)
    requires Inv(c)
    ensures c.enq == Departed(c.links) + AsList(c.cur) + c.queue && c.bytes == Sizes(AsList(c.cur) + c.queue)
    ensures forall l | 0 <= l < |c.links| :: GoingOk(c.links[l].torn)
  {
    SizesAppend(AsList(c.cur), c.queue);
    forall l | 0 <= l < |c.links| ensures GoingOk(c.links[l].torn) {
      assert l < |c.links| - (if c.up then 1 else 0) ==> OldLinkOk(c.links[l]);
    }
  }

  // ---- which frames are accepted -------------------------------------------------

  /** A frame whose kind is neither 6 nor 3 always joins the end of the queue; one of
      those joins it exactly when the bytes waiting and its own stay within 65536. */
  lemma EnqueueOutcome(c: Ctl, f: Frame)
    requires Sendable(f) && Inv(c)
    ensures var c' := Apply(c, Enqueue(f));
            && (f.kind != 6 && f.kind != 3 ==> c'.queue == c.queue + [f])
            && (f.kind == 6 || f.kind == 3 ==>
                  c'.queue == if Sizes(AsList(c.cur) + c.queue) + 5 + |f.payload| <= 65536 then c.queue + [f] else c.queue)
            && c'.cur == c.cur && c'.links == c.links && c'.up == c.up
  {
    KeptOrder(c);
  }

  /** The frames handed to dt_tcp_queue, in order. */
  function Offered(acts: seq<Action>): seq<Frame> {
    if acts == [] then []
    else
      var a := acts[|acts| - 1];
      Offered(acts[..|acts| - 1]) + if a.Enqueue? then [a.f] else []
  }

  /** Those of the frames that may never be dropped. */
  function Lasting(fs: seq<Frame>): seq<Frame> {
    if fs == [] then []
    else
      var f := fs[|fs| - 1];
      Lasting(fs[..|fs| - 1]) + if f.kind != 6 && f.kind != 3 then [f] else []
  }

  lemma LastingSnoc(fs: seq<Frame>, f: Frame)
    ensures Lasting(fs + [f]) == Lasting(fs) + if f.kind != 6 && f.kind != 3 then [f] else []
  {
    assert (fs + [f])[..|fs|] == fs;
  }

  lemma Accepts(c: Ctl, a: Action)
    requires Enabled(c, a)
    ensures Apply(c, a).enq == if a.Enqueue? && Admitted(c, a.f) then c.enq + [a.f] else c.enq
  {
  }

  /** Only an enqueue accepts anything. */
  lemma AcceptsStep(c: Ctl, a: Action)
    requires Enabled(c, a)
    ensures Lasting(Apply(c, a).enq) == Lasting(c.enq) + if a.Enqueue? then Lasting([a.f]) else []
  {
    Accepts(c, a);
    assert Lasting(c.enq) + [] == Lasting(c.enq);
    if a.Enqueue? {
      LastingSnoc(c.enq, a.f);
      LastingSnoc([], a.f);
      assert [] + [a.f] == [a.f];
    }
  }

  lemma OffersStep(acts: seq<Action>, i: nat)
    requires 0 < i <= |acts|
    ensures Lasting(Offered(acts[..i])) == Lasting(Offered(acts[..i - 1])) + if acts[i - 1].Enqueue? then Lasting([acts[i - 1].f]) else []
  {
    assert acts[..i][..i - 1] == acts[..i - 1];
    assert Offered(acts[..i - 1]) + [] == Offered(acts[..i - 1]);
    if acts[i - 1].Enqueue? {
      LastingSnoc(Offered(acts[..i - 1]), acts[i - 1].f);
      LastingSnoc([], acts[i - 1].f);
      assert [] + [acts[i - 1].f] == [acts[i - 1].f];
    }
  }

  lemma {:induction false} LastingAccepted(states: seq<Ctl>, acts: seq<Action>, i: nat)
    requires Run(states, acts) && i < |states|
    ensures Lasting(states[i].enq) == Lasting(Offered(acts[..i]))
  {
    if i > 0 {
      LastingAccepted(states, acts, i - 1);
      AcceptsStep(states[i - 1], acts[i - 1]);
      OffersStep(acts, i);
    }
  }

  /** In every run, every frame offered that may not be dropped has left on some link,
      is in progress or waits, in the order offered and each exactly once. */
  lemma NothingLastingIsDropped(states: seq<Ctl>, acts: seq<Action>, i: nat)
    requires Run(states, acts) && i < |states|
    ensures var c := states[i]; Lasting(Departed(c.links) + AsList(c.cur) + c.queue) == Lasting(Offered(acts[..i]))
  {
    OrderInEveryRun(states, acts, i);
    LastingAccepted(states, acts, i);
  }

  // ---- the code's own state ------------------------------------------------------

  /** The state after a list of takes and pushes, if every one of them was enabled. */
  ghost function Flushed(c: Ctl, acts: seq<Action>): Option<Ctl> {
    if acts == [] then Some(c)
    else
      var n := |acts| - 1;
      var m := Flushed(c, acts[..n]);
      if m.Some? && (acts[n].Take? || acts[n].Push?) && Enabled(m.value, acts[n])
      then Some(Apply(m.value, acts[n])) else None
  }

  lemma FlushedMore(c: Ctl, acts: seq<Action>, m: Ctl, a: Action)
    requires Flushed(c, acts) == Some(m) && (a.Take? || a.Push?) && Enabled(m, a)
    ensures Flushed(c, acts + [a]) == Some(Apply(m, a))
  {
    assert (acts + [a])[..|acts|] == acts;
  }

  /** How many sends a flush made. */
  function Sends(acts: seq<Action>): nat {
    if acts == [] then 0 else Sends(acts[..|acts| - 1]) + if acts[|acts| - 1].Push? then 1 else 0
  }

  /** The i-th send took all that its socket had room for, up to the end of its frame. */
  ghost predicate TookAll(c: Ctl, acts: seq<Action>, room: seq<nat>) {
    forall j | 0 <= j < |acts| && acts[j].Push? ::
      var m, i := Flushed(c, acts[..j]), Sends(acts[..j]);
      && m.Some? && m.value.cur.Going? && i < |room|
      && var left := Size(m.value.cur.f) - m.value.cur.off;
         acts[j].k == if room[i] < left then room[i] else left
  }

  lemma TookAllSnoc(c: Ctl, acts: seq<Action>, room: seq<nat>, a: Action)
    requires TookAll(c, acts, room)
    requires a.Push? ==>
               && Flushed(c, acts).Some? && Flushed(c, acts).value.cur.Going? && Sends(acts) < |room|
               && var left := Size(Flushed(c, acts).value.cur.f) - Flushed(c, acts).value.cur.off;
                  a.k == if room[Sends(acts)] < left then room[Sends(acts)] else left
    ensures TookAll(c, acts + [a], room) && Sends(acts + [a]) == Sends(acts) + if a.Push? then 1 else 0
  {
    var more := acts + [a];
    assert more[..|acts|] == acts;
    forall j | 0 <= j < |acts| ensures more[..j] == acts[..j] {
    }
  }

  /** g_sqh, g_sq_bytes and the control thread's cur/cur_off, updated in place. */
  class Sender {
    var sq: seq<Frame>
    var sqBytes: nat
    var cur: Option<Frame>
    var curOff: nat
    ghost var c: Ctl

    ghost predicate Valid()
      reads this
    {
      && Inv(c) && sq == c.queue && sqBytes == c.bytes
      && (if cur.Some? then c.cur == Going(cur.value, curOff) else c.cur == Nobody)
    }

    constructor ()
      ensures Valid() && c == START
    {
      sq, sqBytes, cur, curOff, c := [], 0, None, 0, START;
    }

    /** dt_tcp_queue. Game datagrams (6) and beacons (3) are dropped while too much waits. */
    method Queue(kind: byte, payload: seq<byte>)
      requires Valid() && Sendable(Frame(kind, payload))
      modifies this
      ensures Valid() && c == Apply(old(c), Enqueue(Frame(kind, payload)))
      ensures sq == if (kind == 6 || kind == 3) && old(sqBytes) + 5 + |payload| > 65536 then old(sq)
                    else old(sq) + [Frame(kind, payload)]
      ensures cur == old(cur) && curOff == old(curOff)
    {
      var f := Frame(kind, payload);
      EnqueueKeeps(c, f);
      c := Apply(c, Enqueue(f));
      var droppable := kind == DT_UDP_TUN || kind == DT_BCAST;
      if droppable && sqBytes + 5 + |payload| > CTLQ_DROP {
        return;
      }
      sq := sq + [f];
      sqBytes := sqBytes + 5 + |payload|;
    }

    method Connected()
      requires Valid() && !c.up
      modifies this`c
      ensures Valid() && c == Apply(old(c), Dial)
    {
      DialKeeps(c);
      c := Apply(c, Dial);
    }

    /** Take the head of the queue as the frame being sent. */
    method TakeHead()
      requires Valid() && c.up && cur.None? && sq != []
      modifies this
      ensures Valid() && Enabled(old(c), Take) && c == Apply(old(c), Take) && cur.Some?
    {
      TakeKeeps(c);
      c := Apply(c, Take);
      cur, curOff, sq := Some(sq[0]), 0, sq[1..];
    }

    /** send() took k bytes of the current frame. */
    method SentSome(k: nat)
      requires Valid() && cur.Some? && Enabled(c, Push(k))
      modifies this
      ensures Valid() && c == Apply(old(c), Push(k))
    {
      PushKeeps(c, k);
      c := Pushed(c, k);
      curOff := curOff + k;
      if curOff == Size(cur.value) {
        sqBytes := sqBytes - Size(cur.value);
        cur := None;
      }
    }

    /** The flush loop. room[i] is what the i-th send() accepts: bytes taken, 0
        when it would block, and none left when the link is dead (the caller redials).
        Every send takes all it can, and the loop ends only with nothing to send, at a
        send that would block, or with the link dead. */
    method Flush(room: seq<nat>) returns (dead: bool, ghost acts: seq<Action>)
      requires Valid() && c.up
      modifies this
      ensures Valid() && c.up && Flushed(old(c), acts) == Some(c)
      ensures TookAll(old(c), acts, room) && Sends(acts) <= |room|
      ensures dead ==> Sends(acts) == |room|
      ensures !dead ==> (c.cur.Nobody? && c.queue == []) || (c.cur.Going? && Sends(acts) < |room| && room[Sends(acts)] == 0)
    {
      dead, acts := false, [];
      var i := 0;
      while !(cur.None? && sq == [])
        invariant Valid() && c.up && i <= |room| && !dead
        invariant Flushed(old(c), acts) == Some(c) && TookAll(old(c), acts, room) && Sends(acts) == i
        decreases |room| - i, if cur.None? then 1 else 0
      {
        if cur.None? {
          FlushedMore(old(c), acts, c, Take);
          TookAllSnoc(old(c), acts, room, Take);
          TakeHead();
          acts := acts + [Take];
        } else {
          if i == |room| {
            dead := true;
            return;
          }
          var left := Size(cur.value) - curOff;
          var k := if room[i] < left then room[i] else left;
          if k == 0 {
            return;
          }
          i := i + 1;
          FlushedMore(old(c), acts, c, Push(k));
          TookAllSnoc(old(c), acts, room, Push(k));
          SentSome(k);
          acts := acts + [Push(k)];
        }
      }
    }

    /** The redial label: an untouched frame goes back first, a half-sent one died with its link. */
    method Redial()
      requires Valid() && c.up
      modifies this
      ensures Valid() && c == Died(old(c))
    {
      DieKeeps(c);
      c := Died(c);
      if cur.Some? {
        if curOff == 0 {
          sq := [cur.value] + sq;
        } else {
          sqBytes := sqBytes - Size(cur.value);
        }
        cur := None;
      }
    }
  }

  /** A whole run of the control thread: each link comes up, takes what its socket
      lets it, and dies. What was accepted is what left on some link and what
      still waits, in order, and the counter is what waits. */
  method LinkLives(s: Sender, rooms: seq<seq<nat>>)
    requires s.Valid() && !s.c.up
    modifies s
    ensures s.Valid() && !s.c.up && s.c.enq == old(s.c.enq) && |s.c.links| == old(|s.c.links|) + |rooms|
    ensures s.c.enq == Departed(s.c.links) + s.sq && s.sqBytes == Sizes(s.sq)
  {
    var i := 0;
    while i < |rooms|
      invariant 0 <= i <= |rooms| && s.Valid() && !s.c.up
      invariant s.c.enq == old(s.c.enq) && |s.c.links| == old(|s.c.links|) + i
    {
      OneLife(s, rooms[i]);
      i := i + 1;
    }
  }

  method OneLife(s: Sender, room: seq<nat>)
    requires s.Valid() && !s.c.up
    modifies s
    ensures s.Valid() && !s.c.up && s.c.enq == old(s.c.enq) && |s.c.links| == old(|s.c.links|) + 1
  {
    s.Connected();
    ghost var c0 := s.c;
    ghost var acts;
    var dead;
    dead, acts := s.Flush(room);
    FlushKeeps(c0, acts, s.c);
    s.Redial();
  }

  /** Flushing neither accepts frames nor opens links. */
  lemma {:induction false} FlushKeeps(c: Ctl, acts: seq<Action>, c': Ctl)
    requires Flushed(c, acts) == Some(c')
    ensures c'.enq == c.enq && |c'.links| == |c.links|
  {
    if acts != [] {
      FlushKeeps(c, acts[..|acts| - 1], Flushed(c, acts[..|acts| - 1]).value);
    }
  }
}
