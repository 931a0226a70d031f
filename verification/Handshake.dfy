/** The relay's stream handshake (server.py:373-719, 899-916): openers, racing
    joiners, the election among unaddressed claims, deadlines and node death.
    A step is the code between two suspension points; a frame of a few bytes
    on a per-stream connection is assumed to be written without suspending. */
module Handshake {
  import opened Wire

  type Conn = nat
  type NodeId = nat // 0: no node
  type Sid = nat

  const NO_ROUTE := 1
  const BAD_ID := 4
  const BUSY := 5
  /** ST_TIMEOUT_S and the shortest wait for a joinee, in milliseconds. */
  const BUDGET := 10000
  const LEAST_WAIT := 1

  /** A verdict frame written to a per-stream connection: STOK or STFAIL. */
  datatype Reply = Ok | Fail(reason: int)
  datatype Sent = Sent(to: Conn, reply: Reply)

  /** Open: no joiner yet. Joined: claimed, not confirmed to the opener; it does
      not outlast a step. Ready: confirmed, waiting for the joinee's answer.
      Stuck: that wait ended in an exception. The code's state field is "open",
      "joined", and "ready" in the other three. */
  datatype Phase = Open | Joined | Ready | Piping | Stuck

  datatype Claim = Claim(conn: Conn, node: NodeId)

  datatype Stream = Stream(
    openerNode: NodeId, opener: Conn,
    dest: NodeId,          // 0 while an unaddressed stream has no winner
    implicit: bool,
    phase: Phase,
    joiner: Option<Conn>,
    created: int,
    deadline: int,
    timer: bool,           // the deadline task is pending
    claims: seq<Claim>,    // gathered in the grace window
    granting: bool,        // st["grant_task"] is set
    claimedAt: int,
    answerDue: int)        // when the wait for the joinee gives up

  /** A grant made, with the scores compared when it was made. */
  datatype Grant = Grant(opener: Conn, joiner: Conn, node: NodeId, asked: NodeId, implicit: bool, score: int, gathered: seq<int>)

  datatype State = State(
    now: int,
    hosts: map<NodeId, seq<int>>, // registered nodes and their links' host-claim stamps
    live: set<NodeId>,            // those with a live link
    streams: map<Sid, Stream>,
    index: set<(NodeId, Sid)>,    // node_streams, as pairs
    grantTasks: multiset<Sid>,    // election tasks not yet fired; they outlive their stream
    openers: set<Conn>, joiners: set<Conn>,
    closed: set<Conn>,
    sent: seq<Sent>,
    grants: seq<Grant>)

  /** How the wait for a granted joinee's answer ends. Stray: an STFAIL that
      names another stream; BadFrame: any frame but STJOINED and STFAIL, after
      which the joinee's connection is closed; either way the code then reads a
      name it never imported. Lost: the connection ends in one of the exceptions
      the code catches there (end of file, a reset, a bad length). Broken: it fails
      with any other OSError, such as an abort or an unreachable host, which escapes. */
  datatype Answer = Bridged | FailOwn | Stray | BadFrame | Lost | Broken

  datatype Action =
    | OpenStream(conn: Conn, node: NodeId, dest: NodeId, sid: Sid, portOk: bool, closing: bool)
    | Join(conn: Conn, node: NodeId, sid: Sid, joinerUp: bool, openerClosing: bool, openerUp: bool)
    | GrantDue(sid: Sid, joinerUp: bool, openerClosing: bool, openerUp: bool)
    | TimerDue(sid: Sid, openerClosing: bool)
    | Answered(sid: Sid, answer: Answer)
    | AnswerTimeout(sid: Sid)
    | PipeEnd(sid: Sid)
    | NodeDark(node: NodeId)
    | Tick(ms: nat)
    | Members(hosts: map<NodeId, seq<int>>, live: set<NodeId>)

  // ---- helpers of the code ---------------------------------------------------------

  function Max(a: int, b: int): int {
    if a >= b then a else b
  }

  function MaxOf(xs: seq<int>): int {
    if xs == [] then 0 else Max(xs[0], MaxOf(xs[1..]))
  }

  /** The freshest host claim of a node's links, 0 without any. */
  function Score(hosts: map<NodeId, seq<int>>, n: NodeId): int {
    if n in hosts then MaxOf(hosts[n]) else 0
  }

  /** The first of the claims with the highest score (a stable descending sort's head). */
  function Winner(cs: seq<Claim>, hosts: map<NodeId, seq<int>>): (w: nat)
    requires cs != []
    ensures w < |cs|
  {
    if |cs| == 1 then 0
    else
      var w := Winner(cs[..|cs| - 1], hosts);
      if Score(hosts, cs[|cs| - 1].node) > Score(hosts, cs[w].node) then |cs| - 1 else w
  }

  function Scores(cs: seq<Claim>, hosts: map<NodeId, seq<int>>): (r: seq<int>)
    ensures |r| == |cs|
    ensures forall i | 0 <= i < |cs| :: r[i] == Score(hosts, cs[i].node)
  {
    seq(|cs|, i requires 0 <= i < |cs| => Score(hosts, cs[i].node))
  }

  function Busies(cs: seq<Claim>): (r: seq<Sent>)
    ensures |r| == |cs|
    ensures forall i | 0 <= i < |cs| :: r[i] == Sent(cs[i].conn, Fail(BUSY))
  {
    seq(|cs|, i requires 0 <= i < |cs| => Sent(cs[i].conn, Fail(BUSY)))
  }

  function Conns(cs: seq<Claim>): set<Conn> {
    set c | c in cs :: c.conn
  }

  function AsSet(j: Option<Conn>): set<Conn> {
    if j.Some? then {j.value} else {}
  }

  // ---- what one step does -----------------------------------------------------------------

  datatype Next = Keep | Becomes(st: Stream) | Gone

  /** The change one step makes: to one stream, to the index under that
      stream's sid, and to the frames, closed connections and grants. */
  datatype Effect = Effect(next: Next, list: set<NodeId>, unlist: set<NodeId>,
                           frames: seq<Sent>, closes: set<Conn>, grant: seq<Grant>,
                           opens: set<Conn>, joins: set<Conn>)

  const NOTHING := Effect(Keep, {}, {}, [], {}, [], {}, {})

  /** _stream_pop of a stream. */
  function Popped(st: Stream): Effect {
    NOTHING.(next := Gone, unlist := {st.openerNode, st.dest}, closes := {st.opener} + AsSet(st.joiner))
  }

  /** _stream_fail: a framed refusal only while the opener still waits for its verdict. */
  function Failed(st: Stream, reason: int, openerClosing: bool): Effect {
    Popped(st).(frames := if !openerClosing && (st.phase == Open || st.phase == Joined) then [Sent(st.opener, Fail(reason))] else [])
  }

  /** _stream_fail_standalone. */
  function Refused(conn: Conn, reason: int, closing: bool): Effect {
    NOTHING.(frames := if closing then [] else [Sent(conn, Fail(reason))], closes := {conn})
  }

  /** One effect after another on the same stream. */
  function Then(e: Effect, f: Effect): Effect {
    Effect(if f.next.Keep? then e.next else f.next, e.list + f.list, e.unlist + f.unlist,
           e.frames + f.frames, e.closes + f.closes, e.grant + f.grant, e.opens + f.opens, e.joins + f.joins)
  }

  /** The stream once its joiner is fixed; the winner of an unaddressed one becomes its destination. */
  function Taken(st: Stream, c: Claim): Stream {
    st.(phase := Joined, joiner := Some(c.conn), dest := if st.dest == 0 then c.node else st.dest)
  }

  /** The claim: the joiner is fixed, listed and told so. */
  function Claimed(s: State, st: Stream, c: Claim, gathered: seq<int>): Effect {
    NOTHING.(next := Becomes(Taken(st, c)), list := if st.dest == 0 then {c.node} else {}, frames := [Sent(c.conn, Ok)],
             grant := [Grant(st.opener, c.conn, c.node, st.dest, st.implicit, Score(s.hosts, c.node), gathered)])
  }

  function Waiting(s: State, st: Stream, c: Claim): Stream {
    Taken(st, c).(phase := Ready, claimedAt := s.now, answerDue := s.now + Max(LEAST_WAIT, st.deadline - s.now))
  }

  /** The opener is told; the wait for the joinee's answer begins. */
  function Confirmed(s: State, st: Stream, c: Claim): Effect {
    NOTHING.(next := Becomes(Waiting(s, st, c)),
             frames := [Sent(st.opener, Ok)])
  }

  /** _grant_claim up to its wait for the joinee. */
  function GrantClaim(s: State, st: Stream, c: Claim, gathered: seq<int>, joinerUp: bool, openerClosing: bool, openerUp: bool): Effect {
    if st.dest != 0 && c.node != st.dest then
      Then(Refused(c.conn, BAD_ID, false), Failed(st, BAD_ID, openerClosing))
    else
      var claim := Claimed(s, st, c, gathered);
      if !joinerUp then Then(claim, Failed(Taken(st, c), NO_ROUTE, openerClosing))
      else if !openerUp then Then(Then(claim, Confirmed(s, st, c)), Failed(Waiting(s, st, c), NO_ROUTE, true))
      else Then(claim, Confirmed(s, st, c))
  }

  function OnOpen(s: State, a: Action): Effect
    requires a.OpenStream?
  {
    var e := OpenVerdict(s, a); e.(opens := {a.conn})
  }

  function OpenVerdict(s: State, a: Action): Effect
    requires a.OpenStream?
  {
    if !a.portOk || a.node !in s.hosts || a.node !in s.live then Refused(a.conn, NO_ROUTE, a.closing)
    else if a.sid in s.streams then Refused(a.conn, BUSY, a.closing)
    else if a.dest != 0 && a.dest !in s.hosts then Refused(a.conn, NO_ROUTE, a.closing)
    else if (a.dest != 0 && a.dest !in s.live) || (a.dest == 0 && s.live <= {a.node}) then Refused(a.conn, NO_ROUTE, a.closing)
    else Admitted(s, a.conn, a.node, a.dest)
  }

  /** The stream an accepted STOPEN creates. */
  function Admitted(s: State, conn: Conn, node: NodeId, dest: NodeId): Effect {
    NOTHING.(next := Becomes(Stream(node, conn, dest, dest == 0, Open, None, s.now, s.now + BUDGET, true, [], false, 0, 0)),
             list := if dest == 0 then {node} else {node, dest})
  }

  function OnJoin(s: State, a: Action): Effect
    requires a.Join?
  {
    var e := JoinVerdict(s, a); e.(joins := {a.conn})
  }

  function JoinVerdict(s: State, a: Action): Effect
    requires a.Join?
  {
    if a.sid !in s.streams then NOTHING.(closes := {a.conn})
    else
      var st := s.streams[a.sid];
      if st.phase != Open then Refused(a.conn, BUSY, false)
      else if st.implicit then
        NOTHING.(next := Becomes(st.(claims := st.claims + [Claim(a.conn, a.node)], granting := true)))
      else GrantClaim(s, st, Claim(a.conn, a.node), [], a.joinerUp, a.openerClosing, a.openerUp)
  }

  /** _implicit_grant after its sleep: the stream is looked up again by sid. */
  function OnGrant(s: State, a: Action): Effect
    requires a.GrantDue?
  {
    if a.sid !in s.streams || s.streams[a.sid].phase != Open then NOTHING
    else
      var st := s.streams[a.sid];
      var idle := st.(claims := [], granting := false);
      if st.claims == [] then NOTHING.(next := Becomes(idle))
      else
        var w := Winner(st.claims, s.hosts);
        var losers := st.claims[..w] + st.claims[w + 1..];
        Then(NOTHING.(next := Becomes(idle), frames := Busies(losers), closes := Conns(losers)),
             GrantClaim(s, idle, st.claims[w], Scores(st.claims, s.hosts), a.joinerUp, a.openerClosing, a.openerUp))
  }

  function OnTimer(s: State, a: Action): Effect
    requires a.TimerDue? && a.sid in s.streams
  {
    var st := s.streams[a.sid];
    if st.phase == Open || st.phase == Joined then Failed(st, NO_ROUTE, a.openerClosing)
    else NOTHING.(next := Becomes(st.(timer := false)))
  }

  function OnAnswer(s: State, a: Action): Effect
    requires a.Answered? && a.sid in s.streams
  {
    var st := s.streams[a.sid];
    match a.answer
    case Bridged => NOTHING.(next := Becomes(st.(phase := Piping, timer := false)))
    case Stray => NOTHING.(next := Becomes(st.(phase := Stuck)))
    case BadFrame => NOTHING.(next := Becomes(st.(phase := Stuck)), closes := AsSet(st.joiner))
    case Broken => NOTHING.(next := Becomes(st.(phase := Stuck)))
    case FailOwn => Failed(st, NO_ROUTE, true)
    case Lost => Failed(st, NO_ROUTE, true)
  }

  /** The streams a node's death ends: those listed under it still in handshake. */
  function Doomed(s: State, n: NodeId): set<Sid> {
    set sid | sid in s.streams && (n, sid) in s.index && s.streams[sid].phase == Open
  }

  predicate Enabled(s: State, a: Action) {
    match a
    case OpenStream(conn, _, _, _, _, _) => conn !in s.openers && conn !in s.joiners
    case Join(conn, _, _, _, _, _) => conn !in s.openers && conn !in s.joiners
    case GrantDue(sid, _, _, _) => sid in s.grantTasks
    case TimerDue(sid, _) => sid in s.streams && s.streams[sid].timer && s.streams[sid].deadline <= s.now
    case Answered(sid, _) => sid in s.streams && s.streams[sid].phase == Ready
    case AnswerTimeout(sid) => sid in s.streams && s.streams[sid].phase == Ready && s.streams[sid].answerDue <= s.now
    case PipeEnd(sid) => sid in s.streams && s.streams[sid].phase == Piping
    case NodeDark(_) => true
    case Tick(_) => true
    case Members(_, _) => true
  }

  /** The stream a step is about. */
  function Subject(a: Action): Sid {
    match a
    case OpenStream(_, _, _, sid, _, _) => sid
    case Join(_, _, sid, _, _, _) => sid
    case GrantDue(sid, _, _, _) => sid
    case TimerDue(sid, _) => sid
    case Answered(sid, _) => sid
    case AnswerTimeout(sid) => sid
    case PipeEnd(sid) => sid
    case _ => 0
  }

  function EffectOf(s: State, a: Action): Effect
    requires Enabled(s, a)
  {
    match a
    case OpenStream(_, _, _, _, _, _) => OnOpen(s, a)
    case Join(_, _, _, _, _, _) => OnJoin(s, a)
    case GrantDue(_, _, _, _) => OnGrant(s, a)
    case TimerDue(_, _) => OnTimer(s, a)
    case Answered(_, _) => OnAnswer(s, a)
    case AnswerTimeout(sid) => Failed(s.streams[sid], NO_ROUTE, true)
    case PipeEnd(sid) => Popped(s.streams[sid])
    case NodeDark(_) => NOTHING
    case Tick(_) => NOTHING
    case Members(_, _) => NOTHING
  }

  function StreamsAfter(streams: map<Sid, Stream>, sid: Sid, n: Next): map<Sid, Stream> {
    match n
    case Keep => streams
    case Becomes(st) => streams[sid := st]
    case Gone => streams - {sid}
  }

  function Pairs(ns: set<NodeId>, sid: Sid): set<(NodeId, Sid)> {
    set n | n in ns :: (n, sid)
  }

  function Perform(s: State, sid: Sid, e: Effect): State {
    s.(streams := StreamsAfter(s.streams, sid, e.next),
       index := s.index + Pairs(e.list, sid) - Pairs(e.unlist, sid),
       openers := s.openers + e.opens, joiners := s.joiners + e.joins,
       sent := s.sent + e.frames, closed := s.closed + e.closes, grants := s.grants + e.grant)
  }

  /** A first claim starts the election task of an unaddressed stream. */
  predicate StartsElection(s: State, sid: Sid) {
    sid in s.streams && s.streams[sid].phase == Open && s.streams[sid].implicit && !s.streams[sid].granting
  }

  /** What a step does that is not about one stream. */
  function Around(s: State, a: Action): State {
    match a
    case Join(_, _, sid, _, _, _) => s.(grantTasks := if StartsElection(s, sid) then s.grantTasks + multiset{sid} else s.grantTasks)
    case GrantDue(sid, _, _, _) => s.(grantTasks := s.grantTasks - multiset{sid})
    case NodeDark(n) => Darken(s, n)
    case Tick(ms) => s.(now := s.now + ms)
    case Members(hosts, live) => s.(hosts := hosts, live := live)
    case OpenStream(_, _, _, _, _, _) => s
    case TimerDue(_, _) => s
    case Answered(_, _) => s
    case AnswerTimeout(_) => s
    case PipeEnd(_) => s
  }

  /** The streams of a set popped together. */
  function PopAll(s: State, dead: set<Sid>): State
    requires dead <= s.streams.Keys
  {
    s.(streams := s.streams - dead,
       index := (set p | p in s.index && !(p.1 in dead && (p.0 == s.streams[p.1].openerNode || p.0 == s.streams[p.1].dest))),
       closed := s.closed + (set sid | sid in dead :: s.streams[sid].opener)
                          + (set sid | sid in dead && s.streams[sid].joiner.Some? :: s.streams[sid].joiner.value))
  }

  function Unlisted(s: State, n: NodeId): State {
    s.(index := (set p | p in s.index && p.0 != n))
  }

  /** The last link of a node is gone: its index entry is dropped and its streams in handshake are popped. */
  function Darken(s: State, n: NodeId): State {
    PopAll(Unlisted(s, n), Doomed(s, n))
  }

  function Apply(s: State, a: Action): State
    requires Enabled(s, a)
  {
    Perform(Around(s, a), Subject(a), EffectOf(s, a))
  }

  const START := State(0, map[], {}, map[], {}, multiset{}, {}, {}, {}, [], [])

  ghost predicate Run(states: seq<State>, acts: seq<Action>) {
    && |states| == |acts| + 1 && states[0] == START
    && forall i | 0 <= i < |acts| :: Enabled(states[i], acts[i]) && states[i + 1] == Apply(states[i], acts[i])
  }
}
