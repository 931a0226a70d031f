/** What each step of the handshake does to its stream and to its two connections,
    told by the tables before and after (server.py:413-719). */
module HandshakeOutcomes {
  import opened Wire
  import opened Handshake
  import opened HandshakeTheorems

  /** Every other stream and its index entries are as they were. */
  ghost predicate OthersAlone(s: State, s': State, sid: Sid) {
    && (forall x | x != sid :: x in s'.streams <==> x in s.streams)
    && (forall x | x != sid && x in s.streams :: s'.streams[x] == s.streams[x])
    && (forall n: NodeId, x: Sid | x != sid :: (n, x) in s'.index <==> (n, x) in s.index)
  }

  /** The stream has left every table, and both its ends have been hung up on. */
  ghost predicate Over(s': State, sid: Sid, st: Stream) {
    && sid !in s'.streams && (forall n: NodeId :: (n, sid) !in s'.index)
    && st.opener in s'.closed && (st.joiner.Some? ==> st.joiner.value in s'.closed)
  }

  /** A step about one stream leaves the others alone. */
  lemma Alone(s: State, a: Action)
    requires Enabled(s, a) && !a.NodeDark?
    ensures OthersAlone(s, Apply(s, a), Subject(a))
  {
    SubjectOnly(s, a);
  }

  lemma Unlisted(s: State, sid: Sid)
    requires Inv(s) && sid !in s.streams
    ensures forall n: NodeId :: (n, sid) !in s.index
  {
  }

  lemma Written(s: State, a: Action)
    requires Enabled(s, a) && !a.NodeDark?
    ensures Apply(s, a).sent == s.sent + EffectOf(s, a).frames && Apply(s, a).closed == s.closed + EffectOf(s, a).closes
  {
  }

  /** A stream that is popped is over. */
  lemma PoppedOver(s: State, a: Action)
    requires Inv(s) && Enabled(s, a) && !a.NodeDark? && EffectOf(s, a).next.Gone? && Subject(a) in s.streams
    requires {s.streams[Subject(a)].opener} + AsSet(s.streams[Subject(a)].joiner) <= EffectOf(s, a).closes
    ensures Over(Apply(s, a), Subject(a), s.streams[Subject(a)])
  {
    StepKeeps(s, a);
    SubjectOnly(s, a);
    Written(s, a);
    Unlisted(Apply(s, a), Subject(a));
  }

  /** A node's death pops open streams and touches no other. */
  lemma DarkLeaves(s: State, n: NodeId)
    ensures Apply(s, NodeDark(n)).streams == s.streams - Doomed(s, n)
    ensures forall sid <- Doomed(s, n) :: s.streams[sid].phase == Open
  {
    NothingDone(Darken(s, n), 0);
  }

  // ---- the joinee's answer -----------------------------------------------------------

  /** STJOINED: the stream pipes. It keeps its ends and its index entries, its
      deadline task is cancelled, nobody is told anything or hung up on. */
  lemma BridgedPipes(s: State, sid: Sid)
    requires Inv(s) && Enabled(s, Answered(sid, Bridged))
    ensures var s', st := Apply(s, Answered(sid, Bridged)), s.streams[sid];
            && sid in s'.streams && s'.index == s.index && s'.sent == s.sent && s'.closed == s.closed && OthersAlone(s, s', sid)
            && var p := s'.streams[sid];
               && p.phase == Piping && !p.timer && p.joiner.Some?
               && p.opener == st.opener && p.openerNode == st.openerNode && p.joiner == st.joiner && p.dest == st.dest
  {
    Alone(s, Answered(sid, Bridged));
    assert Pairs({}, sid) == {};
  }

  predicate EndsIt(a: Action, sid: Sid) {
    (a.Answered? && a.sid == sid && (a.answer.FailOwn? || a.answer.Lost?)) || a == AnswerTimeout(sid) || a == PipeEnd(sid)
  }

  /** Its own STFAIL, a lost connection, a wait that gives up, or the end of the
      pipe: the stream is over, and no frame tells the ends why. */
  lemma EndedIsOver(s: State, a: Action, sid: Sid)
    requires Inv(s) && Enabled(s, a) && EndsIt(a, sid)
    ensures var s' := Apply(s, a);
            && Over(s', sid, s.streams[sid]) && s.streams[sid].joiner.Some? && s'.sent == s.sent && OthersAlone(s, s', sid)
  {
    Alone(s, a);
    PoppedOver(s, a);
  }

  /** An answer that escapes leaves the stream listed and open at both ends, but for
      a bad frame, after which the joinee is hung up on. */
  lemma EscapedSticks(s: State, sid: Sid, answer: Answer)
    requires Inv(s) && Enabled(s, Answered(sid, answer)) && Escapes(answer)
    ensures var s', st := Apply(s, Answered(sid, answer)), s.streams[sid];
            && sid in s'.streams && s'.streams[sid] == st.(phase := Stuck) && s'.index == s.index && s'.sent == s.sent
            && st.joiner.Some? && s'.closed == s.closed + (if answer.BadFrame? then {st.joiner.value} else {})
            && OthersAlone(s, s', sid)
  {
    Alone(s, Answered(sid, answer));
    assert Pairs({}, sid) == {};
  }

  // ---- which streams pipe, over whole runs ----------------------------------------------

  /** The joinee's STJOINED came, and the pipe has not ended since. */
  function Pipes(acts: seq<Action>, sid: Sid): bool {
    if acts == [] then false
    else
      var a := acts[|acts| - 1];
      if a == Answered(sid, Bridged) then true else if a == PipeEnd(sid) then false else Pipes(acts[..|acts| - 1], sid)
  }

  lemma PipingEffect(s: State, a: Action, sid: Sid)
    requires Enabled(s, a) && !a.NodeDark? && sid == Subject(a)
    ensures var n := EffectOf(s, a).next;
            && (n.Becomes? ==> (n.st.phase == Piping <==> a == Answered(sid, Bridged) || (sid in s.streams && s.streams[sid].phase == Piping)))
            && (n.Gone? ==> sid in s.streams && (s.streams[sid].phase == Piping ==> a == PipeEnd(sid)))
            && (n.Keep? ==> a != Answered(sid, Bridged) && a != PipeEnd(sid))
            && (a == PipeEnd(sid) ==> n.Gone?)
  {
    match a {
      case OpenStream(_, _, _, _, _, _) =>
      case Join(conn, node, _, up, closing, openerUp) =>
        if sid in s.streams { GrantPhase(s, s.streams[sid], Claim(conn, node), [], up, closing, openerUp); }
      case GrantDue(_, _, _, _) => ElectionPhase(s, a);
      case TimerDue(_, _) =>
      case Answered(_, _) =>
      case AnswerTimeout(_) =>
      case PipeEnd(_) =>
      case NodeDark(_) =>
      case Tick(_) =>
      case Members(_, _) =>
    }
  }

  predicate Piped(s: State, sid: Sid) {
    sid in s.streams && s.streams[sid].phase == Piping
  }

  lemma PipingStep(s: State, a: Action, sid: Sid)
    requires Enabled(s, a)
    ensures Piped(Apply(s, a), sid) <==> a == Answered(sid, Bridged) || (Piped(s, sid) && a != PipeEnd(sid))
  {
    if a.NodeDark? {
      DarkLeaves(s, a.node);
    } else {
      PipingEffect(s, a, Subject(a));
      SubjectOnly(s, a);
    }
  }

  /** In every run, a stream pipes if and only if its joinee's STJOINED came and its
      pipe has not ended since. */
  lemma {:induction false} PipingIff(states: seq<State>, acts: seq<Action>, n: nat, sid: Sid)
    requires Run(states, acts) && n < |states|
    ensures Piped(states[n], sid) <==> Pipes(acts[..n], sid)
  {
    if n > 0 {
      PipingIff(states, acts, n - 1, sid);
      PipingStep(states[n - 1], acts[n - 1], sid);
      assert acts[..n][..n - 1] == acts[..n - 1];
    }
  }

  lemma ReadyEffect(s: State, a: Action, sid: Sid)
    requires Enabled(s, a) && sid == Subject(a) && sid in s.streams && s.streams[sid].phase == Ready && !a.NodeDark?
    ensures var n := EffectOf(s, a).next;
            && (n.Gone? <==> EndsIt(a, sid))
            && (n.Becomes? && !a.Answered? ==> n.st == s.streams[sid].(timer := false))
            && (a.Answered? ==> !n.Keep?)
  {
  }

  /** A granted stream leaves the table before it pipes only by its joinee's own
      refusal, a lost connection or the end of the wait; until an answer comes it waits. */
  lemma ReadyLeavesIff(s: State, a: Action, sid: Sid)
    requires Enabled(s, a) && sid in s.streams && s.streams[sid].phase == Ready
    ensures var s' := Apply(s, a);
            && (sid !in s'.streams <==> EndsIt(a, sid))
            && (sid in s'.streams && !(a.Answered? && a.sid == sid) ==>
                  s'.streams[sid] == s.streams[sid] || s'.streams[sid] == s.streams[sid].(timer := false))
  {
    if a.NodeDark? {
      DarkLeaves(s, a.node);
    } else {
      SubjectOnly(s, a);
      if sid == Subject(a) { ReadyEffect(s, a, sid); }
    }
  }

  // ---- an STOPEN --------------------------------------------------------------------------

  /** The relay can ask somebody. */
  predicate Reaches(s: State, node: NodeId, dest: NodeId) {
    if dest != 0 then dest in s.hosts && dest in s.live else exists n <- s.live :: n != node
  }

  /** The verdict frames of a connection that has just been used for the first time. */
  lemma FreshEntries(s: State, c: Conn, frames: seq<Sent>)
    requires Roles(s) && Fresh(s, c)
    ensures Entries(s.sent + frames, c) == Entries(frames, c)
  {
    EntriesAppend(s.sent, frames, c);
    EntriesNone(s.sent, c);
  }

  predicate OpenKnown(s: State, a: Action)
    requires a.OpenStream?
  {
    a.portOk && a.node in s.hosts && a.node in s.live
  }

  predicate OpenRefused(s: State, a: Action)
    requires a.OpenStream?
  {
    !OpenKnown(s, a) || a.sid in s.streams || !Reaches(s, a.node, a.dest)
  }

  lemma OpenChoice(s: State, a: Action)
    requires a.OpenStream?
    ensures OpenVerdict(s, a)
         == if OpenRefused(s, a) then Refused(a.conn, if OpenKnown(s, a) && a.sid in s.streams then 5 else 1, a.closing)
            else Admitted(s, a.conn, a.node, a.dest)
  {
    assert s.live <= {a.node} <==> forall n <- s.live :: n == a.node;
  }

  /** An STOPEN whose port is not allowed, whose node is unknown or dark, whose sid is
      taken (BUSY), or that nobody can be asked for, is told so and hung up on. */
  lemma OpenRefusedOutcome(s: State, a: Action)
    requires Inv(s) && a.OpenStream? && Enabled(s, a) && OpenRefused(s, a)
    ensures var s' := Apply(s, a);
            && s'.streams == s.streams && s'.index == s.index && s'.closed == s.closed + {a.conn}
            && Entries(s'.sent, a.conn) == (if a.closing then [] else [Fail(if OpenKnown(s, a) && a.sid in s.streams then 5 else 1)])
  {
    OpenChoice(s, a);
    Written(s, a);
    FreshEntries(s, a.conn, EffectOf(s, a).frames);
    assert Pairs({}, a.sid) == {};
    if !a.closing { OneEntry(EffectOf(s, a).frames[0], a.conn); }
  }

  /** Any other is listed under its nodes and waits for a joiner for ten seconds; its
      opener hears nothing yet. */
  lemma OpenAcceptedOutcome(s: State, a: Action)
    requires Inv(s) && a.OpenStream? && Enabled(s, a) && !OpenRefused(s, a)
    ensures var s' := Apply(s, a);
            && s'.sent == s.sent && s'.closed == s.closed && OthersAlone(s, s', a.sid)
            && a.sid in s'.streams && (a.node, a.sid) in s'.index && (a.dest != 0 ==> (a.dest, a.sid) in s'.index)
            && var st := s'.streams[a.sid];
               && st.phase == Open && st.opener == a.conn && st.openerNode == a.node && st.dest == a.dest && (st.implicit <==> a.dest == 0)
               && st.joiner.None? && st.claims == [] && st.timer && st.deadline == s.now + 10000
  {
    OpenChoice(s, a);
    Alone(s, a);
    Written(s, a);
    SubjectOnly(s, a);
    var e := EffectOf(s, a);
    assert (a.node, a.sid) in Pairs(e.list, a.sid);
    assert a.dest != 0 ==> (a.dest, a.sid) in Pairs(e.list, a.sid);
  }

  // ---- an STJOIN --------------------------------------------------------------------------

  /** For a stream nobody knows: the joiner is hung up on without a frame. For one
      that has its joiner: BUSY. Neither touches a stream. */
  lemma LateJoinOutcome(s: State, a: Action)
    requires Inv(s) && a.Join? && Enabled(s, a) && (a.sid in s.streams ==> s.streams[a.sid].phase != Open)
    ensures var s' := Apply(s, a);
            && s'.streams == s.streams && s'.index == s.index && s'.grantTasks == s.grantTasks && s'.closed == s.closed + {a.conn}
            && Entries(s'.sent, a.conn) == (if a.sid in s.streams then [Fail(5)] else [])
            && s'.sent == s.sent + (if a.sid in s.streams then [Sent(a.conn, Fail(5))] else [])
  {
    assert Pairs({}, a.sid) == {};
    FreshEntries(s, a.conn, JoinVerdict(s, a).frames);
    if a.sid in s.streams { OneEntry(Sent(a.conn, Fail(5)), a.conn); }
  }

  /** On an unaddressed stream a claim is gathered after the others and nobody is told
      anything; the first one starts the election task, and only that one. */
  lemma GatherOutcome(s: State, a: Action)
    requires Inv(s) && a.Join? && Enabled(s, a) && a.sid in s.streams && s.streams[a.sid].phase == Open && s.streams[a.sid].dest == 0
    ensures var s', st := Apply(s, a), s.streams[a.sid];
            && s'.sent == s.sent && s'.closed == s.closed && s'.index == s.index && OthersAlone(s, s', a.sid)
            && a.sid in s'.streams && s'.streams[a.sid] == st.(claims := st.claims + [Claim(a.conn, a.node)], granting := true)
            && s'.grantTasks[a.sid] == s.grantTasks[a.sid] + (if st.granting then 0 else 1)
  {
    assert StreamRoles(s.openers, s.joiners, s.streams[a.sid]);
    Alone(s, a);
    assert Pairs({}, a.sid) == {};
  }

  /** What the two ends are told by an answer to a claim on an addressed stream. */
  predicate ToldBy(s: State, s': State, a: Action, joiner: Reply, opener: seq<Reply>)
    requires a.Join? && a.sid in s.streams
  {
    Entries(s'.sent, a.conn) == [joiner] && Entries(s'.sent, s.streams[a.sid].opener) == opener
  }

  lemma TwoFrames(sent: seq<Sent>, c: Conn, joiner: Reply, o: Conn, opener: seq<Reply>, x: Conn)
    requires |opener| <= 1
    ensures Entries(sent + ([Sent(c, joiner)] + Verdict(o, opener)), x)
         == Entries(sent, x) + ((if x == c then [joiner] else []) + (if x == o then opener else []))
  {
    var f, v := [Sent(c, joiner)], Verdict(o, opener);
    EntriesAppend(sent, f + v, x);
    EntriesAppend(f, v, x);
    OneEntry(f[0], x);
    if opener != [] { OneEntry(v[0], x); }
  }

  lemma TwoVerdicts(s: State, a: Action, joiner: Reply, opener: seq<Reply>)
    requires Inv(s) && a.Join? && Enabled(s, a) && a.sid in s.streams && s.streams[a.sid].phase == Open && |opener| <= 1
    requires EffectOf(s, a).frames == [Sent(a.conn, joiner)] + Verdict(s.streams[a.sid].opener, opener)
    ensures ToldBy(s, Apply(s, a), a, joiner, opener)
  {
    var o := s.streams[a.sid].opener;
    assert Apply(s, a).sent == s.sent + EffectOf(s, a).frames;
    OpenerSilent(s, a.sid, a.conn);
    TwoFrames(s.sent, a.conn, joiner, o, opener, a.conn);
    TwoFrames(s.sent, a.conn, joiner, o, opener, o);
  }

  /** Before a grant neither the opener nor a new connection has been told anything. */
  lemma OpenerSilent(s: State, sid: Sid, c: Conn)
    requires Inv(s) && sid in s.streams && s.streams[sid].phase == Open && Fresh(s, c)
    ensures Entries(s.sent, c) == [] && Entries(s.sent, s.streams[sid].opener) == [] && s.streams[sid].opener != c
  {
    EntriesNone(s.sent, c);
    assert StreamRoles(s.openers, s.joiners, s.streams[sid]);
  }

  /** A claim by another node than the one asked for ends the stream: both ends are
      told so and hung up on. */
  lemma WrongNodeOutcome(s: State, a: Action)
    requires Inv(s) && a.Join? && Enabled(s, a) && a.sid in s.streams && s.streams[a.sid].phase == Open
    requires s.streams[a.sid].dest != 0 && a.node != s.streams[a.sid].dest
    ensures var s' := Apply(s, a);
            && Over(s', a.sid, s.streams[a.sid]) && a.conn in s'.closed && OthersAlone(s, s', a.sid) && s'.grants == s.grants
            && ToldBy(s, s', a, Fail(4), if a.openerClosing then [] else [Fail(4)])
  {
    assert StreamRoles(s.openers, s.joiners, s.streams[a.sid]);
    Alone(s, a);
    PoppedOver(s, a);
    TwoVerdicts(s, a, Fail(4), if a.openerClosing then [] else [Fail(4)]);
  }

  /** A claim by the node asked for. With both ends up the stream waits for that
      joiner's answer until its deadline, at least a millisecond, and both are told OK. */
  lemma GrantedOutcome(s: State, a: Action)
    requires Inv(s) && a.Join? && Enabled(s, a) && a.sid in s.streams && s.streams[a.sid].phase == Open
    requires s.streams[a.sid].dest != 0 && a.node == s.streams[a.sid].dest && a.joinerUp && a.openerUp
    ensures var s', st := Apply(s, a), s.streams[a.sid];
            && OthersAlone(s, s', a.sid) && ToldBy(s, s', a, Ok, [Ok]) && s'.closed == s.closed && s'.index == s.index
            && a.sid in s'.streams
            && s'.streams[a.sid] == st.(phase := Ready, joiner := Some(a.conn), claimedAt := s.now,
                                        answerDue := if st.deadline > s.now then st.deadline else s.now + 1)
  {
    assert StreamRoles(s.openers, s.joiners, s.streams[a.sid]);
    Alone(s, a);
    assert Pairs({}, a.sid) == {};
    TwoVerdicts(s, a, Ok, [Ok]);
  }

  /** With the joiner lost the opener is refused; with the opener lost it is not;
      either way the stream is over and the joiner hung up on. */
  lemma LostGrantOutcome(s: State, a: Action)
    requires Inv(s) && a.Join? && Enabled(s, a) && a.sid in s.streams && s.streams[a.sid].phase == Open
    requires s.streams[a.sid].dest != 0 && a.node == s.streams[a.sid].dest && !(a.joinerUp && a.openerUp)
    ensures var s', st := Apply(s, a), s.streams[a.sid];
            && OthersAlone(s, s', a.sid) && Over(s', a.sid, st) && a.conn in s'.closed
            && ToldBy(s, s', a, Ok, if a.joinerUp then [Ok] else if a.openerClosing then [] else [Fail(1)])
  {
    assert StreamRoles(s.openers, s.joiners, s.streams[a.sid]);
    Alone(s, a);
    Written(s, a);
    TwoVerdicts(s, a, Ok, if a.joinerUp then [Ok] else if a.openerClosing then [] else [Fail(1)]);
    PoppedOver(s, a);
  }

  // ---- the deadline ---------------------------------------------------------------------------

  /** At its deadline a stream without a confirmed joiner is refused and over; any
      other is left as it is, its task done. */
  lemma DeadlineOutcome(s: State, a: Action)
    requires Inv(s) && a.TimerDue? && Enabled(s, a)
    ensures var s', st := Apply(s, a), s.streams[a.sid];
            && OthersAlone(s, s', a.sid)
            && if st.phase == Open || st.phase == Joined then
                 Over(s', a.sid, st) && Entries(s'.sent, st.opener) == if a.openerClosing then [] else [Fail(1)]
               else
                 && a.sid in s'.streams && s'.streams[a.sid] == st.(timer := false)
                 && s'.index == s.index && s'.sent == s.sent && s'.closed == s.closed
  {
    var st := s.streams[a.sid];
    assert StreamRoles(s.openers, s.joiners, st);
    Alone(s, a);
    assert Pairs({}, a.sid) == {};
    if st.phase == Open || st.phase == Joined {
      PoppedOver(s, a);
      EntriesAppend(s.sent, OnTimer(s, a).frames, st.opener);
      if !a.openerClosing { OneEntry(Sent(st.opener, Fail(1)), st.opener); }
    }
  }

  // ---- the election's scores ------------------------------------------------------------------

  lemma {:induction false} MaxOfIs(xs: seq<int>)
    ensures MaxOf(xs) >= 0 && (forall x <- xs :: x <= MaxOf(xs)) && (MaxOf(xs) == 0 || MaxOf(xs) in xs)
  {
    if xs != [] {
      MaxOfIs(xs[1..]);
      assert xs == [xs[0]] + xs[1..];
    }
  }

  /** A claim's score is the freshest stamp of its node's links, 0 without one. */
  lemma ScoreIsFreshest(hosts: map<NodeId, seq<int>>, n: NodeId)
    ensures n !in hosts ==> Score(hosts, n) == 0
    ensures n in hosts ==> (forall x <- hosts[n] :: x <= Score(hosts, n)) && (Score(hosts, n) == 0 || Score(hosts, n) in hosts[n])
  {
    if n in hosts {
      MaxOfIs(hosts[n]);
    }
  }
}
