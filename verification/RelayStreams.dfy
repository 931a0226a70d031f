/** The relay's handshake methods over its dictionaries, each proved to make the
    step of the machine (server.py:373-719, 899-916). */
module RelayStreams {
  import opened Wire
  import opened Handshake
  import opened HandshakeTheorems

  /** node_streams holds exactly the pairs of the index. */
  ghost predicate Lists(m: map<NodeId, set<Sid>>, index: set<(NodeId, Sid)>) {
    forall n: NodeId, sid: Sid :: (n, sid) in index <==> n in m && sid in m[n]
  }

  function Added(m: map<NodeId, set<Sid>>, n: NodeId, sid: Sid): map<NodeId, set<Sid>> {
    m[n := (if n in m then m[n] else {}) + {sid}]
  }

  function Discarded(m: map<NodeId, set<Sid>>, n: NodeId, sid: Sid): map<NodeId, set<Sid>> {
    if n in m then m[n := m[n] - {sid}] else m
  }

  lemma AddedLists(m: map<NodeId, set<Sid>>, index: set<(NodeId, Sid)>, n: NodeId, sid: Sid)
    requires Lists(m, index)
    ensures Lists(Added(m, n, sid), index + Pairs({n}, sid))
  {
  }

  lemma DiscardedLists(m: map<NodeId, set<Sid>>, index: set<(NodeId, Sid)>, a: NodeId, b: NodeId, sid: Sid)
    requires Lists(m, index)
    ensures Lists(Discarded(Discarded(m, a, sid), b, sid), index - Pairs({a, b}, sid))
  {
  }

  class Relay {
    var now: int
    var hosts: map<NodeId, seq<int>>
    var live: set<NodeId>
    var streams: map<Sid, Stream>
    var nodeStreams: map<NodeId, set<Sid>>
    var grantTasks: multiset<Sid>
    var closed: set<Conn>
    var sent: seq<Sent>
    ghost var s: State

    ghost predicate Valid()
      reads this
    {
      && now == s.now && hosts == s.hosts && live == s.live && streams == s.streams
      && grantTasks == s.grantTasks && closed == s.closed && sent == s.sent && Lists(nodeStreams, s.index)
    }

    method StreamPop(sid: Sid) returns (found: bool)
      requires Valid()
      modifies this
      ensures Valid() && found == (sid in old(streams))
      ensures s == if found then Perform(old(s), sid, Popped(old(streams[sid]))) else old(s)
    {
      found := sid in streams;
      if found {
        var st := streams[sid];
        streams := streams - {sid};
        DiscardedLists(nodeStreams, s.index, st.openerNode, st.dest, sid);
        nodeStreams := Discarded(Discarded(nodeStreams, st.openerNode, sid), st.dest, sid);
        closed := closed + ({st.opener} + AsSet(st.joiner));
        s := Perform(s, sid, Popped(st));
        assert old(s.index) + Pairs({}, sid) == old(s.index);
      }
    }

    /** tcp_send of a verdict frame. */
    method Send(to: Conn, reply: Reply)
      requires Valid()
      modifies this`sent, this`s
      ensures Valid() && s == old(s).(sent := old(s).sent + [Sent(to, reply)])
    {
      sent := sent + [Sent(to, reply)];
      s := s.(sent := sent);
    }

    method StreamFail(sid: Sid, reason: int, openerClosing: bool)
      requires Valid() && sid in streams
      modifies this
      ensures Valid() && s == Perform(old(s), sid, Failed(old(streams[sid]), reason, openerClosing))
    {
      var st := streams[sid];
      if !openerClosing && (st.phase == Open || st.phase == Joined) {
        Send(st.opener, Fail(reason));
      }
      var _ := StreamPop(sid);
    }

    method FailStandalone(conn: Conn, reason: int, closing: bool)
      requires Valid()
      modifies this
      ensures Valid() && forall sid :: s == Perform(old(s), sid, Refused(conn, reason, closing))
    {
      forall sid { NothingDone(s, sid); }
      if !closing {
        Send(conn, Fail(reason));
      }
      closed := closed + {conn};
      s := s.(closed := closed);
    }

    /** The claim: the joiner is fixed, its node listed, its connection told. */
    method Take(sid: Sid, c: Claim, ghost gathered: seq<int>)
      requires Valid() && sid in streams
      modifies this
      ensures Valid() && s == Perform(old(s), sid, Claimed(old(s), old(streams[sid]), c, gathered))
    {
      var st := streams[sid];
      streams := streams[sid := Taken(st, c)];
      if st.dest == 0 {
        AddedLists(nodeStreams, s.index, c.node, sid);
        nodeStreams := Added(nodeStreams, c.node, sid);
      }
      sent := sent + [Sent(c.conn, Ok)];
      assert s.index + Pairs({}, sid) == s.index;
      s := Perform(s, sid, Claimed(s, st, c, gathered));
      assert s.index == old(s.index) + Pairs(if st.dest == 0 then {c.node} else {}, sid);
    }

    /** The opener is told, and the wait for the joinee's answer begins. */
    method Confirm(sid: Sid, c: Claim, ghost was: Stream)
      requires Valid() && sid in streams && streams[sid] == Taken(was, c)
      modifies this
      ensures Valid() && s == Perform(old(s), sid, Confirmed(old(s), was, c))
    {
      var st := streams[sid];
      streams := streams[sid := st.(phase := Ready, claimedAt := now, answerDue := now + Max(LEAST_WAIT, st.deadline - now))];
      sent := sent + [Sent(st.opener, Ok)];
      NothingDone(s, sid);
      s := Perform(s, sid, Confirmed(s, was, c));
    }

    method GrantClaim(sid: Sid, c: Claim, ghost gathered: seq<int>, joinerUp: bool, openerClosing: bool, openerUp: bool)
      requires Valid() && sid in streams
      modifies this
      ensures Valid()
      ensures s == Perform(old(s), sid, Handshake.GrantClaim(old(s), old(streams[sid]), c, gathered, joinerUp, openerClosing, openerUp))
    {
      var st := streams[sid];
      ghost var s0 := s;
      if st.dest != 0 && c.node != st.dest {
        FailStandalone(c.conn, BAD_ID, false);
        assert s == Perform(s0, sid, Refused(c.conn, BAD_ID, false));
        StreamFail(sid, BAD_ID, openerClosing);
        PerformThen(s0, sid, Refused(c.conn, BAD_ID, false), Failed(st, BAD_ID, openerClosing));
        return;
      }
      Take(sid, c, gathered);
      ghost var claim := Claimed(s0, st, c, gathered);
      if !joinerUp {
        StreamFail(sid, NO_ROUTE, openerClosing);
        PerformThen(s0, sid, claim, Failed(Taken(st, c), NO_ROUTE, openerClosing));
        return;
      }
      Confirm(sid, c, st);
      PerformThen(s0, sid, claim, Confirmed(s0, st, c));
      if !openerUp {
        StreamFail(sid, NO_ROUTE, true);
        PerformThen(s0, sid, Then(claim, Confirmed(s0, st, c)), Failed(Waiting(s0, st, c), NO_ROUTE, true));
      }
    }

    /** The checks of an STOPEN, in the code's order: the reason of the refusal, if any. */
    method CheckOpen(node: NodeId, dest: NodeId, sid: Sid, portOk: bool) returns (refusal: Option<int>)
      requires Valid()
      ensures forall conn, closing :: var a := OpenStream(conn, node, dest, sid, portOk, closing);
                if refusal.Some? then OpenVerdict(s, a) == Refused(conn, refusal.value, closing)
                else sid !in s.streams && OpenVerdict(s, a) == Admitted(s, conn, node, dest)
    {
      if !portOk { return Some(NO_ROUTE); }
      if node !in hosts || node !in live { return Some(NO_ROUTE); }
      if sid in streams { return Some(BUSY); }
      if dest != 0 && dest !in hosts { return Some(NO_ROUTE); }
      var reached := if dest != 0 then {dest} * live else live - {node};
      if reached == {} { return Some(NO_ROUTE); }
      return None;
    }

    /** node_streams.setdefault(n, set()).add(sid) */
    method List(n: NodeId, sid: Sid)
      requires Valid()
      modifies this`nodeStreams, this`s
      ensures Valid() && s == old(s).(index := old(s).index + Pairs({n}, sid))
    {
      AddedLists(nodeStreams, s.index, n, sid);
      nodeStreams := Added(nodeStreams, n, sid);
      s := s.(index := s.index + Pairs({n}, sid));
    }

    method Admit(conn: Conn, node: NodeId, dest: NodeId, sid: Sid)
      requires Valid()
      modifies this
      ensures Valid() && s == Perform(old(s), sid, Admitted(old(s), conn, node, dest))
    {
      ghost var s0 := s;
      streams := streams[sid := Stream(node, conn, dest, dest == 0, Open, None, now, now + BUDGET, true, [], false, 0, 0)];
      s := s.(streams := streams);
      List(node, sid);
      if dest != 0 {
        List(dest, sid);
      }
      AdmittedState(s0, sid, conn, node, dest);
    }

    method HandleStreamOpen(conn: Conn, node: NodeId, dest: NodeId, sid: Sid, portOk: bool, closing: bool)
      requires Valid() && Enabled(s, OpenStream(conn, node, dest, sid, portOk, closing))
      modifies this
      ensures Valid() && s == Apply(old(s), OpenStream(conn, node, dest, sid, portOk, closing))
    {
      ghost var s0, a := s, OpenStream(conn, node, dest, sid, portOk, closing);
      var refusal := CheckOpen(node, dest, sid, portOk);
      if refusal.Some? {
        FailStandalone(conn, refusal.value, closing);
      } else {
        Admit(conn, node, dest, sid);
      }
      assert s == Perform(s0, sid, OpenVerdict(s0, a));
      s := s.(openers := s.openers + {conn});
      OpenStep(s0, a);
    }

    /** A claim on an unaddressed stream joins the others; the first starts the election task. */
    method Gather(sid: Sid, c: Claim)
      requires Valid() && sid in streams
      modifies this
      ensures Valid()
      ensures var st := old(streams[sid]);
              s == old(s).(streams := old(streams)[sid := st.(claims := st.claims + [c], granting := true)],
                           grantTasks := if st.granting then old(grantTasks) else old(grantTasks) + multiset{sid})
    {
      var st := streams[sid];
      streams := streams[sid := st.(claims := st.claims + [c], granting := true)];
      if !st.granting {
        grantTasks := grantTasks + multiset{sid};
      }
      s := s.(streams := streams, grantTasks := grantTasks);
    }

    method HandleStreamJoin(conn: Conn, node: NodeId, sid: Sid, joinerUp: bool, openerClosing: bool, openerUp: bool)
      requires Valid() && Enabled(s, Join(conn, node, sid, joinerUp, openerClosing, openerUp))
      modifies this
      ensures Valid() && s == Apply(old(s), Join(conn, node, sid, joinerUp, openerClosing, openerUp))
    {
      ghost var s0, a := s, Join(conn, node, sid, joinerUp, openerClosing, openerUp);
      if sid !in streams {
        closed := closed + {conn};
        s := s.(closed := closed);
        NothingDone(s0, sid);
      } else if streams[sid].phase != Open {
        FailStandalone(conn, BUSY, false);
      } else if streams[sid].implicit {
        Gather(sid, Claim(conn, node));
        NothingDone(s0, sid);
      } else {
        GrantClaim(sid, Claim(conn, node), [], joinerUp, openerClosing, openerUp);
      }
      assert s == Perform(s0, sid, JoinVerdict(s0, a)).(grantTasks := Around(s0, a).grantTasks);
      s := s.(joiners := s.joiners + {conn});
      JoinStep(s0, a);
    }

    method StreamJoinTimeout(sid: Sid, openerClosing: bool)
      requires Valid() && Enabled(s, TimerDue(sid, openerClosing))
      modifies this
      ensures Valid() && s == Apply(old(s), TimerDue(sid, openerClosing))
    {
      NothingDone(s, sid);
      var st := streams[sid];
      if st.phase == Open || st.phase == Joined {
        StreamFail(sid, NO_ROUTE, openerClosing);
      } else {
        streams := streams[sid := st.(timer := false)];
        s := s.(streams := streams);
      }
    }

    /** _grant_claim after its wait: the joinee answered, or its connection was lost. */
    method AfterWait(sid: Sid, answer: Answer)
      requires Valid() && Enabled(s, Answered(sid, answer))
      modifies this
      ensures Valid() && s == Apply(old(s), Answered(sid, answer))
    {
      NothingDone(s, sid);
      var st := streams[sid];
      match answer {
        case Bridged =>
          streams := streams[sid := st.(phase := Piping, timer := false)];
          s := s.(streams := streams);
        case Stray =>
          streams := streams[sid := st.(phase := Stuck)];
          s := s.(streams := streams);
        case BadFrame =>
          closed := closed + AsSet(st.joiner);
          streams := streams[sid := st.(phase := Stuck)];
          s := s.(streams := streams, closed := closed);
        case Broken =>
          streams := streams[sid := st.(phase := Stuck)];
          s := s.(streams := streams);
        case FailOwn => StreamFail(sid, NO_ROUTE, true);
        case Lost => StreamFail(sid, NO_ROUTE, true);
      }
    }

    /** The head of the claims sorted by score, highest first, stably. */
    method Best(claims: seq<Claim>) returns (w: nat)
      requires Valid() && claims != []
      ensures w < |claims| && w == Winner(claims, hosts)
    {
      w := 0;
      var i := 1;
      while i < |claims|
        invariant 0 < i <= |claims| && w < i
        invariant w == Winner(claims[..i], hosts)
      {
        assert claims[..i + 1][..i] == claims[..i];
        if Score(hosts, claims[i].node) > Score(hosts, claims[w].node) {
          w := i;
        }
        i := i + 1;
      }
      assert claims[..i] == claims;
    }

    /** BUSY to each of the claims, and its connection closed. */
    method StandDown(losers: seq<Claim>)
      requires Valid()
      modifies this`sent, this`closed, this`s
      ensures Valid()
      ensures s == old(s).(sent := old(s).sent + Busies(losers), closed := old(s).closed + Conns(losers))
    {
      var i := 0;
      while i < |losers|
        invariant 0 <= i <= |losers|
        invariant Valid()
        invariant s == old(s).(sent := old(s).sent + Busies(losers[..i]), closed := old(s).closed + Conns(losers[..i]))
      {
        sent := sent + [Sent(losers[i].conn, Fail(BUSY))];
        closed := closed + {losers[i].conn};
        s := s.(sent := sent, closed := closed);
        assert losers[..i + 1] == losers[..i] + [losers[i]];
        assert Busies(losers[..i + 1]) == Busies(losers[..i]) + [Sent(losers[i].conn, Fail(BUSY))];
        assert Conns(losers[..i + 1]) == Conns(losers[..i]) + {losers[i].conn};
        i := i + 1;
      }
      assert losers[..i] == losers;
    }

    /** The grant among some claims: BUSY to the losers, then the winner's grant. */
    method Elect(sid: Sid, claims: seq<Claim>, joinerUp: bool, openerClosing: bool, openerUp: bool)
      requires Valid() && sid in streams && claims != []
      modifies this
      ensures Valid()
      ensures var w := Winner(claims, old(hosts));
              s == Perform(old(s), sid, Then(Busied(claims, w),
                     Handshake.GrantClaim(old(s), old(streams[sid]), claims[w], Scores(claims, old(hosts)), joinerUp, openerClosing, openerUp)))
    {
      ghost var s0 := s;
      var w := Best(claims);
      StandDown(claims[..w] + claims[w + 1..]);
      BusiedState(s0, sid, claims, w, s);
      SameGrant(s0, s, streams[sid], claims[w], Scores(claims, hosts), joinerUp, openerClosing, openerUp);
      PerformThen(s0, sid, Busied(claims, w),
                  Handshake.GrantClaim(s0, streams[sid], claims[w], Scores(claims, hosts), joinerUp, openerClosing, openerUp));
      GrantClaim(sid, claims[w], Scores(claims, hosts), joinerUp, openerClosing, openerUp);
    }

    /** _implicit_grant after its sleep. */
    method ImplicitGrant(sid: Sid, joinerUp: bool, openerClosing: bool, openerUp: bool)
      requires Valid() && Enabled(s, GrantDue(sid, joinerUp, openerClosing, openerUp))
      modifies this
      ensures Valid() && s == Apply(old(s), GrantDue(sid, joinerUp, openerClosing, openerUp))
    {
      ghost var s0, a := s, GrantDue(sid, joinerUp, openerClosing, openerUp);
      grantTasks := grantTasks - multiset{sid};
      s := s.(grantTasks := grantTasks);
      if sid in streams && streams[sid].phase == Open {
        var st := streams[sid];
        streams := streams[sid := st.(claims := [], granting := false)];
        s := s.(streams := streams);
        ghost var s1 := s;
        if st.claims != [] {
          Elect(sid, st.claims, joinerUp, openerClosing, openerUp);
        }
        ElectionStep(s0, s1, a, st.(claims := [], granting := false));
      } else {
        NothingDone(s, sid);
      }
    }

    method PopIfHandshaking(sid: Sid, ghost u: State, ghost done: set<Sid>)
      requires Valid() && s == PopAll(u, Handshaking(u, done)) && sid !in done
      modifies this
      ensures Valid() && s == PopAll(u, Handshaking(u, done + {sid}))
    {
      OneMoreDone(u, done, sid);
      if sid in streams && streams[sid].phase == Open {
        OneMorePopped(u, Handshaking(u, done), sid);
        var _ := StreamPop(sid);
      }
    }

    /** The end of a node's last link: its index entry goes, and every stream
        listed there that is still in handshake is popped. */
    method NodeGone(n: NodeId)
      requires Valid()
      modifies this
      ensures Valid() && s == Apply(old(s), NodeDark(n))
    {
      ghost var u := Unlisted(s, n);
      var listed := if n in nodeStreams then nodeStreams[n] else {};
      nodeStreams := nodeStreams - {n};
      s := u;
      ghost var done := {};
      var left := listed;
      NonePopped(u);
      while left != {}
        invariant left !! done && left + done == listed
        invariant Valid() && s == PopAll(u, Handshaking(u, done))
        decreases left
      {
        var sid :| sid in left;
        PopIfHandshaking(sid, u, done);
        left := left - {sid};
        done := done + {sid};
      }
      assert done == listed;
      DarkenState(old(s), n, done, s);
    }
  }

  /** Those of the sids that are streams in handshake. */
  function Handshaking(s: State, sids: set<Sid>): (r: set<Sid>)
    ensures r <= s.streams.Keys
  {
    set sid | sid in sids && sid in s.streams && s.streams[sid].phase == Open
  }

  lemma OneMoreDone(s: State, done: set<Sid>, sid: Sid)
    ensures Handshaking(s, done + {sid})
         == if sid in s.streams && s.streams[sid].phase == Open then Handshaking(s, done) + {sid} else Handshaking(s, done)
  {
  }

  lemma DarkenState(s: State, n: NodeId, listed: set<Sid>, s': State)
    requires forall sid: Sid :: sid in listed <==> (n, sid) in s.index
    requires s' == PopAll(Unlisted(s, n), Handshaking(Unlisted(s, n), listed))
    ensures s' == Apply(s, NodeDark(n))
  {
    assert Handshaking(Unlisted(s, n), listed) == Doomed(s, n);
    NothingDone(s', 0);
  }

  lemma NonePopped(s: State)
    ensures PopAll(s, Handshaking(s, {})) == s
  {
    assert Handshaking(s, {}) == {};
    assert PopAll(s, {}).streams == s.streams && PopAll(s, {}).index == s.index && PopAll(s, {}).closed == s.closed;
  }

  lemma OneMorePopped(s: State, dead: set<Sid>, sid: Sid)
    requires dead <= s.streams.Keys && sid in s.streams && sid !in dead
    ensures PopAll(s, dead + {sid}) == Perform(PopAll(s, dead), sid, Popped(s.streams[sid]))
  {
    var l, r := PopAll(s, dead + {sid}), Perform(PopAll(s, dead), sid, Popped(s.streams[sid]));
    assert l.streams == r.streams;
    assert l.index == r.index;
    assert l.closed == r.closed;
  }

  ghost function Busied(claims: seq<Claim>, w: nat): Effect
    requires w < |claims|
  {
    NOTHING.(frames := Busies(claims[..w] + claims[w + 1..]), closes := Conns(claims[..w] + claims[w + 1..]))
  }

  lemma BusiedState(s: State, sid: Sid, claims: seq<Claim>, w: nat, s1: State)
    requires w < |claims|
    requires s1 == s.(sent := s.sent + Busied(claims, w).frames, closed := s.closed + Busied(claims, w).closes)
    ensures s1 == Perform(s, sid, Busied(claims, w))
  {
    assert Pairs({}, sid) == {};
  }

  /** An election is the reset of the stream's claims, then the grant among them. */
  lemma ElectionStep(s: State, s1: State, a: Action, idle: Stream)
    requires a.GrantDue? && Enabled(s, a) && a.sid in s.streams && s.streams[a.sid].phase == Open
    requires idle == s.streams[a.sid].(claims := [], granting := false)
    requires s1 == s.(grantTasks := s.grantTasks - multiset{a.sid}, streams := s.streams[a.sid := idle])
    ensures var cs := s.streams[a.sid].claims;
            if cs == [] then Apply(s, a) == s1
            else
              var w := Winner(cs, s.hosts);
              Apply(s, a) == Perform(s1, a.sid, Then(Busied(cs, w),
                               Handshake.GrantClaim(s1, idle, cs[w], Scores(cs, s.hosts), a.joinerUp, a.openerClosing, a.openerUp)))
  {
    assert Pairs({}, a.sid) == {};
    var cs := s.streams[a.sid].claims;
    if cs != [] {
      var w := Winner(cs, s.hosts);
      SameGrant(s, s1, idle, cs[w], Scores(cs, s.hosts), a.joinerUp, a.openerClosing, a.openerUp);
      var g := Handshake.GrantClaim(s, idle, cs[w], Scores(cs, s.hosts), a.joinerUp, a.openerClosing, a.openerUp);
      OverIdle(s.(grantTasks := s.grantTasks - multiset{a.sid}), a.sid, idle, Busied(cs, w), g);
    }
  }

  /** A change of the stream that a grant overwrites anyway. */
  lemma OverIdle(s: State, sid: Sid, idle: Stream, b: Effect, g: Effect)
    requires b.next.Keep?
    ensures Perform(s, sid, Then(b.(next := Becomes(idle)), g)) == Perform(s.(streams := s.streams[sid := idle]), sid, Then(b, g))
  {
    var l, r := Perform(s, sid, Then(b.(next := Becomes(idle)), g)), Perform(s.(streams := s.streams[sid := idle]), sid, Then(b, g));
    assert l.streams == r.streams;
  }

  lemma AdmittedState(s: State, sid: Sid, conn: Conn, node: NodeId, dest: NodeId)
    ensures Perform(s, sid, Admitted(s, conn, node, dest))
         == s.(streams := s.streams[sid := Admitted(s, conn, node, dest).next.st],
               index := if dest == 0 then s.index + Pairs({node}, sid) else s.index + Pairs({node}, sid) + Pairs({dest}, sid))
  {
    assert Pairs({}, sid) == {};
    assert Pairs({node, dest}, sid) == Pairs({node}, sid) + Pairs({dest}, sid);
    assert s.index + Pairs({node, dest}, sid) == s.index + Pairs({node}, sid) + Pairs({dest}, sid);
  }

  lemma OpenStep(s: State, a: Action)
    requires a.OpenStream? && Enabled(s, a)
    ensures var p := Perform(s, a.sid, OpenVerdict(s, a));
            Apply(s, a) == p.(openers := p.openers + {a.conn})
  {
  }

  lemma JoinStep(s: State, a: Action)
    requires a.Join? && Enabled(s, a)
    ensures var p := Perform(s, a.sid, JoinVerdict(s, a));
            Apply(s, a) == p.(grantTasks := Around(s, a).grantTasks, joiners := p.joiners + {a.conn})
  {
  }
}
