/** What every run of the relay's stream handshake keeps. */
module HandshakeTheorems {
  import opened Wire
  import opened Handshake

  // ---- verdict frames -----------------------------------------------------------------

  /** The verdict frames written to one connection, in order. */
  function Entries(sent: seq<Sent>, c: Conn): seq<Reply> {
    if sent == [] then []
    else
      var n := |sent| - 1;
      if sent[n].to == c then Entries(sent[..n], c) + [sent[n].reply] else Entries(sent[..n], c)
  }

  lemma {:induction false} EntriesAppend(sent: seq<Sent>, more: seq<Sent>, c: Conn)
    ensures Entries(sent + more, c) == Entries(sent, c) + Entries(more, c)
  {
    if more == [] {
      assert sent + more == sent;
    } else {
      var n := |more| - 1;
      assert (sent + more)[..|sent + more| - 1] == sent + more[..n];
      assert (sent + more)[|sent + more| - 1] == more[n];
      EntriesAppend(sent, more[..n], c);
    }
  }

  lemma {:induction false} EntriesNone(sent: seq<Sent>, c: Conn)
    requires forall x <- sent :: x.to != c
    ensures Entries(sent, c) == []
  {
    if sent != [] {
      EntriesNone(sent[..|sent| - 1], c);
    }
  }

  lemma OneEntry(x: Sent, c: Conn)
    ensures Entries([x], c) == if x.to == c then [x.reply] else []
  {
    assert [x][..0] == [];
  }

  // ---- the invariants -------------------------------------------------------------------

  predicate StreamRoles(openers: set<Conn>, joiners: set<Conn>, st: Stream) {
    && st.opener in openers
    && (st.joiner.Some? ==> st.joiner.value in joiners) && (st.phase != Open ==> st.joiner.Some?)
    && (forall c <- st.claims :: c.conn in joiners)
    && st.deadline == st.created + BUDGET
    && (st.phase == Open ==> (st.implicit <==> st.dest == 0) && st.timer && st.joiner.None?)
    && (st.phase == Ready ==> st.answerDue <= Max(st.deadline, st.claimedAt + LEAST_WAIT))
  }

  /** Openers and joiners are different connections, and a stream is its opener's. */
  predicate Roles(s: State) {
    && s.openers !! s.joiners
    && (forall sid | sid in s.streams :: StreamRoles(s.openers, s.joiners, s.streams[sid]))
    && (forall x, y | x in s.streams && y in s.streams && x != y :: s.streams[x].opener != s.streams[y].opener)
    && (forall x <- s.sent :: x.to in s.openers || x.to in s.joiners)
  }

  /** What the opener of a stream in this phase has been told. */
  function Told(p: Phase): seq<Reply> {
    if p == Open || p == Joined then [] else [Ok]
  }

  /** The opener of a stream has its verdict exactly from the grant on; no opener gets two. */
  predicate Verdicts(s: State) {
    && (forall c | c in s.openers :: |Entries(s.sent, c)| <= 1)
    && (forall sid | sid in s.streams :: Entries(s.sent, s.streams[sid].opener) == Told(s.streams[sid].phase))
  }

  predicate GrantOk(g: Grant) {
    && (g.asked != 0 ==> g.node == g.asked)
    && (g.implicit <==> g.asked == 0)
    && (g.implicit ==> g.score in g.gathered && forall x <- g.gathered :: x <= g.score)
  }

  predicate Grants(s: State) {
    && (forall g <- s.grants :: GrantOk(g) && g.opener in s.openers)
    && (forall i, j | 0 <= i < j < |s.grants| :: s.grants[i].opener != s.grants[j].opener)
    && (forall sid | sid in s.streams && s.streams[sid].phase == Open ::
          forall g <- s.grants :: g.opener != s.streams[sid].opener)
  }

  predicate OkMeansGranted(s: State) {
    forall x <- s.sent :: x.reply.Ok? && x.to in s.joiners ==> exists g <- s.grants :: g.joiner == x.to
  }

  predicate Ends(st: Stream, n: NodeId) {
    n == st.openerNode || (n == st.dest && (st.dest != 0 || st.phase != Open))
  }

  /** Every sid listed under a node is a live stream of that node, and a stream
      in handshake is listed under each of its nodes. */
  ghost predicate CleanIndex(s: State) {
    && (forall n: NodeId, sid: Sid :: (n, sid) in s.index ==> sid in s.streams && Ends(s.streams[sid], n))
    && (forall n: NodeId, sid: Sid :: sid in s.streams && s.streams[sid].phase == Open && Ends(s.streams[sid], n)
                                      ==> (n, sid) in s.index)
  }

  /** An opener whose stream is not in the table has had its connection closed. */
  ghost predicate GoneMeansClosed(s: State) {
    forall c | c in s.openers && c !in s.closed :: exists sid :: sid in s.streams && s.streams[sid].opener == c
  }

  ghost predicate Inv(s: State) {
    Roles(s) && Verdicts(s) && Grants(s) && OkMeansGranted(s) && CleanIndex(s) && GoneMeansClosed(s)
  }

  // ---- what an effect may do ---------------------------------------------------------------

  predicate Shape(s: State, sid: Sid, e: Effect) {
    && e.opens !! s.openers + s.joiners && e.joins !! s.openers + s.joiners && e.opens !! e.joins
    && (forall x <- e.frames :: x.to in s.openers + e.opens || x.to in s.joiners + e.joins)
    && (e.next.Gone? ==> sid in s.streams && s.streams[sid].opener in e.closes)
    && (e.next.Becomes? ==>
          && StreamRoles(s.openers + e.opens, s.joiners + e.joins, e.next.st)
          && if sid in s.streams then e.next.st.opener == s.streams[sid].opener else e.opens == {e.next.st.opener})
    && (forall c <- e.opens :: c in e.closes || (sid !in s.streams && e.next.Becomes?))
  }

  predicate Speech(s: State, sid: Sid, e: Effect) {
    && (forall x <- e.frames :: x.to in s.openers ==> sid in s.streams && x.to == s.streams[sid].opener)
    && (forall c <- e.opens :: |Entries(e.frames, c)| <= 1 && (e.next.Becomes? ==> Entries(e.frames, c) == Told(e.next.st.phase)))
    && (sid in s.streams ==>
          var said := Told(s.streams[sid].phase) + Entries(e.frames, s.streams[sid].opener);
          match e.next
          case Keep => said == Told(s.streams[sid].phase)
          case Becomes(st) => said == Told(st.phase)
          case Gone => |said| <= 1)
  }

  predicate Granting(s: State, sid: Sid, e: Effect) {
    && |e.grant| <= 1
    && (e.grant != [] ==>
          && sid in s.streams && s.streams[sid].phase == Open && e.grant[0].opener == s.streams[sid].opener
          && GrantOk(e.grant[0]) && !e.next.Keep?)
    && (e.next.Becomes? && e.next.st.phase == Open ==> e.grant == [] && (sid in s.streams ==> s.streams[sid].phase == Open))
    && (forall x <- e.frames :: x.reply.Ok? && x.to in s.joiners + e.joins ==> e.grant != [] && e.grant[0].joiner == x.to)
  }

  ghost predicate Listing(s: State, sid: Sid, e: Effect) {
    match e.next
    case Keep => e.list == {} && e.unlist == {}
    case Gone => sid in s.streams && e.list <= e.unlist && forall n: NodeId :: Ends(s.streams[sid], n) ==> n in e.unlist
    case Becomes(st) =>
      && e.unlist == {} && (forall n <- e.list :: Ends(st, n))
      && (sid in s.streams ==> forall n: NodeId :: Ends(s.streams[sid], n) ==> Ends(st, n))
      && (st.phase == Open ==>
            forall n: NodeId :: Ends(st, n) ==>
              n in e.list || (sid in s.streams && s.streams[sid].phase == Open && Ends(s.streams[sid], n)))
  }

  ghost predicate Fair(s: State, sid: Sid, e: Effect) {
    Shape(s, sid, e) && Speech(s, sid, e) && Granting(s, sid, e) && Listing(s, sid, e)
  }

  lemma RolesKept(s: State, sid: Sid, e: Effect)
    requires Roles(s) && Shape(s, sid, e)
    ensures Roles(Perform(s, sid, e))
  {
    var s' := Perform(s, sid, e);
    forall x | x in s'.streams ensures StreamRoles(s'.openers, s'.joiners, s'.streams[x]) {
      if x != sid || e.next.Keep? { assert x in s.streams; }
    }
  }

  lemma VerdictKept(s: State, sid: Sid, e: Effect, c: Conn)
    requires Roles(s) && Verdicts(s) && Shape(s, sid, e) && Speech(s, sid, e) && c in s.openers + e.opens
    ensures var said := Entries(s.sent + e.frames, c);
            && |said| <= 1
            && (!(c in e.opens || (sid in s.streams && c == s.streams[sid].opener)) ==> said == Entries(s.sent, c))
            && (c in e.opens ==> said == Entries(e.frames, c))
            && (sid in s.streams && c == s.streams[sid].opener ==> said == Told(s.streams[sid].phase) + Entries(e.frames, c))
  {
    EntriesAppend(s.sent, e.frames, c);
    if c in e.opens {
      EntriesNone(s.sent, c);
    } else if !(sid in s.streams && c == s.streams[sid].opener) {
      EntriesNone(e.frames, c);
    }
  }

  lemma VerdictsKept(s: State, sid: Sid, e: Effect)
    requires Roles(s) && Verdicts(s) && Shape(s, sid, e) && Speech(s, sid, e)
    ensures Verdicts(Perform(s, sid, e))
  {
    var s' := Perform(s, sid, e);
    forall c | c in s'.openers
      ensures |Entries(s'.sent, c)| <= 1
      ensures forall x | x in s'.streams && s'.streams[x].opener == c :: Entries(s'.sent, c) == Told(s'.streams[x].phase)
    {
      VerdictKept(s, sid, e, c);
    }
  }

  lemma GrantsKept(s: State, sid: Sid, e: Effect)
    requires Roles(s) && Grants(s) && OkMeansGranted(s) && Shape(s, sid, e) && Granting(s, sid, e)
    ensures Grants(Perform(s, sid, e)) && OkMeansGranted(Perform(s, sid, e))
  {
    var s' := Perform(s, sid, e);
    forall x <- s'.sent | x.reply.Ok? && x.to in s'.joiners ensures exists g <- s'.grants :: g.joiner == x.to {
      if x in e.frames {
        assert e.grant[0] in s'.grants;
      } else {
        var g :| g in s.grants && g.joiner == x.to;
        assert g in s'.grants;
      }
    }
  }

  lemma IndexKept(s: State, sid: Sid, e: Effect)
    requires CleanIndex(s) && Listing(s, sid, e)
    ensures CleanIndex(Perform(s, sid, e))
  {
    var s' := Perform(s, sid, e);
    forall n, x | (n, x) in s'.index ensures x in s'.streams && Ends(s'.streams[x], n) {
      if x != sid { assert (n, x) in s.index; }
    }
    forall n, x | x in s'.streams && s'.streams[x].phase == Open && Ends(s'.streams[x], n) ensures (n, x) in s'.index {
      if x != sid { assert (n, x) in s.index; }
      else if n in e.list { assert (n, x) in Pairs(e.list, sid); }
    }
  }

  lemma ClosedKept(s: State, sid: Sid, e: Effect)
    requires Roles(s) && GoneMeansClosed(s) && Shape(s, sid, e)
    ensures GoneMeansClosed(Perform(s, sid, e))
  {
    var s' := Perform(s, sid, e);
    forall c | c in s'.openers && c !in s'.closed ensures exists x :: x in s'.streams && s'.streams[x].opener == c {
      if c in e.opens {
        assert sid in s'.streams && s'.streams[sid].opener == c;
      } else {
        var x :| x in s.streams && s.streams[x].opener == c;
        assert x in s'.streams && s'.streams[x].opener == c;
      }
    }
  }

  lemma FairKeeps(s: State, sid: Sid, e: Effect)
    requires Inv(s) && Fair(s, sid, e)
    ensures Inv(Perform(s, sid, e))
  {
    RolesKept(s, sid, e);
    VerdictsKept(s, sid, e);
    GrantsKept(s, sid, e);
    IndexKept(s, sid, e);
    ClosedKept(s, sid, e);
  }

  // ---- each step's effect is fair ------------------------------------------------------------

  /** A connection that has not been used yet. */
  predicate Fresh(s: State, c: Conn) {
    c !in s.openers && c !in s.joiners
  }

  lemma RefusedFair(s: State, sid: Sid, c: Conn, reason: int, closing: bool, opening: bool)
    requires Roles(s) && Fresh(s, c)
    ensures Fair(s, sid, if opening then Refused(c, reason, closing).(opens := {c}) else Refused(c, reason, closing).(joins := {c}))
  {
    OneEntry(Sent(c, Fail(reason)), c);
    if sid in s.streams { OneEntry(Sent(c, Fail(reason)), s.streams[sid].opener); }
  }

  lemma FailedFair(s: State, sid: Sid, reason: int, openerClosing: bool)
    requires Roles(s) && sid in s.streams
    ensures Fair(s, sid, Failed(s.streams[sid], reason, openerClosing))
  {
  }

  lemma ScoresOf(cs: seq<Claim>, hosts: map<NodeId, seq<int>>, x: int)
    requires cs != []
    ensures Score(hosts, cs[Winner(cs, hosts)].node) in Scores(cs, hosts)
    ensures x in Scores(cs, hosts) ==> x <= Score(hosts, cs[Winner(cs, hosts)].node)
  {
    assert Scores(cs, hosts)[Winner(cs, hosts)] == Score(hosts, cs[Winner(cs, hosts)].node);
    if x in Scores(cs, hosts) {
      var i :| 0 <= i < |cs| && x == Scores(cs, hosts)[i];
      WinnerIsBest(cs, hosts, i);
    }
  }

  /** The granted claim has a score at least that of every gathered one, and is the first such. */
  lemma {:induction false} WinnerIsBest(cs: seq<Claim>, hosts: map<NodeId, seq<int>>, i: nat)
    requires i < |cs|
    ensures Score(hosts, cs[i].node) <= Score(hosts, cs[Winner(cs, hosts)].node)
    ensures i < Winner(cs, hosts) ==> Score(hosts, cs[i].node) < Score(hosts, cs[Winner(cs, hosts)].node)
  {
    if |cs| > 1 {
      var rest := cs[..|cs| - 1];
      WinnerIsBest(rest, hosts, if i < |rest| then i else 0);
    }
  }

  lemma PerformThen(s: State, sid: Sid, e: Effect, f: Effect)
    requires e.unlist == {}
    ensures Perform(s, sid, Then(e, f)) == Perform(Perform(s, sid, e), sid, f)
  {
    var a, b := Perform(s, sid, Then(e, f)), Perform(Perform(s, sid, e), sid, f);
    forall p ensures p in a.index <==> p in b.index {
      assert p in Pairs(e.list + f.list, sid) <==> p in Pairs(e.list, sid) || p in Pairs(f.list, sid);
    }
    assert a.index == b.index;
    assert a.streams == b.streams;
    assert a.openers == b.openers && a.joiners == b.joiners && a.closed == b.closed;
    assert a.sent == b.sent && a.grants == b.grants;
  }

  /** A claim the code may grant: its connection is known, and no gathered score beats it. */
  predicate Grantable(s: State, sid: Sid, c: Claim, gathered: seq<int>) {
    && sid in s.streams && s.streams[sid].phase == Open
    && c.conn in s.joiners
    && (s.streams[sid].implicit ==>
          Score(s.hosts, c.node) in gathered && forall x <- gathered :: x <= Score(s.hosts, c.node))
  }

  lemma ClaimedFair(s: State, sid: Sid, c: Claim, gathered: seq<int>)
    requires Roles(s) && Grantable(s, sid, c, gathered) && (s.streams[sid].dest == 0 || c.node == s.streams[sid].dest)
    ensures Fair(s, sid, Claimed(s, s.streams[sid], c, gathered))
  {
    OneEntry(Sent(c.conn, Ok), s.streams[sid].opener);
  }

  lemma ConfirmedFair(s: State, sid: Sid, st: Stream, c: Claim)
    requires Roles(s) && sid in s.streams && s.streams[sid] == Taken(st, c)
    ensures Fair(s, sid, Confirmed(s, st, c))
  {
    OneEntry(Sent(st.opener, Ok), st.opener);
  }

  lemma FailedKeeps(s: State, sid: Sid, reason: int, closing: bool)
    requires Inv(s) && sid in s.streams
    ensures Inv(Perform(s, sid, Failed(s.streams[sid], reason, closing)))
  {
    FailedFair(s, sid, reason, closing);
    FairKeeps(s, sid, Failed(s.streams[sid], reason, closing));
  }

  lemma JoinerRefused(s: State, sid: Sid, c: Conn, reason: int)
    requires Inv(s) && c in s.joiners && sid in s.streams
    ensures Inv(Perform(s, sid, Refused(c, reason, false)))
  {
    OneEntry(Sent(c, Fail(reason)), s.streams[sid].opener);
    FairKeeps(s, sid, Refused(c, reason, false));
  }

  /** An effect, then the failure of the stream it leaves. */
  lemma ThenFails(s: State, sid: Sid, e: Effect, st: Stream, reason: int, closing: bool)
    requires Inv(Perform(s, sid, e)) && e.unlist == {}
    requires sid in Perform(s, sid, e).streams && Perform(s, sid, e).streams[sid] == st
    ensures Inv(Perform(s, sid, Then(e, Failed(st, reason, closing))))
  {
    FailedKeeps(Perform(s, sid, e), sid, reason, closing);
    PerformThen(s, sid, e, Failed(st, reason, closing));
  }

  lemma ConfirmStep(s1: State, sid: Sid, s: State, st: Stream, c: Claim)
    requires Inv(s1) && s1.now == s.now && sid in s1.streams && s1.streams[sid] == Taken(st, c)
    ensures Inv(Perform(s1, sid, Confirmed(s, st, c)))
  {
    assert Confirmed(s1, st, c) == Confirmed(s, st, c);
    ConfirmedFair(s1, sid, st, c);
    FairKeeps(s1, sid, Confirmed(s1, st, c));
  }

  lemma ClaimKeeps(s: State, sid: Sid, c: Claim, gathered: seq<int>)
    requires Inv(s) && Grantable(s, sid, c, gathered) && (s.streams[sid].dest == 0 || c.node == s.streams[sid].dest)
    ensures Inv(Perform(s, sid, Claimed(s, s.streams[sid], c, gathered)))
  {
    ClaimedFair(s, sid, c, gathered);
    FairKeeps(s, sid, Claimed(s, s.streams[sid], c, gathered));
  }

  lemma ConfirmKeeps(s: State, sid: Sid, c: Claim, gathered: seq<int>)
    requires Inv(s) && Grantable(s, sid, c, gathered) && (s.streams[sid].dest == 0 || c.node == s.streams[sid].dest)
    ensures Inv(Perform(s, sid, Then(Claimed(s, s.streams[sid], c, gathered), Confirmed(s, s.streams[sid], c))))
  {
    var st := s.streams[sid];
    var e := Claimed(s, st, c, gathered);
    ClaimKeeps(s, sid, c, gathered);
    ConfirmStep(Perform(s, sid, e), sid, s, st, c);
    PerformThen(s, sid, e, Confirmed(s, st, c));
  }

  /** Granting a claim, or refusing it with its stream, keeps everything. */
  lemma GrantKeeps(s: State, sid: Sid, c: Claim, gathered: seq<int>, up: bool, closing: bool, openerUp: bool)
    requires Inv(s) && Grantable(s, sid, c, gathered)
    ensures Inv(Perform(s, sid, GrantClaim(s, s.streams[sid], c, gathered, up, closing, openerUp)))
  {
    var st := s.streams[sid];
    if st.dest != 0 && c.node != st.dest {
      JoinerRefused(s, sid, c.conn, BAD_ID);
      ThenFails(s, sid, Refused(c.conn, BAD_ID, false), st, BAD_ID, closing);
    } else {
      ConfirmKeeps(s, sid, c, gathered);
      if !up {
        ClaimKeeps(s, sid, c, gathered);
        ThenFails(s, sid, Claimed(s, st, c, gathered), Taken(st, c), NO_ROUTE, closing);
      } else if !openerUp {
        ThenFails(s, sid, Then(Claimed(s, st, c, gathered), Confirmed(s, st, c)), Waiting(s, st, c), NO_ROUTE, true);
      }
    }
  }

  lemma OpenKeeps(s: State, a: Action)
    requires Inv(s) && a.OpenStream? && Enabled(s, a)
    ensures Inv(Perform(s, a.sid, OnOpen(s, a)))
  {
    var e := OnOpen(s, a);
    if e.next.Keep? {
      var r :| e == Refused(a.conn, r, a.closing).(opens := {a.conn});
      RefusedFair(s, a.sid, a.conn, r, a.closing, true);
    }
    FairKeeps(s, a.sid, e);
  }

  lemma JoinerKnown(s: State, c: Conn)
    requires Inv(s) && Fresh(s, c)
    ensures Inv(s.(joiners := s.joiners + {c}))
  {
  }

  lemma JoinKeeps(s: State, a: Action)
    requires Inv(s) && a.Join? && Enabled(s, a)
    ensures Inv(Perform(s, a.sid, OnJoin(s, a)))
  {
    var e := OnJoin(s, a);
    if a.sid !in s.streams {
      FairKeeps(s, a.sid, e);
    } else {
      var st := s.streams[a.sid];
      if st.phase != Open {
        RefusedFair(s, a.sid, a.conn, BUSY, false, false);
        FairKeeps(s, a.sid, e);
      } else if st.implicit {
        FairKeeps(s, a.sid, e);
      } else {
        var s1 := s.(joiners := s.joiners + {a.conn});
        JoinerKnown(s, a.conn);
        GrantKeeps(s1, a.sid, Claim(a.conn, a.node), [], a.joinerUp, a.openerClosing, a.openerUp);
        KnownFirst(s, a);
      }
    }
  }

  lemma KnownFirst(s: State, a: Action)
    requires a.Join? && a.sid in s.streams && s.streams[a.sid].phase == Open && !s.streams[a.sid].implicit
    ensures Perform(s, a.sid, OnJoin(s, a))
         == Perform(s.(joiners := s.joiners + {a.conn}), a.sid,
                    GrantClaim(s.(joiners := s.joiners + {a.conn}), s.streams[a.sid], Claim(a.conn, a.node), [],
                               a.joinerUp, a.openerClosing, a.openerUp))
  {
    var s1 := s.(joiners := s.joiners + {a.conn});
    var st, c := s.streams[a.sid], Claim(a.conn, a.node);
    assert Claimed(s1, st, c, []) == Claimed(s, st, c, []);
    assert Waiting(s1, st, c) == Waiting(s, st, c);
  }

  lemma TimerKeeps(s: State, a: Action)
    requires Inv(s) && a.TimerDue? && Enabled(s, a)
    ensures Inv(Perform(s, a.sid, OnTimer(s, a)))
  {
    FailedFair(s, a.sid, NO_ROUTE, a.openerClosing);
    FairKeeps(s, a.sid, OnTimer(s, a));
  }

  lemma AnswerKeeps(s: State, a: Action)
    requires Inv(s) && a.Answered? && Enabled(s, a)
    ensures Inv(Perform(s, a.sid, OnAnswer(s, a)))
  {
    var st := s.streams[a.sid];
    if a.answer.FailOwn? || a.answer.Lost? {
      FailedKeeps(s, a.sid, NO_ROUTE, true);
    } else {
      RephasedFair(s, a.sid, OnAnswer(s, a));
      FairKeeps(s, a.sid, OnAnswer(s, a));
    }
  }

  /** A confirmed stream may go on to any later phase. */
  lemma RephasedFair(s: State, sid: Sid, e: Effect)
    requires Roles(s) && sid in s.streams && s.streams[sid].phase == Ready && e.next.Becomes?
    requires e == NOTHING.(next := e.next, closes := e.closes)
    requires e.next.st.phase in {Piping, Stuck}
    requires e.next.st == s.streams[sid].(phase := e.next.st.phase, timer := e.next.st.timer)
    ensures Fair(s, sid, e)
  {
  }

  lemma LosersFair(s: State, sid: Sid, losers: seq<Claim>)
    requires Roles(s) && sid in s.streams && s.streams[sid].phase == Open && forall c <- losers :: c in s.streams[sid].claims
    ensures Fair(s, sid, NOTHING.(next := Becomes(s.streams[sid].(claims := [], granting := false)),
                                  frames := Busies(losers), closes := Conns(losers)))
  {
    EntriesNone(Busies(losers), s.streams[sid].opener);
  }

  lemma ElectionKeeps(s: State, a: Action)
    requires Inv(s) && a.GrantDue?
    ensures Inv(Perform(s, a.sid, OnGrant(s, a)))
  {
    if a.sid !in s.streams || s.streams[a.sid].phase != Open || s.streams[a.sid].claims == [] {
      NoElectionKeeps(s, a);
    } else {
      var st := s.streams[a.sid];
      var w := Winner(st.claims, s.hosts);
      var losers := st.claims[..w] + st.claims[w + 1..];
      BusiesKeep(s, a.sid, losers);
      AfterBusies(s, a, st, NOTHING.(next := Becomes(st.(claims := [], granting := false)), frames := Busies(losers), closes := Conns(losers)));
    }
  }

  lemma NoElectionKeeps(s: State, a: Action)
    requires Inv(s) && a.GrantDue?
    requires a.sid !in s.streams || s.streams[a.sid].phase != Open || s.streams[a.sid].claims == []
    ensures Inv(Perform(s, a.sid, OnGrant(s, a)))
  {
    FairKeeps(s, a.sid, OnGrant(s, a));
  }

  lemma BusiesKeep(s: State, sid: Sid, losers: seq<Claim>)
    requires Inv(s) && sid in s.streams && s.streams[sid].phase == Open && forall c <- losers :: c in s.streams[sid].claims
    ensures Inv(Perform(s, sid, NOTHING.(next := Becomes(s.streams[sid].(claims := [], granting := false)),
                                         frames := Busies(losers), closes := Conns(losers))))
  {
    LosersFair(s, sid, losers);
    FairKeeps(s, sid, NOTHING.(next := Becomes(s.streams[sid].(claims := [], granting := false)),
                               frames := Busies(losers), closes := Conns(losers)));
  }

  lemma AfterBusies(s: State, a: Action, st: Stream, e: Effect)
    requires Inv(s) && a.GrantDue? && a.sid in s.streams && s.streams[a.sid] == st && st.phase == Open && st.claims != []
    requires e == NOTHING.(next := Becomes(st.(claims := [], granting := false)), frames := e.frames, closes := e.closes)
    requires Inv(Perform(s, a.sid, e))
    ensures var w := Winner(st.claims, s.hosts);
            Inv(Perform(s, a.sid, Then(e, GrantClaim(s, e.next.st, st.claims[w], Scores(st.claims, s.hosts),
                                                     a.joinerUp, a.openerClosing, a.openerUp))))
  {
    WinnerGrantable(s, Perform(s, a.sid, e), a.sid, st);
    ElectedKeeps(s, Perform(s, a.sid, e), a, e, st.claims[Winner(st.claims, s.hosts)], Scores(st.claims, s.hosts));
  }

  lemma WinnerGrantable(s: State, s1: State, sid: Sid, st: Stream)
    requires Roles(s) && sid in s.streams && s.streams[sid] == st && st.phase == Open && st.claims != []
    requires sid in s1.streams && s1.streams[sid] == st.(claims := [], granting := false) && s1.hosts == s.hosts && s.joiners <= s1.joiners
    ensures Grantable(s1, sid, st.claims[Winner(st.claims, s.hosts)], Scores(st.claims, s.hosts))
  {
    var w := Winner(st.claims, s.hosts);
    forall x <- Scores(st.claims, s.hosts) ensures x <= Score(s.hosts, st.claims[w].node) { ScoresOf(st.claims, s.hosts, x); }
    ScoresOf(st.claims, s.hosts, 0);
    assert st.claims[w] in st.claims;
  }

  /** A grant depends on the clock and the claims' scores only. */
  lemma SameGrant(s: State, s1: State, st: Stream, c: Claim, scores: seq<int>,
                  joinerUp: bool, openerClosing: bool, openerUp: bool)
    requires s1.hosts == s.hosts && s1.now == s.now
    ensures GrantClaim(s1, st, c, scores, joinerUp, openerClosing, openerUp)
         == GrantClaim(s, st, c, scores, joinerUp, openerClosing, openerUp)
  {
    assert Claimed(s1, st, c, scores) == Claimed(s, st, c, scores);
    assert Waiting(s1, st, c) == Waiting(s, st, c);
  }

  lemma ElectedKeeps(s: State, s1: State, a: Action, e: Effect, c: Claim, scores: seq<int>)
    requires a.GrantDue? && e.unlist == {} && s1 == Perform(s, a.sid, e) && Inv(s1) && Grantable(s1, a.sid, c, scores)
    ensures var g := GrantClaim(s, s1.streams[a.sid], c, scores, a.joinerUp, a.openerClosing, a.openerUp);
            Inv(Perform(s, a.sid, Then(e, g)))
  {
    var st := s1.streams[a.sid];
    GrantKeeps(s1, a.sid, c, scores, a.joinerUp, a.openerClosing, a.openerUp);
    SameGrant(s, s1, st, c, scores, a.joinerUp, a.openerClosing, a.openerUp);
    PerformThen(s, a.sid, e, GrantClaim(s, st, c, scores, a.joinerUp, a.openerClosing, a.openerUp));
  }

  lemma DarkenKeeps(s: State, n: NodeId)
    requires Inv(s)
    ensures Inv(Darken(s, n))
  {
    var s' := Darken(s, n);
    forall c | c in s'.openers && c !in s'.closed ensures exists x :: x in s'.streams && s'.streams[x].opener == c {
      var x :| x in s.streams && s.streams[x].opener == c;
      assert x in s'.streams && s'.streams[x].opener == c;
    }
    assert Verdicts(s');
    assert Grants(s') && OkMeansGranted(s');
    assert CleanIndex(s');
  }

  lemma ElsewhereKeeps(s: State, s': State)
    requires Inv(s) && s' == s.(now := s'.now, hosts := s'.hosts, live := s'.live, grantTasks := s'.grantTasks)
    ensures Inv(s')
  {
  }

  lemma StepKeeps(s: State, a: Action)
    requires Inv(s) && Enabled(s, a)
    ensures Inv(Apply(s, a))
  {
    match a {
      case OpenStream(_, _, _, _, _, _) => OpenKeeps(s, a);
      case Join(_, _, sid, _, _, _) =>
        JoinKeeps(s, a);
        ElsewhereKeeps(Perform(s, sid, OnJoin(s, a)), Apply(s, a));
      case GrantDue(sid, _, _, _) =>
        ElectionKeeps(s, a);
        ElsewhereKeeps(Perform(s, sid, OnGrant(s, a)), Apply(s, a));
      case TimerDue(_, _) => TimerKeeps(s, a);
      case Answered(_, _) => AnswerKeeps(s, a);
      case AnswerTimeout(sid) => FailedKeeps(s, sid, NO_ROUTE, true);
      case PipeEnd(sid) => FailedKeeps(s, sid, NO_ROUTE, true);
      case NodeDark(n) =>
        DarkenKeeps(s, n);
        NothingDone(Darken(s, n), 0);
      case Tick(_) =>
        NothingDone(s, 0);
        ElsewhereKeeps(s, Apply(s, a));
      case Members(_, _) =>
        NothingDone(s, 0);
        ElsewhereKeeps(s, Apply(s, a));
    }
  }

  lemma NothingDone(s: State, sid: Sid)
    ensures Perform(s, sid, NOTHING) == s
  {
    assert Pairs({}, sid) == {};
  }

  lemma {:induction false} InvInEveryRun(states: seq<State>, acts: seq<Action>, i: nat)
    requires Run(states, acts) && i < |states|
    ensures Inv(states[i])
  {
    if i > 0 {
      InvInEveryRun(states, acts, i - 1);
      StepKeeps(states[i - 1], acts[i - 1]);
    }
  }

  // ---- the results ---------------------------------------------------------------------------

  lemma {:induction false} TwoEntries(sent: seq<Sent>, i: nat, j: nat)
    requires i < j < |sent| && sent[i].to == sent[j].to
    ensures |Entries(sent, sent[i].to)| >= 2
  {
    var n := |sent| - 1;
    if j < n {
      TwoEntries(sent[..n], i, j);
    } else {
      SomeEntry(sent[..n], i);
    }
  }

  lemma {:induction false} SomeEntry(sent: seq<Sent>, i: nat)
    requires i < |sent|
    ensures |Entries(sent, sent[i].to)| >= 1
  {
    var n := |sent| - 1;
    if i < n {
      SomeEntry(sent[..n], i);
    }
  }

  /** No opener is written two verdict frames: an STFAIL never follows an STOK, nor the reverse. */
  lemma OneVerdictPerOpener(states: seq<State>, acts: seq<Action>, n: nat, i: nat, j: nat)
    requires Run(states, acts) && n < |states| && i < j < |states[n].sent| && states[n].sent[i].to in states[n].openers
    ensures states[n].sent[i].to != states[n].sent[j].to
  {
    InvInEveryRun(states, acts, n);
    if states[n].sent[i].to == states[n].sent[j].to {
      TwoEntries(states[n].sent, i, j);
    }
  }

  /** No stream is granted twice; an addressed one goes to the node asked for,
      an unaddressed one to a claim that no gathered claim outscores; and no
      joiner is told OK without a grant. */
  lemma GrantsInEveryRun(states: seq<State>, acts: seq<Action>, n: nat)
    requires Run(states, acts) && n < |states|
    ensures var s := states[n];
            && (forall i, j | 0 <= i < j < |s.grants| :: s.grants[i].opener != s.grants[j].opener)
            && (forall g <- s.grants :: g.asked != 0 ==> g.node == g.asked)
            && (forall g <- s.grants :: g.asked == 0 ==> forall x <- g.gathered :: x <= g.score)
            && (forall x <- s.sent :: x.reply.Ok? && x.to in s.joiners ==> exists g <- s.grants :: g.joiner == x.to)
  {
    InvInEveryRun(states, acts, n);
  }

  /** The index lists only live streams, under their own nodes; and an opener
      whose stream is not in the table has been hung up on. */
  lemma IndexInEveryRun(states: seq<State>, acts: seq<Action>, n: nat)
    requires Run(states, acts) && n < |states|
    ensures CleanIndex(states[n]) && GoneMeansClosed(states[n])
  {
    InvInEveryRun(states, acts, n);
  }

  /** Claim w scores highest, and is the earliest that does. */
  predicate FirstBest(cs: seq<Claim>, hosts: map<NodeId, seq<int>>, w: nat) {
    && w < |cs|
    && (forall i | 0 <= i < |cs| :: Score(hosts, cs[i].node) <= Score(hosts, cs[w].node))
    && (forall i | 0 <= i < w :: Score(hosts, cs[i].node) < Score(hosts, cs[w].node))
  }

  lemma WinnerIsFirstBest(cs: seq<Claim>, hosts: map<NodeId, seq<int>>)
    requires cs != []
    ensures FirstBest(cs, hosts, Winner(cs, hosts))
  {
    forall i | 0 <= i < |cs|
      ensures Score(hosts, cs[i].node) <= Score(hosts, cs[Winner(cs, hosts)].node)
      ensures i < Winner(cs, hosts) ==> Score(hosts, cs[i].node) < Score(hosts, cs[Winner(cs, hosts)].node)
    {
      WinnerIsBest(cs, hosts, i);
    }
  }

  lemma LoserRefused(cs: seq<Claim>, w: nat, i: nat)
    requires w < |cs| && i < |cs| && i != w
    ensures Sent(cs[i].conn, Fail(BUSY)) in Busies(cs[..w] + cs[w + 1..]) && cs[i].conn in Conns(cs[..w] + cs[w + 1..])
  {
    var losers := cs[..w] + cs[w + 1..];
    var k := if i < w then i else i - 1;
    assert losers[k] == cs[i];
    assert Busies(losers)[k] == Sent(cs[i].conn, Fail(BUSY));
  }

  /** What the opener is told by an election. */
  function ToldByElection(a: Action): seq<Reply>
    requires a.GrantDue?
  {
    if a.joinerUp then [Ok] else if a.openerClosing then [] else [Fail(NO_ROUTE)]
  }

  /** What granting a claim on an unaddressed stream does. */
  lemma GrantEffect(s: State, st: Stream, c: Claim, gathered: seq<int>, a: Action)
    requires a.GrantDue? && st.phase == Open && st.dest == 0
    ensures var g := GrantClaim(s, st, c, gathered, a.joinerUp, a.openerClosing, a.openerUp);
            && g.list == {c.node} && g.frames == [Sent(c.conn, Ok)] + Verdict(st.opener, ToldByElection(a))
            && if a.joinerUp && a.openerUp then
                 g.next.Becomes? && g.next.st.phase == Ready && g.next.st.joiner == Some(c.conn) && g.next.st.dest == c.node && g.unlist == {}
               else g.next.Gone? && {st.opener, c.conn} <= g.closes
  {
  }

  lemma ElectedEffect(s: State, a: Action, st: Stream, w: nat)
    requires a.GrantDue? && a.sid in s.streams && s.streams[a.sid] == st && st.phase == Open && st.dest == 0 && st.claims != []
    requires w == Winner(st.claims, s.hosts)
    ensures var e, losers := OnGrant(s, a), st.claims[..w] + st.claims[w + 1..];
            && Conns(losers) <= e.closes && e.list == {st.claims[w].node}
            && e.frames == Busies(losers) + [Sent(st.claims[w].conn, Ok)] + Verdict(st.opener, ToldByElection(a))
            && if a.joinerUp && a.openerUp then
                 && e.next.Becomes? && e.next.st.phase == Ready && e.next.st.joiner == Some(st.claims[w].conn)
                 && e.next.st.dest == st.claims[w].node && e.unlist == {}
               else e.next.Gone? && {st.opener, st.claims[w].conn} <= e.closes
  {
    var idle := st.(claims := [], granting := false);
    var scores := Scores(st.claims, s.hosts);
    var g := GrantClaim(s, idle, st.claims[w], scores, a.joinerUp, a.openerClosing, a.openerUp);
    GrantEffect(s, idle, st.claims[w], scores, a);
    var losers := st.claims[..w] + st.claims[w + 1..];
    assert OnGrant(s, a) == Then(NOTHING.(next := Becomes(idle), frames := Busies(losers), closes := Conns(losers)), g);
    assert Busies(losers) + ([Sent(st.claims[w].conn, Ok)] + Verdict(st.opener, ToldByElection(a)))
        == Busies(losers) + [Sent(st.claims[w].conn, Ok)] + Verdict(st.opener, ToldByElection(a));
  }

  /** The frames of a verdict that may not be written at all. */
  function Verdict(to: Conn, rs: seq<Reply>): seq<Sent>
    requires |rs| <= 1
  {
    if rs == [] then [] else [Sent(to, rs[0])]
  }

  /** The election among the claims gathered for an unaddressed stream: the first
      of the best is granted and told so; the others are told BUSY and closed.
      With both ends up the opener is told OK and the winner is listed. With the
      winner lost the opener is refused, with the opener lost it is not; either
      way the stream is gone and both connections are closed. */
  lemma ElectionOutcome(s: State, a: Action) returns (w: nat)
    requires Inv(s) && a.GrantDue? && Enabled(s, a)
    requires a.sid in s.streams && s.streams[a.sid].phase == Open && s.streams[a.sid].dest == 0 && s.streams[a.sid].claims != []
    ensures FirstBest(s.streams[a.sid].claims, s.hosts, w)
    ensures var s', st, cs := Apply(s, a), s.streams[a.sid], s.streams[a.sid].claims;
            && (forall i | 0 <= i < |cs| && i != w :: Sent(cs[i].conn, Fail(BUSY)) in s'.sent && cs[i].conn in s'.closed)
            && Sent(cs[w].conn, Ok) in s'.sent && Entries(s'.sent, st.opener) == ToldByElection(a)
            && if a.joinerUp && a.openerUp then
                 && a.sid in s'.streams && s'.streams[a.sid].phase == Ready && (cs[w].node, a.sid) in s'.index
                 && s'.streams[a.sid].joiner == Some(cs[w].conn) && s'.streams[a.sid].dest == cs[w].node
               else a.sid !in s'.streams && {st.opener, cs[w].conn} <= s'.closed
  {
    var st := s.streams[a.sid];
    w := Winner(st.claims, s.hosts);
    WinnerIsFirstBest(st.claims, s.hosts);
    ElectedEffect(s, a, st, w);
    var e := OnGrant(s, a);
    forall i | 0 <= i < |st.claims| && i != w
      ensures Sent(st.claims[i].conn, Fail(BUSY)) in e.frames && st.claims[i].conn in e.closes
    {
      LoserRefused(st.claims, w, i);
    }
    assert e.frames[|st.claims| - 1] == Sent(st.claims[w].conn, Ok);
    ElectionTells(s, a, e.frames, w);
    ElectedState(s, a, e, st.claims[w].node);
  }

  /** The opener's entries after an election. */
  lemma ElectionTells(s: State, a: Action, frames: seq<Sent>, w: nat)
    requires Inv(s) && a.GrantDue? && a.sid in s.streams && s.streams[a.sid].phase == Open && w < |s.streams[a.sid].claims|
    requires var st := s.streams[a.sid];
             frames == Busies(st.claims[..w] + st.claims[w + 1..]) + [Sent(st.claims[w].conn, Ok)] + Verdict(st.opener, ToldByElection(a))
    ensures Entries(s.sent + frames, s.streams[a.sid].opener) == ToldByElection(a)
  {
    var st := s.streams[a.sid];
    var losers := st.claims[..w] + st.claims[w + 1..];
    assert StreamRoles(s.openers, s.joiners, st);
    assert forall c <- losers :: c in st.claims;
    assert st.claims[w] in st.claims;
    EntriesAppend(s.sent, frames, st.opener);
    EntriesAppend(Busies(losers) + [Sent(st.claims[w].conn, Ok)], Verdict(st.opener, ToldByElection(a)), st.opener);
    EntriesAppend(Busies(losers), [Sent(st.claims[w].conn, Ok)], st.opener);
    EntriesNone(Busies(losers), st.opener);
    OneEntry(Sent(st.claims[w].conn, Ok), st.opener);
    if ToldByElection(a) != [] { OneEntry(Sent(st.opener, ToldByElection(a)[0]), st.opener); }
  }

  /** The state after an election, read off its effect. */
  lemma ElectedState(s: State, a: Action, e: Effect, n: NodeId)
    requires a.GrantDue? && Enabled(s, a) && e == OnGrant(s, a) && n in e.list
    ensures Apply(s, a).sent == s.sent + e.frames && Apply(s, a).closed == s.closed + e.closes
    ensures e.next.Becomes? && e.unlist == {} ==> Apply(s, a).streams == s.streams[a.sid := e.next.st] && (n, a.sid) in Apply(s, a).index
    ensures e.next.Gone? ==> a.sid !in Apply(s, a).streams
  {
    assert (n, a.sid) in Pairs(e.list, a.sid);
  }

  // ---- how a handshake ends ----------------------------------------------------------------------

  /** The wait ends in an exception the code does not catch. */
  predicate Escapes(answer: Answer) {
    answer.Stray? || answer.BadFrame? || answer.Broken?
  }

  /** The wait for this stream's answer ends in an exception the code does not
      catch: a stray frame reached the unimported name, or the connection failed
      with an OSError that is not listed. */
  predicate Sticks(a: Action, sid: Sid) {
    a.Answered? && a.sid == sid && Escapes(a.answer)
  }

  predicate Uncaught(acts: seq<Action>, sid: Sid) {
    exists a <- acts :: Sticks(a, sid)
  }

  lemma UncaughtSnoc(acts: seq<Action>, n: nat, sid: Sid)
    requires n < |acts|
    ensures Uncaught(acts[..n + 1], sid) <==> Uncaught(acts[..n], sid) || Sticks(acts[n], sid)
  {
    assert acts[..n + 1] == acts[..n] + [acts[n]];
    assert forall a :: a in acts[..n + 1] <==> a in acts[..n] || a == acts[n];
  }

  /** What a step leaves at a sid: the phase moves only along the handshake,
      and a stream is stuck exactly from such an answer on. */
  predicate PhaseStep(before: map<Sid, Stream>, after: map<Sid, Stream>, a: Action, sid: Sid) {
    && (sid in after ==> after[sid].phase != Joined)
    && ((sid in after && after[sid].phase == Stuck) <==> (Sticks(a, sid) || (sid in before && before[sid].phase == Stuck)))
  }

  lemma EffectPhase(s: State, a: Action, sid: Sid)
    requires Enabled(s, a) && sid == Subject(a)
    requires sid in s.streams ==> s.streams[sid].phase != Joined
    ensures var n := EffectOf(s, a).next;
            && (n.Becomes? ==> n.st.phase != Joined)
            && (n.Becomes? ==>
                  (n.st.phase == Stuck <==> Sticks(a, sid) || (sid in s.streams && s.streams[sid].phase == Stuck)))
            && (n.Gone? ==> sid in s.streams && s.streams[sid].phase != Stuck && !Sticks(a, sid))
            && (n.Keep? ==> !Sticks(a, sid))
  {
    match a {
      case OpenStream(_, _, _, _, _, _) =>
      case Join(conn, node, _, up, closing, openerUp) =>
        if sid in s.streams { GrantPhase(s, s.streams[sid], Claim(conn, node), [], up, closing, openerUp); }
      case GrantDue(_, _, _, _) => ElectionPhase(s, a);
      case TimerDue(_, _) =>
      case Answered(_, _) =>
      case AnswerTimeout(_) =>
      case PipeEnd(_) =>
      case NodeDark(_) =>
      case Tick(_) =>
      case Members(_, _) =>
    }
  }

  /** A grant leaves the stream ready, or gone. */
  lemma GrantPhase(s: State, st: Stream, c: Claim, gathered: seq<int>, up: bool, closing: bool, openerUp: bool)
    ensures var n := GrantClaim(s, st, c, gathered, up, closing, openerUp).next;
            n.Gone? || (n.Becomes? && n.st.phase == Ready)
  {
  }

  lemma ElectionPhase(s: State, a: Action)
    requires a.GrantDue? && Enabled(s, a)
    ensures var n := OnGrant(s, a).next;
            || n.Keep?
            || (a.sid in s.streams && s.streams[a.sid].phase == Open && (n.Gone? || (n.Becomes? && n.st.phase in {Open, Ready})))
  {
    if a.sid in s.streams && s.streams[a.sid].phase == Open && s.streams[a.sid].claims != [] {
      var st := s.streams[a.sid];
      GrantPhase(s, st.(claims := [], granting := false), st.claims[Winner(st.claims, s.hosts)], Scores(st.claims, s.hosts),
                 a.joinerUp, a.openerClosing, a.openerUp);
    }
  }

  lemma DarkPhases(s: State, n: NodeId, sid: Sid)
    requires forall x | x in s.streams :: s.streams[x].phase != Joined
    ensures PhaseStep(s.streams, Apply(s, NodeDark(n)).streams, NodeDark(n), sid)
  {
    NothingDone(Darken(s, n), 0);
  }

  lemma PhaseStepHolds(s: State, a: Action, sid: Sid)
    requires Enabled(s, a) && forall x | x in s.streams :: s.streams[x].phase != Joined
    ensures PhaseStep(s.streams, Apply(s, a).streams, a, sid)
  {
    if a.NodeDark? {
      DarkPhases(s, a.node, sid);
    } else {
      EffectPhase(s, a, Subject(a));
      SubjectOnly(s, a);
    }
  }

  /** A step that is no node's death changes one stream at most. */
  lemma SubjectOnly(s: State, a: Action)
    requires Enabled(s, a) && !a.NodeDark?
    ensures Apply(s, a).streams == StreamsAfter(s.streams, Subject(a), EffectOf(s, a).next)
  {
  }

  /** A stream is stuck if and only if the wait for its joinee's answer ended in
      an exception the code does not catch; and then it is stuck for good. */
  lemma {:induction false} StuckIff(states: seq<State>, acts: seq<Action>, n: nat, sid: Sid)
    requires Run(states, acts) && n < |states|
    ensures forall x | x in states[n].streams :: states[n].streams[x].phase != Joined
    ensures (sid in states[n].streams && states[n].streams[sid].phase == Stuck) <==> Uncaught(acts[..n], sid)
  {
    if n > 0 {
      StuckIff(states, acts, n - 1, sid);
      UncaughtSnoc(acts, n - 1, sid);
      forall x | x in states[n].streams ensures states[n].streams[x].phase != Joined {
        PhaseStepHolds(states[n - 1], acts[n - 1], x);
      }
      PhaseStepHolds(states[n - 1], acts[n - 1], sid);
    }
  }

  ghost predicate Reachable(s: State) {
    exists states, acts :: Run(states, acts) && states[|acts|] == s
  }

  lemma ReachOn(s: State, a: Action)
    requires Reachable(s) && Enabled(s, a)
    ensures Reachable(Apply(s, a))
  {
    var states, acts :| Run(states, acts) && states[|acts|] == s;
    RunOn(states, acts, a, Apply(s, a));
  }

  lemma RunOn(states: seq<State>, acts: seq<Action>, a: Action, s': State)
    requires Run(states, acts) && Enabled(states[|acts|], a) && s' == Apply(states[|acts|], a)
    ensures Run(states + [s'], acts + [a]) && (states + [s'])[|acts + [a]|] == s'
  {
    var ss, aa := states + [s'], acts + [a];
    forall i | 0 <= i < |aa| ensures Enabled(ss[i], aa[i]) && ss[i + 1] == Apply(ss[i], aa[i]) {
      if i < |acts| { assert ss[i] == states[i] && ss[i + 1] == states[i + 1] && aa[i] == acts[i]; }
    }
  }

  lemma AddressedOpen(s: State, a: Action)
    requires a.OpenStream? && a.portOk && a.dest != 0 && {a.node, a.dest} <= s.live && a.node in s.hosts && a.dest in s.hosts
    requires a.sid !in s.streams && Fresh(s, a.conn)
    ensures Enabled(s, a) && a.sid in Apply(s, a).streams
    ensures var st := Apply(s, a).streams[a.sid]; st.phase == Open && !st.implicit && st.dest == a.dest
    ensures Apply(s, a).openers == s.openers + {a.conn} && Apply(s, a).joiners == s.joiners
  {
  }

  lemma AddressedJoin(s: State, a: Action)
    requires a.Join? && a.joinerUp && a.openerUp && Fresh(s, a.conn) && a.sid in s.streams
    requires var st := s.streams[a.sid]; st.phase == Open && !st.implicit && st.dest == a.node && a.node != 0
    ensures Enabled(s, a) && a.sid in Apply(s, a).streams && Apply(s, a).streams[a.sid].phase == Ready
  {
  }

  lemma UncaughtAnswer(s: State, sid: Sid, answer: Answer, ms: nat)
    requires sid in s.streams && s.streams[sid].phase == Ready && Escapes(answer)
    ensures var s' := Apply(s, Answered(sid, answer));
            sid in s'.streams && s'.streams[sid].phase == Stuck && Apply(s', Tick(ms)).streams == s'.streams
  {
  }

  lemma StartReachable(s: State)
    requires s == START.(hosts := map[1 := [], 2 := []], live := {1, 2})
    ensures Reachable(s)
  {
    var none: seq<Action> := [];
    assert Run([START], none) && [START][|none|] == START;
    NothingDone(s, 0);
    ReachOn(START, Members(s.hosts, s.live));
  }

  /** Either way such a stream is reachable, and lasts for any time. */
  lemma StuckReachable(answer: Answer, ms: nat) returns (s: State)
    requires Escapes(answer)
    ensures Reachable(s) && Reachable(Apply(s, Tick(ms)))
    ensures 7 in Apply(s, Tick(ms)).streams && Apply(s, Tick(ms)).streams[7].phase == Stuck
  {
    s := START.(hosts := map[1 := [], 2 := []], live := {1, 2});
    StartReachable(s);
    var a := OpenStream(10, 1, 2, 7, true, false);
    AddressedOpen(s, a);
    ReachOn(s, a);
    s := StuckFrom(Apply(s, a), 11, 7, answer, ms);
  }

  lemma StuckFrom(s0: State, conn: Conn, sid: Sid, answer: Answer, ms: nat) returns (s: State)
    requires Escapes(answer)
    requires Reachable(s0) && Fresh(s0, conn) && sid in s0.streams
    requires var st := s0.streams[sid]; st.phase == Open && !st.implicit && st.dest != 0
    ensures Reachable(s) && Reachable(Apply(s, Tick(ms)))
    ensures sid in Apply(s, Tick(ms)).streams && Apply(s, Tick(ms)).streams[sid].phase == Stuck
  {
    var a := Join(conn, s0.streams[sid].dest, sid, true, false, true);
    AddressedJoin(s0, a);
    ReachOn(s0, a);
    var s1 := Apply(s0, a);
    UncaughtAnswer(s1, sid, answer, ms);
    ReachOn(s1, Answered(sid, answer));
    s := Apply(s1, Answered(sid, answer));
    ReachOn(s, Tick(ms));
  }

  /** Ten seconds after a stream was opened, or one least wait after a late claim,
      once the due timers have run, it is piping or gone, unless it is stuck. */
  lemma BoundedHandshake(states: seq<State>, acts: seq<Action>, n: nat, sid: Sid)
    requires Run(states, acts) && n < |states| && sid in states[n].streams
    requires !Enabled(states[n], TimerDue(sid, false)) && !Enabled(states[n], AnswerTimeout(sid))
    requires Max(states[n].streams[sid].created + 10000, states[n].streams[sid].claimedAt + LEAST_WAIT) <= states[n].now
    ensures states[n].streams[sid].phase == Piping || Uncaught(acts[..n], sid)
  {
    InvInEveryRun(states, acts, n);
    StuckIff(states, acts, n, sid);
    assert StreamRoles(states[n].openers, states[n].joiners, states[n].streams[sid]);
  }

  /** A node's death ends every handshake it takes part in, and no other stream. */
  lemma NodeDeathEndsHandshakes(s: State, n: NodeId, sid: Sid)
    requires Inv(s) && sid in s.streams
    ensures sid in Apply(s, NodeDark(n)).streams <==> !(s.streams[sid].phase == Open && Ends(s.streams[sid], n))
    ensures sid !in Apply(s, NodeDark(n)).streams ==> s.streams[sid].opener in Apply(s, NodeDark(n)).closed
    ensures (n, sid) !in Apply(s, NodeDark(n)).index
  {
    NothingDone(Darken(s, n), 0);
  }

  /** A claim gathered for an unaddressed stream that a step leaves neither
      pending there nor answered on its own connection. */
  predicate Orphaned(s: State, a: Action, sid: Sid, c: Claim)
    requires Enabled(s, a)
  {
    && (sid !in Apply(s, a).streams || c !in Apply(s, a).streams[sid].claims)
    && (forall x <- EffectOf(s, a).frames :: x.to != c.conn)
    && (c.conn !in s.closed ==> c.conn !in Apply(s, a).closed)
  }

  predicate Gathered(s: State, sid: Sid, c: Claim) {
    sid in s.streams && s.streams[sid].phase == Open && s.streams[sid].implicit && c in s.streams[sid].claims
  }

  lemma StaysGathered(s: State, a: Action, sid: Sid, c: Claim)
    requires Enabled(s, a) && Gathered(s, sid, c)
    requires Subject(a) == sid ==> !a.GrantDue? && !a.TimerDue?
    requires !a.NodeDark?
    ensures Gathered(Apply(s, a), sid, c)
  {
    match a {
      case OpenStream(_, _, _, _, _, _) =>
      case Join(_, _, _, _, _, _) =>
      case GrantDue(_, _, _, _) =>
      case TimerDue(_, _) =>
      case Answered(_, _) =>
      case AnswerTimeout(_) =>
      case PipeEnd(_) =>
      case NodeDark(_) =>
      case Tick(_) =>
      case Members(_, _) =>
    }
  }

  /** A gathered claim is dropped without an answer exactly when its stream
      ends before its election: by its deadline, or by the death of its opener's node. */
  lemma OrphanedIff(s: State, a: Action, sid: Sid, c: Claim)
    requires Inv(s) && Enabled(s, a) && Gathered(s, sid, c)
    ensures Orphaned(s, a, sid, c) <==> (a.TimerDue? && a.sid == sid) || (a.NodeDark? && sid in Doomed(s, a.node))
  {
    if a.NodeDark? {
      NothingDone(Darken(s, a.node), 0);
    } else if a.GrantDue? && a.sid == sid {
      ElectionAnswers(s, a, c);
    } else if a.TimerDue? && a.sid == sid {
      assert StreamRoles(s.openers, s.joiners, s.streams[sid]);
    } else {
      StaysGathered(s, a, sid, c);
    }
  }

  lemma UnaddressedOpen(s: State, a: Action)
    requires a.OpenStream? && a.portOk && a.dest == 0 && a.node in s.live && a.node in s.hosts && !(s.live <= {a.node})
    requires a.sid !in s.streams && Fresh(s, a.conn)
    ensures Enabled(s, a) && a.sid in Apply(s, a).streams
    ensures var st := Apply(s, a).streams[a.sid];
            st.phase == Open && st.implicit && !st.granting && st.timer && st.deadline == s.now + BUDGET && st.openerNode == a.node && st.claims == []
    ensures (a.node, a.sid) in Apply(s, a).index
    ensures Apply(s, a).openers == s.openers + {a.conn} && Apply(s, a).joiners == s.joiners
  {
    assert (a.node, a.sid) in Pairs({a.node}, a.sid);
  }

  lemma ClaimGathered(s: State, a: Action)
    requires a.Join? && Fresh(s, a.conn) && a.sid in s.streams && s.streams[a.sid].phase == Open && s.streams[a.sid].implicit
    ensures Enabled(s, a) && Gathered(Apply(s, a), a.sid, Claim(a.conn, a.node)) && Apply(s, a).index == s.index
    ensures Apply(s, a).now == s.now && Apply(s, a).streams[a.sid] == s.streams[a.sid].(claims := s.streams[a.sid].claims + [Claim(a.conn, a.node)], granting := true)
  {
    NothingDone(s, a.sid);
  }

  /** Both ways to orphan a claim are reachable: the deadline, and the death of the opener's node. */
  lemma OrphanReachable(byDeadline: bool) returns (s: State, a: Action)
    ensures Reachable(s) && Enabled(s, a) && Gathered(s, 7, Claim(11, 2)) && Orphaned(s, a, 7, Claim(11, 2))
    ensures if byDeadline then a == TimerDue(7, false) else a == NodeDark(1)
  {
    s := GatheredReachable();
    ReachableInv(s);
    if byDeadline {
      ReachOn(s, Tick(BUDGET));
      NothingDone(s, 0);
      s := s.(now := s.now + BUDGET);
      ReachableInv(s);
      a := TimerDue(7, false);
    } else {
      a := NodeDark(1);
    }
    OrphanedIff(s, a, 7, Claim(11, 2));
  }

  lemma GatheredReachable() returns (s: State)
    ensures Reachable(s) && Gathered(s, 7, Claim(11, 2)) && (1, 7) in s.index
    ensures s.streams[7].timer && s.streams[7].deadline == s.now + BUDGET
  {
    s := START.(hosts := map[1 := [], 2 := []], live := {1, 2});
    StartReachable(s);
    var a := OpenStream(10, 1, 0, 7, true, false);
    assert 2 in s.live && 2 !in {1};
    UnaddressedOpen(s, a);
    ReachOn(s, a);
    s := Gather(Apply(s, a));
  }

  lemma Gather(s0: State) returns (s: State)
    requires Reachable(s0) && Fresh(s0, 11) && 7 in s0.streams && s0.streams[7].phase == Open && s0.streams[7].implicit && (1, 7) in s0.index
    requires s0.streams[7].timer && s0.streams[7].deadline == s0.now + BUDGET
    ensures Reachable(s) && Gathered(s, 7, Claim(11, 2)) && (1, 7) in s.index
    ensures s.streams[7].timer && s.streams[7].deadline == s.now + BUDGET
  {
    var a := Join(11, 2, 7, true, false, true);
    ClaimGathered(s0, a);
    ReachOn(s0, a);
    s := Apply(s0, a);
  }

  lemma ReachableInv(s: State)
    requires Reachable(s)
    ensures Inv(s)
  {
    var states, acts :| Run(states, acts) && states[|acts|] == s;
    InvInEveryRun(states, acts, |acts|);
  }

  lemma ElectionAnswers(s: State, a: Action, c: Claim)
    requires a.GrantDue? && Enabled(s, a) && a.sid in s.streams && s.streams[a.sid].phase == Open && c in s.streams[a.sid].claims
    ensures exists x <- OnGrant(s, a).frames :: x.to == c.conn
  {
    var cs := s.streams[a.sid].claims;
    var w := Winner(cs, s.hosts);
    var i :| 0 <= i < |cs| && cs[i] == c;
    ElectionFrames(s, a, w);
    if i != w {
      LoserRefused(cs, w, i);
      assert Sent(c.conn, Fail(BUSY)) in OnGrant(s, a).frames;
    } else {
      assert OnGrant(s, a).frames[|cs| - 1].to == c.conn;
    }
  }

  /** An election writes BUSY to every loser, and then to the winner. */
  lemma ElectionFrames(s: State, a: Action, w: nat)
    requires a.GrantDue? && a.sid in s.streams && s.streams[a.sid].phase == Open && s.streams[a.sid].claims != []
    requires w == Winner(s.streams[a.sid].claims, s.hosts)
    ensures var cs, f := s.streams[a.sid].claims, OnGrant(s, a).frames;
            |f| >= |cs| && f[..|cs| - 1] == Busies(cs[..w] + cs[w + 1..]) && f[|cs| - 1].to == cs[w].conn
  {
  }
}
