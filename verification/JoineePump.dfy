/** The joinee's full-duplex pump (hook/hk_stream.c:1092-1210, 1269-1302): one
    hold slot a direction between the game's socket and the relay's, both
    nonblocking, and the final drain. Linux branch. */
module JoineePump {
  import opened Wire

  const SLOT := 65536

  /** What a nonblocking send does: it takes some bytes, would block, or fails. */
  datatype SendResult = Took(k: nat) | Busy | Failed

  /** What a nonblocking recv does. */
  datatype RecvResult = Data(bytes: seq<byte>) | Eof | Again | Error

  /** What the environment does in one turn of the loop. A flag without its
      bit in the select sets is ignored, as select would not report it. */
  datatype Turn = Turn(running: bool, dead: bool, selected: bool,
                       relayWritable: bool, toRelay: SendResult, gameWritable: bool, toGame: SendResult,
                       gameReadable: bool, fromGame: RecvResult, relayReadable: bool, fromRelay: RecvResult)

  predicate Proper(t: Turn) {
    && (t.toRelay.Took? ==> t.toRelay.k > 0) && (t.toGame.Took? ==> t.toGame.k > 0)
    && (t.fromGame.Data? ==> 0 < |t.fromGame.bytes| <= SLOT) && (t.fromRelay.Data? ==> 0 < |t.fromRelay.bytes| <= SLOT)
  }

  /** One direction: every byte read from its source, every byte its sink took, and the hold between. */
  datatype Side = Side(got: seq<byte>, gave: seq<byte>, hold: seq<byte>)

  /** `shutAt` and `eofAt` record how many bytes the sink had when the FIN was passed on. */
  datatype Pump = Pump(outward: Side, inward: Side, finGame: bool, finRelay: bool,
                       shut: Option<nat>, eof: Option<nat>, done: bool)

  const START := Pump(Side([], [], []), Side([], [], []), false, false, None, None, false)

  function Min(a: nat, b: nat): nat {
    if a <= b then a else b
  }

  function Give(s: Side, k: nat): Side
    requires k <= |s.hold|
  {
    s.(gave := s.gave + s.hold[..k], hold := s.hold[k..])
  }

  /** A send from the hold, when the socket was selected for it. */
  function AfterSend(s: Side, ready: bool, r: SendResult): Side {
    if ready && s.hold != [] && r.Took? then Give(s, Min(r.k, |s.hold|)) else s
  }

  function Take(s: Side, bytes: seq<byte>): Side {
    s.(got := s.got + bytes, hold := bytes)
  }

  /** The FIN frames due at the top of the loop. */
  function PassFins(p: Pump): Pump {
    p.(shut := if p.shut == None && p.finGame && p.outward.hold == [] then Some(|p.outward.gave|) else p.shut,
       eof := if p.eof == None && p.finRelay && p.inward.hold == [] then Some(|p.inward.gave|) else p.eof)
  }

  function Sends(p: Pump, t: Turn): Pump {
    p.(outward := AfterSend(p.outward, t.relayWritable, t.toRelay), inward := AfterSend(p.inward, t.gameWritable, t.toGame))
  }

  predicate SendFails(s: Side, ready: bool, r: SendResult) {
    s.hold != [] && ready && r.Failed?
  }

  /** The game is read when its hold was empty before the sends and its FIN not seen. */
  predicate ReadsGame(p: Pump, t: Turn) {
    p.outward.hold == [] && !p.finGame && t.gameReadable
  }

  predicate ReadsRelay(p: Pump, t: Turn) {
    p.inward.hold == [] && !p.finRelay && t.relayReadable
  }

  /** One turn. */
  function Step(p: Pump, t: Turn): Pump {
    if p.done || !t.running || t.dead || (p.finRelay && p.finGame) then p.(done := true)
    else if !t.selected then PassFins(p)
    else Moves(PassFins(p), t)
  }

  /** The socket calls of a turn, in the code's order. */
  function Moves(q: Pump, t: Turn): Pump {
    if SendFails(q.outward, t.relayWritable, t.toRelay) then q.(done := true)
    else if SendFails(q.inward, t.gameWritable, t.toGame) then Sends(q, t.(toGame := Busy)).(done := true)
    else ReadRelay(q, ReadGame(q, Sends(q, t), t), t)
  }

  function ReadGame(q: Pump, r: Pump, t: Turn): Pump {
    if !ReadsGame(q, t) || t.fromGame.Again? then r
    else r.(outward := if t.fromGame.Data? then Take(r.outward, t.fromGame.bytes) else r.outward,
            finGame := t.fromGame.Eof?, done := t.fromGame.Error?)
  }

  /** The game's EOF, or its socket running dry, ends the turn before the relay is read. */
  function ReadRelay(q: Pump, r: Pump, t: Turn): Pump {
    if (ReadsGame(q, t) && !t.fromGame.Data?) || !ReadsRelay(q, t) || t.fromRelay.Again? then r
    else r.(inward := if t.fromRelay.Data? then Take(r.inward, t.fromRelay.bytes) else r.inward,
            finRelay := t.fromRelay.Eof?, done := t.fromRelay.Error?)
  }

  function Run(p: Pump, ts: seq<Turn>): Pump {
    if ts == [] then p else Step(Run(p, ts[..|ts| - 1]), ts[|ts| - 1])
  }

  // ---- what every run keeps ---------------------------------------------------------

  /** Bytes read are bytes delivered and the hold, and a FIN is passed on only
      after everything its source sent reached the sink. */
  predicate Conserved(s: Side, fin: bool, passed: Option<nat>) {
    && s.got == s.gave + s.hold && |s.hold| <= SLOT
    && (passed.Some? ==> fin && s.hold == [] && passed.value == |s.got|)
  }

  predicate Inv(p: Pump) {
    Conserved(p.outward, p.finGame, p.shut) && Conserved(p.inward, p.finRelay, p.eof)
  }

  lemma SendKeeps(s: Side, fin: bool, passed: Option<nat>, ready: bool, r: SendResult)
    requires Conserved(s, fin, passed)
    ensures Conserved(AfterSend(s, ready, r), fin, passed)
  {
  }

  lemma SendsKeep(p: Pump, t: Turn)
    requires Inv(p)
    ensures Inv(Sends(p, t))
    ensures p.outward.hold == [] ==> Sends(p, t).outward == p.outward
    ensures p.inward.hold == [] ==> Sends(p, t).inward == p.inward
  {
    SendKeeps(p.outward, p.finGame, p.shut, t.relayWritable, t.toRelay);
    SendKeeps(p.inward, p.finRelay, p.eof, t.gameWritable, t.toGame);
  }

  lemma ReadGameKeeps(q: Pump, r: Pump, t: Turn)
    requires Inv(r) && Proper(t) && r.finGame == q.finGame && (q.outward.hold == [] ==> r.outward.hold == [])
    ensures Inv(ReadGame(q, r, t)) && ReadGame(q, r, t).inward == r.inward && ReadGame(q, r, t).finRelay == r.finRelay
  {
  }

  lemma ReadRelayKeeps(q: Pump, r: Pump, t: Turn)
    requires Inv(r) && Proper(t) && r.finRelay == q.finRelay && (q.inward.hold == [] ==> r.inward.hold == [])
    ensures Inv(ReadRelay(q, r, t))
  {
  }

  lemma MovesKeep(q: Pump, t: Turn)
    requires Inv(q) && Proper(t)
    ensures Inv(Moves(q, t))
  {
    SendsKeep(q, t);
    SendsKeep(q, t.(toGame := Busy));
    ReadGameKeeps(q, Sends(q, t), t);
    ReadRelayKeeps(q, ReadGame(q, Sends(q, t), t), t);
  }

  lemma StepKeeps(p: Pump, t: Turn)
    requires Inv(p) && Proper(t)
    ensures Inv(Step(p, t))
  {
    assert Inv(PassFins(p));
    MovesKeep(PassFins(p), t);
  }

  /** In every run, in each direction, bytes read are bytes delivered followed
      by the hold; STSHUT is queued only when the relay's socket has every byte
      the game sent, and the game gets its FIN only after every relay byte. */
  lemma {:induction false} ConservedInEveryRun(ts: seq<Turn>)
    requires forall t <- ts :: Proper(t)
    ensures Inv(Run(START, ts))
  {
    if ts != [] {
      ConservedInEveryRun(ts[..|ts| - 1]);
      StepKeeps(Run(START, ts[..|ts| - 1]), ts[|ts| - 1]);
    }
  }

  // ---- independence of the directions -----------------------------------------------------

  /** Two turns that treat the game-to-relay direction alike. */
  predicate SameOutward(t: Turn, u: Turn) {
    && t.selected == u.selected && t.relayWritable == u.relayWritable && t.toRelay == u.toRelay
    && t.gameReadable == u.gameReadable && t.fromGame == u.fromGame
  }

  lemma OutwardStep(p: Pump, q: Pump, t: Turn, u: Turn)
    requires p.outward == q.outward && p.finGame == q.finGame && p.shut == q.shut && SameOutward(t, u)
    requires !Step(p, t).done && !Step(q, u).done
    ensures Step(p, t).outward == Step(q, u).outward && Step(p, t).finGame == Step(q, u).finGame
    ensures Step(p, t).shut == Step(q, u).shut
  {
    var p1, q1 := PassFins(p), PassFins(q);
    if t.selected {
      OutwardMoves(p1, q1, t, u);
    }
  }

  lemma OutwardMoves(p: Pump, q: Pump, t: Turn, u: Turn)
    requires p.outward == q.outward && p.finGame == q.finGame && p.shut == q.shut && SameOutward(t, u)
    requires !Moves(p, t).done && !Moves(q, u).done
    ensures Moves(p, t).outward == Moves(q, u).outward && Moves(p, t).finGame == Moves(q, u).finGame
    ensures Moves(p, t).shut == Moves(q, u).shut
  {
    var p2, q2 := Sends(p, t), Sends(q, u);
    assert p2.outward == q2.outward;
    var p3, q3 := ReadGame(p, p2, t), ReadGame(q, q2, u);
    assert p3.outward == q3.outward && p3.finGame == q3.finGame && p3.shut == q3.shut;
  }

  /** A stalled game, or a silent relay, never touches the bytes going the other
      way: runs that agree on the game-to-relay sockets move the same bytes
      there, whatever happens on the others, as long as neither has ended. */
  lemma {:induction false} OutwardIndependent(ts: seq<Turn>, us: seq<Turn>)
    requires |ts| == |us| && forall i | 0 <= i < |ts| :: SameOutward(ts[i], us[i])
    requires !Run(START, ts).done && !Run(START, us).done
    ensures var p, q := Run(START, ts), Run(START, us); p.outward == q.outward && p.finGame == q.finGame && p.shut == q.shut
  {
    if ts != [] {
      var n := |ts| - 1;
      OutwardIndependent(ts[..n], us[..n]);
      OutwardStep(Run(START, ts[..n]), Run(START, us[..n]), ts[n], us[n]);
    }
  }

  /** The turn gets as far as the relay's socket: the game's EOF, or its socket
      running dry, ends it before. */
  predicate RelayReached(p: Pump, t: Turn) {
    t.relayReadable && !(ReadsGame(PassFins(p), t) && !t.fromGame.Data?)
  }

  /** Two turns that treat the relay-to-game direction alike, the second of them
      at another pump. */
  predicate SameInward(p: Pump, q: Pump, t: Turn, u: Turn) {
    && t.selected == u.selected && t.gameWritable == u.gameWritable && t.toGame == u.toGame
    && RelayReached(p, t) == RelayReached(q, u) && t.fromRelay == u.fromRelay
  }

  lemma InwardMoves(p: Pump, q: Pump, t: Turn, u: Turn)
    requires p.inward == q.inward && p.finRelay == q.finRelay && p.eof == q.eof
    requires t.gameWritable == u.gameWritable && t.toGame == u.toGame && t.fromRelay == u.fromRelay
    requires (t.relayReadable && !(ReadsGame(p, t) && !t.fromGame.Data?)) == (u.relayReadable && !(ReadsGame(q, u) && !u.fromGame.Data?))
    requires !Moves(p, t).done && !Moves(q, u).done
    ensures Moves(p, t).inward == Moves(q, u).inward && Moves(p, t).finRelay == Moves(q, u).finRelay
    ensures Moves(p, t).eof == Moves(q, u).eof
  {
    var p2, q2 := ReadGame(p, Sends(p, t), t), ReadGame(q, Sends(q, u), u);
    assert p2.inward == q2.inward && p2.finRelay == q2.finRelay && p2.eof == q2.eof;
  }

  lemma InwardStep(p: Pump, q: Pump, t: Turn, u: Turn)
    requires p.inward == q.inward && p.finRelay == q.finRelay && p.eof == q.eof && SameInward(p, q, t, u)
    requires !Step(p, t).done && !Step(q, u).done
    ensures Step(p, t).inward == Step(q, u).inward && Step(p, t).finRelay == Step(q, u).finRelay
    ensures Step(p, t).eof == Step(q, u).eof
  {
    if t.selected {
      InwardMoves(PassFins(p), PassFins(q), t, u);
    }
  }

  /** The relay-to-game direction likewise: all the game-to-relay side can do to
      it is to put off a read of the relay by a turn. */
  lemma {:induction false} InwardIndependent(ts: seq<Turn>, us: seq<Turn>)
    requires |ts| == |us| && forall i | 0 <= i < |ts| :: SameInward(Run(START, ts[..i]), Run(START, us[..i]), ts[i], us[i])
    requires !Run(START, ts).done && !Run(START, us).done
    ensures var p, q := Run(START, ts), Run(START, us); p.inward == q.inward && p.finRelay == q.finRelay && p.eof == q.eof
  {
    if ts != [] {
      var n := |ts| - 1;
      forall i | 0 <= i < n ensures SameInward(Run(START, ts[..n][..i]), Run(START, us[..n][..i]), ts[..n][i], us[..n][i]) {
        assert ts[..n][..i] == ts[..i] && us[..n][..i] == us[..i];
        assert SameInward(Run(START, ts[..i]), Run(START, us[..i]), ts[i], us[i]);
      }
      InwardIndependent(ts[..n], us[..n]);
      InwardStep(Run(START, ts[..n]), Run(START, us[..n]), ts[n], us[n]);
    }
  }

  // ---- the final drain -----------------------------------------------------------------------

  /** One send of the drain: a failure drops the hold. */
  function DrainStep(s: Side, r: SendResult): Side {
    if s.hold == [] then s else if r.Failed? then s.(hold := []) else AfterSend(s, true, r)
  }

  function Drain(s: Side, rs: seq<SendResult>): Side {
    if rs == [] then s else DrainStep(Drain(s, rs[..|rs| - 1]), rs[|rs| - 1])
  }

  /** How many bytes the sink is ready to take before it first fails. */
  function Room(rs: seq<SendResult>): nat {
    if rs == [] || rs[0].Failed? then 0 else (if rs[0].Took? then rs[0].k else 0) + Room(rs[1..])
  }

  predicate Fails(rs: seq<SendResult>) {
    exists r <- rs :: r.Failed?
  }

  lemma {:induction false} RoomEnd(rs: seq<SendResult>)
    requires rs != []
    ensures Fails(rs) <==> Fails(rs[..|rs| - 1]) || rs[|rs| - 1].Failed?
    ensures Room(rs) == Room(rs[..|rs| - 1]) + (if Fails(rs[..|rs| - 1]) || !rs[|rs| - 1].Took? then 0 else rs[|rs| - 1].k)
  {
    var n := |rs| - 1;
    assert rs == rs[..n] + [rs[n]];
    if n > 0 && !rs[0].Failed? {
      RoomEnd(rs[1..]);
      assert rs[..n][1..] == rs[1..][..n - 1];
      assert rs[..n] == [rs[0]] + rs[1..][..n - 1];
    }
  }

  /** The drain delivers, in order, as many held bytes as the sink makes room for
      before it fails or the deadline comes; what was read reaches the sink
      exactly when that is all of the hold. */
  lemma {:induction false} DrainDelivers(s: Side, rs: seq<SendResult>)
    requires s.got == s.gave + s.hold
    ensures Drain(s, rs).gave == s.gave + s.hold[..Min(Room(rs), |s.hold|)]
    ensures Drain(s, rs).gave == s.got <==> |s.hold| <= Room(rs)
    ensures Drain(s, rs).hold == if Fails(rs) then [] else s.hold[Min(Room(rs), |s.hold|)..]
  {
    if rs != [] {
      var n := |rs| - 1;
      DrainDelivers(s, rs[..n]);
      RoomEnd(rs);
      DrainOneMore(s, Drain(s, rs[..n]), rs[n], Min(Room(rs[..n]), |s.hold|), Fails(rs[..n]));
    }
  }

  /** One more answer of the sink, after m bytes of the hold have gone. */
  lemma DrainOneMore(s: Side, d: Side, r: SendResult, m: nat, failed: bool)
    requires m <= |s.hold| && d.gave == s.gave + s.hold[..m] && d.hold == if failed then [] else s.hold[m..]
    ensures var k := if failed || !r.Took? then m else Min(m + r.k, |s.hold|);
            DrainStep(d, r).gave == s.gave + s.hold[..k] && DrainStep(d, r).hold == if failed || r.Failed? then [] else s.hold[k..]
  {
    if !failed && r.Took? {
      var j := Min(r.k, |d.hold|);
      assert s.hold[..m] + s.hold[m..][..j] == s.hold[..m + j];
      assert s.hold[m..][j..] == s.hold[m + j..];
    }
  }

  // ---- the code over its two buffers ------------------------------------------------------------

  /** A hold slot: a fixed buffer with the read and write offsets of its unsent bytes. */
  class Slot {
    const buf: array<byte>
    var n: nat
    var o: nat

    ghost predicate Valid()
      reads this
    {
      buf.Length == SLOT && o <= n <= SLOT
    }

    ghost function Held(): seq<byte>
      requires Valid()
      reads this, buf
    {
      buf[o..n]
    }

    constructor ()
      ensures Valid() && fresh(buf) && Held() == []
    {
      buf := new byte[SLOT](_ => 0);
      n, o := 0, 0;
    }

    /** A recv into the buffer; only an empty slot is ever written. */
    method Fill(bytes: seq<byte>)
      requires Valid() && Held() == [] && |bytes| <= SLOT
      modifies this, buf
      ensures Valid() && Held() == bytes
    {
      var i := 0;
      while i < |bytes|
        invariant 0 <= i <= |bytes| && buf[..i] == bytes[..i]
        modifies buf
      {
        buf[i] := bytes[i];
        i := i + 1;
      }
      n, o := |bytes|, 0;
    }

    /** The bytes a send took. */
    method Advance(k: nat)
      requires Valid() && k <= n - o
      modifies this
      ensures Valid() && Held() == old(Held())[k..]
    {
      o := o + k;
      if o >= n {
        n, o := 0, 0;
      }
    }

    /** One nonblocking send of the slot's bytes; false when the socket failed. */
    method SendOut(r: SendResult, ghost s: Side) returns (ok: bool)
      requires Valid() && s.hold == Held()
      modifies this
      ensures Valid() && ok == !r.Failed? && Held() == AfterSend(s, true, r).hold
    {
      ok := !r.Failed?;
      if r.Took? && n > o {
        Advance(Min(r.k, n - o));
      }
    }

    /** One turn of the final drain. */
    method DrainOnce(r: SendResult, ghost s: Side)
      requires Valid() && s.hold == Held()
      modifies this
      ensures Valid() && Held() == DrainStep(s, r).hold
    {
      if n > o {
        if r.Failed? {
          n, o := 0, 0;
        } else {
          var _ := SendOut(r, s);
        }
      }
    }
  }

  predicate SendsFail(q: Pump, t: Turn) {
    SendFails(q.outward, t.relayWritable, t.toRelay) || SendFails(q.inward, t.gameWritable, t.toGame)
  }

  /** The pump after its sends, the second made only if the first did not fail. */
  function Sent(q: Pump, t: Turn): Pump {
    q.(outward := AfterSend(q.outward, t.relayWritable, t.toRelay),
       inward := if SendFails(q.outward, t.relayWritable, t.toRelay) then q.inward else AfterSend(q.inward, t.gameWritable, t.toGame))
  }

  lemma MovesCases(q: Pump, t: Turn)
    requires !q.done
    ensures SendsFail(q, t) ==> Moves(q, t) == Sent(q, t).(done := true)
    ensures !SendsFail(q, t) ==> Sent(q, t) == Sends(q, t) && Moves(q, t) == ReadRelay(q, ReadGame(q, Sent(q, t), t), t)
  {
  }

  /** The pump's loop and final drain. `p` follows it; what the sinks were handed is p's. */
  class Bridge {
    const op: Slot // game to relay
    const ip: Slot // relay to game
    var finReal: bool
    var finFd: bool
    var shutSent: bool
    var eofSent: bool
    ghost var p: Pump

    ghost predicate Valid()
      reads this, op, ip, op.buf, ip.buf
    {
      && op != ip && op.buf != ip.buf && op.Valid() && ip.Valid()
      && op.Held() == p.outward.hold && ip.Held() == p.inward.hold
      && finReal == p.finGame && finFd == p.finRelay && shutSent == p.shut.Some? && eofSent == p.eof.Some?
    }

    constructor ()
      ensures Valid() && p == START && fresh(op) && fresh(ip) && fresh(op.buf) && fresh(ip.buf)
    {
      op := new Slot();
      ip := new Slot();
      finReal, finFd, shutSent, eofSent := false, false, false, false;
      p := START;
    }

    method Fins()
      requires Valid()
      modifies this
      ensures Valid() && p == PassFins(old(p))
    {
      if !shutSent && finReal && op.n == op.o {
        shutSent := true;
      }
      if finFd && !eofSent && ip.n == ip.o {
        eofSent := true;
      }
      p := PassFins(p);
    }

    /** The send to the relay's socket; false when it failed. */
    method SendRelay(ready: bool, r: SendResult) returns (ok: bool)
      requires Valid()
      modifies this`p, op
      ensures Valid() && ok == !SendFails(old(p).outward, ready, r)
      ensures p == old(p).(outward := AfterSend(old(p).outward, ready, r))
      ensures p.outward.hold == [] || (op.n > op.o)
    {
      ok := true;
      if op.n > op.o && ready {
        ok := op.SendOut(r, p.outward);
        p := p.(outward := AfterSend(p.outward, true, r));
      }
    }

    /** The send to the game's socket. */
    method SendGame(ready: bool, r: SendResult) returns (ok: bool)
      requires Valid()
      modifies this`p, ip
      ensures Valid() && ok == !SendFails(old(p).inward, ready, r)
      ensures p == old(p).(inward := AfterSend(old(p).inward, ready, r))
    {
      ok := true;
      if ip.n > ip.o && ready {
        ok := ip.SendOut(r, p.inward);
        p := p.(inward := AfterSend(p.inward, true, r));
      }
    }

    /** Both sends of a turn; the second is not tried when the first failed. */
    method SendBoth(t: Turn) returns (ok: bool)
      requires Valid()
      modifies this`p, op, ip
      ensures Valid() && ok == !SendsFail(old(p), t)
      ensures p == Sent(old(p), t)
    {
      ok := SendRelay(t.relayWritable, t.toRelay);
      if ok {
        ok := SendGame(t.gameWritable, t.toGame);
      }
    }

    /** The recv from the game; false when the turn ends here. */
    method RecvGame(r: RecvResult) returns (more: bool, broke: bool)
      requires Valid() && p.outward.hold == [] && (r.Data? ==> |r.bytes| <= SLOT)
      modifies this`p, this`finReal, op, op.buf
      ensures Valid() && more == r.Data? && broke == r.Error?
      ensures p == if r.Data? then old(p).(outward := Take(old(p).outward, r.bytes))
                   else if r.Eof? then old(p).(finGame := true) else old(p)
    {
      more, broke := r.Data?, r.Error?;
      if r.Eof? {
        finReal := true;
        p := p.(finGame := true);
      }
      if r.Data? {
        op.Fill(r.bytes);
        p := p.(outward := Take(p.outward, r.bytes));
      }
    }

    method RecvRelay(r: RecvResult) returns (broke: bool)
      requires Valid() && p.inward.hold == [] && (r.Data? ==> |r.bytes| <= SLOT)
      modifies this`p, this`finFd, ip, ip.buf
      ensures Valid() && broke == r.Error?
      ensures p == if r.Data? then old(p).(inward := Take(old(p).inward, r.bytes))
                   else if r.Eof? then old(p).(finRelay := true) else old(p)
    {
      broke := r.Error?;
      if r.Eof? {
        finFd := true;
        p := p.(finRelay := true);
      }
      if r.Data? {
        ip.Fill(r.bytes);
        p := p.(inward := Take(p.inward, r.bytes));
      }
    }

    /** The recvs of a turn whose sends have been made; `q` is the pump before those. */
    method Recvs(t: Turn, opend: bool, ipend: bool, ghost q: Pump) returns (broke: bool)
      requires Valid() && Proper(t) && p == Sends(q, t) && !p.done
      requires opend == (q.outward.hold != []) && ipend == (q.inward.hold != [])
      modifies this`p, this`finReal, this`finFd, op, ip, op.buf, ip.buf
      ensures Valid() && p == ReadRelay(q, ReadGame(q, old(p), t), t).(done := false)
      ensures broke == ReadRelay(q, ReadGame(q, old(p), t), t).done
    {
      broke := false;
      var more := true;
      if !opend && !finReal && t.gameReadable {
        more, broke := RecvGame(t.fromGame);
      }
      assert p == ReadGame(q, old(p), t).(done := false) && broke == ReadGame(q, old(p), t).done;
      if more && !ipend && !finFd && t.relayReadable {
        broke := RecvRelay(t.fromRelay);
      }
    }

    /** The socket calls of a turn; true when the loop breaks. */
    method SocketCalls(t: Turn) returns (broke: bool)
      requires Valid() && Proper(t) && !p.done
      modifies this`p, this`finReal, this`finFd, op, ip, op.buf, ip.buf
      ensures Valid() && p == Moves(old(p), t).(done := false) && broke == Moves(old(p), t).done
    {
      var opend, ipend := op.n > op.o, ip.n > ip.o;
      assert opend == (p.outward.hold != []) && ipend == (p.inward.hold != []);
      MovesCases(p, t);
      var ok := SendBoth(t);
      broke := !ok;
      if !broke {
        broke := Recvs(t, opend, ipend, old(p));
      }
    }

    /** The loop, over the turns the environment takes. */
    method Loop(ts: seq<Turn>) returns (used: nat)
      requires Valid() && p == START && forall t <- ts :: Proper(t)
      modifies this, op, ip, op.buf, ip.buf
      ensures Valid() && used <= |ts| && p == Run(START, ts[..used]).(done := false)
      ensures used < |ts| ==> Run(START, ts[..used]).done
    {
      used := 0;
      var broke := false;
      while used < |ts| && !broke
        invariant 0 <= used <= |ts| && Valid() && p == Run(START, ts[..used]).(done := false) && broke == Run(START, ts[..used]).done
      {
        var t := ts[used];
        used := used + 1;
        assert ts[..used][..used - 1] == ts[..used - 1];
        if !t.running || t.dead || (finFd && finReal) {
          broke := true;
        } else {
          Fins();
          if t.selected {
            broke := SocketCalls(t);
          }
        }
      }
    }

    method DrainBoth(toGame: SendResult, toRelay: SendResult)
      requires Valid()
      modifies this`p, op, ip
      ensures Valid()
      ensures p == old(p).(inward := DrainStep(old(p).inward, toGame), outward := DrainStep(old(p).outward, toRelay))
    {
      DrainIn(toGame);
      DrainOut(toRelay);
    }

    method DrainIn(r: SendResult)
      requires Valid()
      modifies this`p, ip
      ensures Valid() && p == old(p).(inward := DrainStep(old(p).inward, r))
    {
      ip.DrainOnce(r, p.inward);
      p := p.(inward := DrainStep(p.inward, r));
    }

    method DrainOut(r: SendResult)
      requires Valid()
      modifies this`p, op
      ensures Valid() && p == old(p).(outward := DrainStep(old(p).outward, r))
    {
      op.DrainOnce(r, p.outward);
      p := p.(outward := DrainStep(p.outward, r));
    }

    /** The final drain, over the answers of the sockets until its deadline. */
    method FinalDrain(toGame: seq<SendResult>, toRelay: seq<SendResult>)
      requires Valid() && |toGame| == |toRelay|
      modifies this`p, op, ip
      ensures Valid()
      ensures p.inward == Drain(old(p).inward, toGame) && p.outward == Drain(old(p).outward, toRelay)
    {
      var i := 0;
      while (ip.n > ip.o || op.n > op.o) && i < |toGame|
        invariant 0 <= i <= |toGame| && Valid()
        invariant p == old(p).(inward := Drain(old(p).inward, toGame[..i]), outward := Drain(old(p).outward, toRelay[..i]))
      {
        assert toGame[..i + 1][..i] == toGame[..i] && toRelay[..i + 1][..i] == toRelay[..i];
        DrainBoth(toGame[i], toRelay[i]);
        i := i + 1;
      }
      Drained(old(p).inward, toGame, i);
      Drained(old(p).outward, toRelay, i);
    }
  }

  /** An empty hold has nothing more to drain. */
  lemma {:induction false} Drained(s: Side, rs: seq<SendResult>, i: nat)
    requires i <= |rs| && (i == |rs| || Drain(s, rs[..i]).hold == [])
    ensures Drain(s, rs) == Drain(s, rs[..i])
  {
    if i < |rs| {
      assert rs[..|rs| - 1][..i] == rs[..i];
      Drained(s, rs[..|rs| - 1], i);
    } else {
      assert rs[..i] == rs;
    }
  }
}
