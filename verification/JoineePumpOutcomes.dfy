/** What one turn of the joinee's pump does, in each direction, told by the bytes
    before and after (hook/hk_stream.c:1092-1210). */
module JoineePumpOutcomes {
  import opened Wire
  import opened JoineePump

  /** The loop takes this turn. */
  predicate Goes(p: Pump, t: Turn) {
    !p.done && t.running && !t.dead && !(p.finGame && p.finRelay)
  }

  /** The loop ends, with nothing moved, when the process stops, the stream is dead, or
      both sides have sent their FIN. */
  lemma StopOutcome(p: Pump, t: Turn)
    requires !Goes(p, t)
    ensures var p' := Step(p, t);
            p'.done && p'.outward == p.outward && p'.inward == p.inward && p'.shut == p.shut && p'.eof == p.eof
  {
  }

  /** A FIN is passed on at the top of the first turn that finds its side's hold empty,
      once: the game's as an STSHUT, the relay's as a shutdown of the game's socket. */
  lemma FinsOutcome(p: Pump, t: Turn)
    requires Goes(p, t)
    ensures Step(p, t).shut == if p.shut == None && p.finGame && p.outward.hold == [] then Some(|p.outward.gave|) else p.shut
    ensures Step(p, t).eof == if p.eof == None && p.finRelay && p.inward.hold == [] then Some(|p.inward.gave|) else p.eof
  {
  }

  /** Without an event a turn moves nothing and the loop goes on. */
  lemma IdleOutcome(p: Pump, t: Turn)
    requires Goes(p, t) && !t.selected
    ensures var p' := Step(p, t);
            !p'.done && p'.outward == p.outward && p'.inward == p.inward && p'.finGame == p.finGame && p'.finRelay == p.finRelay
  {
  }

  predicate RelayFails(p: Pump, t: Turn) {
    p.outward.hold != [] && t.relayWritable && t.toRelay.Failed?
  }

  predicate GameFails(p: Pump, t: Turn) {
    p.inward.hold != [] && t.gameWritable && t.toGame.Failed?
  }

  /** How many held bytes a socket takes. */
  function Accepts(hold: seq<byte>, ready: bool, r: SendResult): (k: nat)
    ensures k <= |hold|
  {
    if ready && r.Took? then (if r.k <= |hold| then r.k else |hold|) else 0
  }

  /** A send that fails ends the loop: what the other socket took before stays taken,
      and nothing is read. */
  lemma FailureOutcome(p: Pump, t: Turn)
    requires Goes(p, t) && t.selected && (RelayFails(p, t) || GameFails(p, t))
    ensures var p' := Step(p, t);
            && p'.done && p'.inward == p.inward && p'.outward.got == p.outward.got
            && p'.outward.gave == p.outward.gave +
                 (if RelayFails(p, t) then [] else p.outward.hold[..Accepts(p.outward.hold, t.relayWritable, t.toRelay)])
  {
  }

  /** The game is read this turn. */
  predicate GameRead(p: Pump, t: Turn) {
    p.outward.hold == [] && !p.finGame && t.gameReadable
  }

  /** So is the relay: unless the game was read and had nothing. */
  predicate RelayRead(p: Pump, t: Turn) {
    p.inward.hold == [] && !p.finRelay && t.relayReadable && (GameRead(p, t) ==> t.fromGame.Data?)
  }

  /** One direction after a turn: the sink took k held bytes; bytes were read, if any,
      only into an empty hold. */
  predicate Moved(s: Side, s': Side, k: nat, read: bool, r: RecvResult)
    requires k <= |s.hold|
  {
    && s'.gave == s.gave + s.hold[..k]
    && s'.got == s.got + (if read && r.Data? then r.bytes else [])
    && s'.hold == (if read && r.Data? then r.bytes else s.hold[k..])
  }

  /** Any other turn: each sink takes what it is ready for of its hold; each source is read
      when its hold was empty and its FIN not seen, and the relay not after a game that had
      nothing; an EOF is noted, and only an error ends the loop. */
  lemma TurnOutcome(p: Pump, t: Turn)
    requires Goes(p, t) && t.selected && !RelayFails(p, t) && !GameFails(p, t)
    ensures var p' := Step(p, t);
            && Moved(p.outward, p'.outward, Accepts(p.outward.hold, t.relayWritable, t.toRelay), GameRead(p, t), t.fromGame)
            && Moved(p.inward, p'.inward, Accepts(p.inward.hold, t.gameWritable, t.toGame), RelayRead(p, t), t.fromRelay)
            && p'.finGame == (p.finGame || (GameRead(p, t) && t.fromGame.Eof?))
            && p'.finRelay == (p.finRelay || (RelayRead(p, t) && t.fromRelay.Eof?))
            && p'.done == ((GameRead(p, t) && t.fromGame.Error?) || (RelayRead(p, t) && t.fromRelay.Error?))
  {
    var q := PassFins(p);
    Untouched(p.outward, t.relayWritable, t.toRelay);
    Untouched(p.inward, t.gameWritable, t.toGame);
    assert Step(p, t) == ReadRelay(q, ReadGame(q, Sends(q, t), t), t);
  }

  /** A send from one hold. */
  lemma Untouched(s: Side, ready: bool, r: SendResult)
    ensures var k := Accepts(s.hold, ready, r);
            AfterSend(s, ready, r).gave == s.gave + s.hold[..k] && AfterSend(s, ready, r).hold == s.hold[k..] && AfterSend(s, ready, r).got == s.got
  {
    assert s.gave + [] == s.gave;
  }

  /** Each side's FIN leaves the other direction running: with the game's seen, relay
      bytes are still read and still handed to the game; and the reverse. */
  lemma FinLeavesOtherRunning(p: Pump, t: Turn)
    requires Goes(p, t) && t.selected && !RelayFails(p, t) && !GameFails(p, t)
    ensures p.finGame && p.inward.hold == [] && t.relayReadable && t.fromRelay.Data? ==>
              Step(p, t).inward.got == p.inward.got + t.fromRelay.bytes && !Step(p, t).done
    ensures p.finRelay && p.outward.hold == [] && t.gameReadable && t.fromGame.Data? ==>
              Step(p, t).outward.got == p.outward.got + t.fromGame.bytes && !Step(p, t).done
    ensures p.finGame && t.gameWritable && t.toGame.Took? ==>
              Step(p, t).inward.gave == p.inward.gave + p.inward.hold[..Accepts(p.inward.hold, true, t.toGame)]
    ensures p.finRelay && t.relayWritable && t.toRelay.Took? ==>
              Step(p, t).outward.gave == p.outward.gave + p.outward.hold[..Accepts(p.outward.hold, true, t.toRelay)]
  {
    TurnOutcome(p, t);
  }
}
