/** The two per-stream byte queues of the hook, updated in place as linked
    chunk lists with a byte counter (hook/hk_route.c, hook/hk_stream.c). The
    contents are a byte sequence, so each method is the queue half of the
    StreamEngine step of the same name. */
module ChunkQueues {
  import opened Wire
  import opened StreamEngine

  /** One chunk; the bytes before off are consumed. */
  datatype Chunk = Chunk(p: seq<byte>, off: nat)

  /** No empty chunk is ever linked. */
  predicate AllLive(cs: seq<Chunk>) {
    forall i | 0 <= i < |cs| :: cs[i].off < |cs[i].p|
  }

  function Left(c: Chunk): seq<byte>
    requires c.off <= |c.p|
  {
    c.p[c.off..]
  }

  /** The bytes a chunk list still holds. */
  function Flat(cs: seq<Chunk>): seq<byte>
    requires AllLive(cs)
  {
    if cs == [] then [] else Left(cs[0]) + Flat(cs[1..])
  }

  lemma {:induction false} FlatAppend(cs: seq<Chunk>, data: seq<byte>)
    requires AllLive(cs) && data != []
    ensures AllLive(cs + [Chunk(data, 0)])
    ensures Flat(cs + [Chunk(data, 0)]) == Flat(cs) + data
  {
    var cs' := cs + [Chunk(data, 0)];
    if cs == [] {
      assert cs'[1..] == [];
      assert data[0..] == data;
    } else {
      assert cs'[1..] == cs[1..] + [Chunk(data, 0)];
      FlatAppend(cs[1..], data);
      assert Left(cs[0]) + (Flat(cs[1..]) + data) == (Left(cs[0]) + Flat(cs[1..])) + data;
    }
  }

  /** Consume k bytes of the head chunk, and unlink it once it is empty. */
  function Advance(cs: seq<Chunk>, k: nat): seq<Chunk>
    requires cs != [] && cs[0].off + k <= |cs[0].p|
  {
    var c := Chunk(cs[0].p, cs[0].off + k);
    if c.off >= |c.p| then cs[1..] else [c] + cs[1..]
  }

  lemma FlatAdvance(cs: seq<Chunk>, k: nat)
    requires cs != [] && AllLive(cs) && cs[0].off + k <= |cs[0].p|
    ensures AllLive(Advance(cs, k))
    ensures |Flat(cs)| >= |Left(cs[0])|
    ensures Flat(cs) == cs[0].p[cs[0].off..cs[0].off + k] + Flat(Advance(cs, k))
  {
    var c := Chunk(cs[0].p, cs[0].off + k);
    var head := cs[0].p[cs[0].off..c.off];
    assert Left(cs[0]) == head + Left(c);
    if c.off >= |c.p| {
      assert Left(c) == [] && head + [] == head;
    } else {
      FlatCons(c, cs[1..]);
      assert head + (Left(c) + Flat(cs[1..])) == (head + Left(c)) + Flat(cs[1..]);
    }
  }

  lemma FlatCons(c: Chunk, cs: seq<Chunk>)
    requires AllLive(cs) && c.off < |c.p|
    ensures AllLive([c] + cs) && Flat([c] + cs) == Left(c) + Flat(cs)
  {
    assert ([c] + cs)[1..] == cs;
  }

  class OutQueue {
    var attached: bool // an app socket names the stream
    var gone: bool     // closed by the app, or dead
    var wrShut: bool
    var oh: seq<Chunk>
    var ototal: nat
    var wrFull: bool
    var sending: bool
    var flushing: bool
    ghost var queue: seq<byte>

    ghost predicate Valid()
      reads this
    {
      AllLive(oh) && queue == Flat(oh) && ototal == |queue|
    }

    constructor ()
      ensures Valid() && queue == [] && attached && !gone && !wrShut && !wrFull && !sending && !flushing
    {
      attached, gone, wrShut := true, false, false;
      oh, ototal, queue := [], 0, [];
      wrFull, sending, flushing := false, false, false;
    }

    /** dt_stream_send. A write that could ever fit goes in whole or not at all; a
        longer one fills the queue, and is refused only when that is already full. */
    method Send(buf: seq<byte>) returns (r: SendResult)
      requires Valid()
      modifies this`oh, this`ototal, this`queue, this`wrFull
      ensures Valid()
      ensures !attached ==> r == NotOurs
      ensures attached && wrShut ==> r == Epipe
      ensures attached && !wrShut && gone ==> r == Reset
      ensures attached && !wrShut && !gone && |buf| <= 262144 ==>
                r == if |old(queue)| + |buf| <= 262144 then Queued(|buf|) else Full
      ensures attached && !wrShut && !gone && |buf| > 262144 ==>
                r == if |old(queue)| < 262144 then Queued(262144 - |old(queue)|) else Full
      ensures r == SendAnswer(attached, wrShut, gone, |old(queue)|, |buf|)
      ensures queue == old(queue) + if r.Queued? then buf[..r.n] else []
      ensures wrFull == (old(wrFull) || r.Full? || (r.Queued? && r.n < |buf|))
    {
      assert queue + [] == queue;
      if !attached {
        return NotOurs;
      }
      if wrShut {
        return Epipe;
      }
      if gone {
        return Reset;
      }
      var len := |buf|;
      if ototal + len > MAXOUT {
        var room := if ototal < MAXOUT then MAXOUT - ototal else 0;
        if len <= MAXOUT || room == 0 {
          wrFull := true;
          return Full;
        }
        len := room;
        wrFull := true;
      }
      if len > 0 {
        FlatAppend(oh, buf[..len]);
        oh := oh + [Chunk(buf[..len], 0)];
        ototal := ototal + len;
        queue := queue + buf[..len];
      }
      return Queued(len);
    }

    /** The pump takes the head chunk's remainder for one send (0: nothing to take). */
    method TakeForPump() returns (n: nat)
      requires Valid()
      modifies this`sending
      ensures Valid()
      ensures n == 0 <==> queue == [] || flushing
      ensures n == 0 ==> sending == old(sending)
      ensures n > 0 ==> sending && oh != [] && n == |Left(oh[0])| <= |queue|
    {
      n := 0;
      if oh != [] && !flushing {
        n := |oh[0].p| - oh[0].off;
        sending := true;
      }
    }

    /** After the pump's send returned k: account for the bytes, and say when
        blocked senders must be woken. */
    method AccountForPump(k: nat) returns (signal: bool)
      requires Valid() && (k > 0 ==> oh != [] && oh[0].off + k <= |oh[0].p|)
      modifies this`sending, this`oh, this`ototal, this`queue, this`wrFull
      ensures Valid() && !sending
      ensures k <= |old(queue)| && queue == old(queue)[k..]
      ensures wrFull == StillFull(old(wrFull), k, |queue|)
      ensures signal <==> old(wrFull) && !wrFull && attached
    {
      signal := false;
      sending := false;
      if k > 0 {
        FlatAdvance(oh, k);
        oh := Advance(oh, k);
        ototal := ototal - k;
        queue := queue[k..];
        if wrFull && ototal <= WROOM {
          wrFull := false;
          signal := attached;
        }
      }
    }

    /** The exit drain takes the head chunk once no other send is in flight. */
    method TakeForDrain() returns (n: nat)
      requires Valid()
      modifies this`sending
      ensures Valid()
      ensures n == 0 <==> queue == [] || old(sending)
      ensures n == 0 ==> sending == old(sending)
      ensures n > 0 ==> sending && oh != [] && n == |Left(oh[0])| <= |queue|
    {
      n := 0;
      if oh != [] && !sending {
        n := |oh[0].p| - oh[0].off;
        sending := true;
      }
    }

    /** After a drain send: a chunk sent whole is unlinked; a failed one stays. */
    method AccountForDrain(n: nat, ok: bool)
      requires Valid() && oh != [] && n == |Left(oh[0])|
      modifies this`sending, this`oh, this`ototal, this`queue
      ensures Valid() && !sending
      ensures n <= |old(queue)| && queue == if ok then old(queue)[n..] else old(queue)
    {
      sending := false;
      if ok {
        FlatAdvance(oh, n);
        oh := oh[1..];
        ototal := ototal - n;
        queue := queue[n..];
      }
    }
  }

  class InQueue {
    var h: seq<Chunk>
    var total: nat
    var paused: bool
    ghost var queue: seq<byte>

    ghost predicate Valid()
      reads this
    {
      AllLive(h) && queue == Flat(h) && total == |queue|
    }

    constructor ()
      ensures Valid() && queue == [] && !paused
    {
      h, total, paused, queue := [], 0, false, [];
    }

    /** dt_stream_pop on a non-empty queue: gather across chunks, up to blen bytes. */
    method Pop(blen: nat) returns (got: seq<byte>, reopen: bool)
      requires Valid()
      modifies this
      ensures Valid()
      ensures |got| == if blen < |old(queue)| then blen else |old(queue)|
      ensures got + queue == old(queue)
      ensures reopen <==> old(queue) != [] && old(paused) && |queue| < MAXIN / 2
      ensures paused == (old(paused) && !reopen)
    {
      got, reopen := [], false;
      if h == [] {
        return;
      }
      while h != [] && |got| < blen
        invariant Valid() && |got| <= blen && got + queue == old(queue) && paused == old(paused)
        decreases |queue|
      {
        var piece := PopHead(blen - |got|);
        got := got + piece;
      }
      if paused && total < MAXIN / 2 {
        paused := false;
        reopen := true;
      }
    }

    /** One turn of the gather loop: up to `most` bytes of the head chunk. */
    method PopHead(most: nat) returns (piece: seq<byte>)
      requires Valid() && h != [] && most > 0
      modifies this`h, this`total, this`queue
      ensures Valid() && 0 < |piece| <= most
      ensures old(queue) == piece + queue
    {
      var n := |h[0].p| - h[0].off;
      if n > most {
        n := most;
      }
      FlatAdvance(h, n);
      piece := h[0].p[h[0].off..h[0].off + n];
      h := Advance(h, n);
      total := total - n;
      queue := Flat(h);
    }

    /** FIONREAD: a pop of exactly this many bytes empties the queue and is never short. */
    method Fionread() returns (n: nat)
      requires Valid()
      ensures n == |queue|
    {
      n := total;
    }

    /** The pump appends what it read, unless the queue would pass its bound. */
    method Append(d: seq<byte>)
      requires Valid() && d != []
      modifies this
      ensures Valid()
      ensures queue == if |old(queue)| + |d| > MAXIN then old(queue) else old(queue) + d
      ensures paused == (old(paused) || |old(queue)| + |d| > MAXIN)
    {
      if total + |d| > MAXIN {
        paused := true;
      } else {
        FlatAppend(h, d);
        h := h + [Chunk(d, 0)];
        total := total + |d|;
        queue := queue + d;
      }
    }

    /** SHUT_RD discards everything queued. */
    method Discard()
      modifies this
      ensures Valid() && queue == [] && !paused
    {
      h, total, paused, queue := [], 0, false, [];
    }
  }

  /** ioctl(FIONREAD) then recv(exactly that): the read returns all of it. */
  method ReadCounted(q: InQueue) returns (got: seq<byte>)
    requires q.Valid()
    modifies q
    ensures q.Valid() && q.queue == [] && got == old(q.queue)
  {
    var n := q.Fionread();
    var reopen: bool;
    got, reopen := q.Pop(n);
    assert got + [] == got;
  }

  /** What happens to an in-queue: the pump appends a read, the app pops up to n
      bytes, or the app shuts its read side. */
  datatype InOp = Arrives(data: seq<byte>) | Reads(n: nat) | ShutsRead

  /** The queue, all bytes popped, and all bytes appended and not discarded. */
  datatype InState = InState(queue: seq<byte>, popped: seq<byte>, kept: seq<byte>)

  function InStep(s: InState, op: InOp): InState {
    match op
    case Arrives(d) =>
      if |s.queue| + |d| > MAXIN then s else s.(queue := s.queue + d, kept := s.kept + d)
    case Reads(n) =>
      var k := if n < |s.queue| then n else |s.queue|;
      s.(queue := s.queue[k..], popped := s.popped + s.queue[..k])
    case ShutsRead => s.(queue := [], kept := s.popped)
  }

  function InRun(ops: seq<InOp>): InState {
    if ops == [] then InState([], [], []) else InStep(InRun(ops[..|ops| - 1]), ops[|ops| - 1])
  }

  /** The concatenation of the pops followed by the queue is everything appended. */
  lemma {:induction false} PopsThenQueue(ops: seq<InOp>)
    ensures InRun(ops).popped + InRun(ops).queue == InRun(ops).kept
  {
    if ops != [] {
      PopsThenQueue(ops[..|ops| - 1]);
      var s, op := InRun(ops[..|ops| - 1]), ops[|ops| - 1];
      match op {
        case Arrives(d) => assert s.popped + (s.queue + d) == (s.popped + s.queue) + d;
        case Reads(n) =>
          var k := if n < |s.queue| then n else |s.queue|;
          assert s.queue == s.queue[..k] + s.queue[k..];
          assert s.popped + (s.queue[..k] + s.queue[k..]) == (s.popped + s.queue[..k]) + s.queue[k..];
        case ShutsRead => assert s.popped + [] == s.popped;
      }
    }
  }

  /** A whole life of an in-queue, over its chunk list: the bytes the app got are
      those of the specification, and so is the count FIONREAD reports. */
  method LiveThrough(ops: seq<InOp>) returns (popped: seq<byte>, count: nat)
    requires forall op <- ops :: op.Arrives? ==> op.data != []
    ensures popped == InRun(ops).popped && count == |InRun(ops).queue|
    ensures popped + InRun(ops).queue == InRun(ops).kept
  {
    var q := new InQueue();
    popped := [];
    var i := 0;
    while i < |ops|
      invariant 0 <= i <= |ops| && fresh(q) && q.Valid()
      invariant q.queue == InRun(ops[..i]).queue && popped == InRun(ops[..i]).popped
    {
      assert ops[..i + 1][..i] == ops[..i] && ops[i] in ops;
      match ops[i] {
        case Arrives(d) => q.Append(d);
        case Reads(n) =>
          var got, reopen := q.Pop(n);
          SplitAt(InRun(ops[..i]).queue, got, q.queue);
          popped := popped + got;
        case ShutsRead => q.Discard();
      }
      i := i + 1;
    }
    assert ops[..i] == ops;
    count := q.Fionread();
    PopsThenQueue(ops);
  }

  lemma SplitAt(whole: seq<byte>, a: seq<byte>, b: seq<byte>)
    requires a + b == whole
    ensures a == whole[..|a|] && b == whole[|a|..]
  {
  }
}
