/** The hook's wake-slot table, an array updated in place (hook/hk_sess.c:602-680).
    Seen from one socket it is the slot sequence of StreamEngine. */
module WaitSlots {
  import opened Wire
  import opened StreamEngine

  const MAXWAIT := 64
  /** Sockets a slot can name; a longer list watches everything. */
  const WAIT_NS := 8

  datatype Row = Row(used: bool, armed: bool, any: bool, socks: seq<int>, bytes: nat)

  predicate Hits(r: Row, gsock: int) {
    r.any || gsock in r.socks
  }

  /** A row as seen by the stream of one socket. */
  function Seen(r: Row, gsock: int): Slot {
    Slot(r.used, r.armed, Hits(r, gsock), r.bytes)
  }

  function View(rows: seq<Row>, gsock: int): (v: seq<Slot>)
    ensures |v| == |rows|
    ensures forall i | 0 <= i < |v| :: v[i] == Seen(rows[i], gsock)
  {
    seq(|rows|, i requires 0 <= i < |rows| => Seen(rows[i], gsock))
  }

  class Table {
    const rows: array<Row>

    constructor ()
      ensures rows.Length == 64 && fresh(rows)
      ensures forall i | 0 <= i < 64 :: rows[i] == Row(false, false, false, [], 0)
    {
      rows := new Row[MAXWAIT](_ => Row(false, false, false, [], 0));
    }

    /** First half of dt_wait_arm: take a free slot, if there is one. */
    method Claim() returns (slot: Option<nat>)
      modifies rows
      ensures slot.None? <==> forall i | 0 <= i < rows.Length :: old(rows[..])[i].used
      ensures slot.None? ==> rows[..] == old(rows[..])
      ensures slot.Some? ==>
                && slot.value < rows.Length && !old(rows[..])[slot.value].used
                && rows[..] == old(rows[..])[slot.value := old(rows[..])[slot.value].(used := true)]
    {
      slot := None;
      for i := 0 to rows.Length
        invariant slot.None? && rows[..] == old(rows[..])
        invariant forall j | 0 <= j < i :: old(rows[..])[j].used
      {
        if !rows[i].used {
          slot := Some(i);
          rows[i] := rows[i].(used := true);
          return;
        }
      }
    }

    /** Second half: name the sockets (None or too many: any socket) and arm. */
    method Arm(slot: nat, socks: Option<seq<int>>)
      requires slot < rows.Length
      modifies rows
      ensures rows[..] == old(rows[..])[slot := rows[slot]]
      ensures forall g :: Seen(rows[slot], g)
                == Slot(old(rows[slot].used), true, socks.None? || |socks.value| > 8 || g in socks.value, old(rows[slot].bytes))
    {
      var any := socks.None? || |socks.value| > WAIT_NS;
      rows[slot] := rows[slot].(any := any, socks := if any then [] else socks.value, armed := true);
    }

    /** dt_wait_rearm: drain the channel, then arm again. */
    method Rearm(slot: nat)
      requires slot < rows.Length
      modifies rows
      ensures rows[..] == old(rows[..])[slot := old(rows[slot]).(bytes := 0, armed := true)]
    {
      rows[slot] := rows[slot].(bytes := 0);
      rows[slot] := rows[slot].(armed := true);
    }

    /** dt_wait_done: release, then drain. */
    method Done(slot: nat)
      requires slot < rows.Length
      modifies rows
      ensures rows[..] == old(rows[..])[slot := old(rows[slot]).(bytes := 0, armed := false, used := false)]
    {
      rows[slot] := rows[slot].(armed := false, used := false);
      rows[slot] := rows[slot].(bytes := 0);
    }

    /** dt_wait_poke_locked: one wake byte for every armed slot that names the socket. */
    method Poke(gsock: int)
      modifies rows
      ensures View(rows[..], gsock) == StreamEngine.Poke(View(old(rows[..]), gsock))
      ensures forall i | 0 <= i < rows.Length :: rows[i].any == old(rows[i].any) && rows[i].socks == old(rows[i].socks)
    {
      ghost var before := rows[..];
      for i := 0 to rows.Length
        invariant forall j | 0 <= j < i ::
            && Seen(rows[j], gsock) == PokeSlot(Seen(before[j], gsock))
            && rows[j].any == before[j].any && rows[j].socks == before[j].socks
        invariant forall j | i <= j < rows.Length :: rows[j] == before[j]
      {
        if rows[i].used && rows[i].armed {
          var hit := rows[i].any;
          var k := 0;
          while !hit && k < |rows[i].socks|
            invariant k <= |rows[i].socks|
            invariant hit <==> rows[i].any || gsock in rows[i].socks[..k]
          {
            hit := rows[i].socks[k] == gsock;
            k := k + 1;
          }
          assert rows[i].socks[..k] == rows[i].socks || gsock in rows[i].socks[..k] || rows[i].any;
          if hit {
            rows[i] := rows[i].(armed := false, bytes := rows[i].bytes + 1);
          }
        }
      }
    }
  }

  /** One wait on one socket, with other threads poking between the arm and the
      end: the waiter finds a byte exactly when its socket was poked, or one was
      left from before, and gives its slot back empty. */
  method WaitFor(t: Table, gsock: int, pokes: seq<int>) returns (slot: Option<nat>, woken: bool)
    modifies t.rows
    ensures slot.None? <==> forall i | 0 <= i < t.rows.Length :: old(t.rows[..])[i].used
    ensures slot.Some? ==> slot.value < t.rows.Length && !old(t.rows[..])[slot.value].used
    ensures slot.Some? ==> (woken <==> gsock in pokes || old(t.rows[..])[slot.value].bytes > 0)
    ensures slot.Some? ==> var r := t.rows[slot.value]; !r.used && !r.armed && r.bytes == 0
  {
    woken := false;
    slot := t.Claim();
    if slot.None? {
      return;
    }
    var k := slot.value;
    t.Arm(k, Some([gsock]));
    ghost var left := t.rows[k].bytes;
    assert Seen(t.rows[k], gsock) == Slot(true, true, true, left);
    assert forall g :: Seen(t.rows[k], g).watch <==> g in [gsock];
    var i := 0;
    while i < |pokes|
      invariant 0 <= i <= |pokes| && t.rows[k].used
      invariant forall g :: Seen(t.rows[k], g).watch <==> g == gsock
      invariant t.rows[k].armed <==> gsock !in pokes[..i]
      invariant t.rows[k].bytes == left + if gsock in pokes[..i] then 1 else 0
    {
      assert pokes[..i + 1] == pokes[..i] + [pokes[i]];
      ghost var x := t.rows[k];
      assert Seen(x, pokes[i]).watch <==> pokes[i] == gsock;
      PokeOnce(t, k, pokes[i]);
      assert forall g :: Seen(t.rows[k], g).watch == Seen(x, g).watch;
      i := i + 1;
    }
    assert pokes[..i] == pokes;
    woken := t.rows[k].bytes > 0;
    t.Done(k);
  }

  /** What a poke does to one row. */
  method PokeOnce(t: Table, k: nat, g: int)
    requires k < t.rows.Length
    modifies t.rows
    ensures Seen(t.rows[k], g) == PokeSlot(Seen(old(t.rows[k]), g))
    ensures t.rows[k].any == old(t.rows[k].any) && t.rows[k].socks == old(t.rows[k].socks)
  {
    ghost var before := t.rows[..];
    t.Poke(g);
    assert View(t.rows[..], g)[k] == StreamEngine.Poke(View(before, g))[k];
  }
}
