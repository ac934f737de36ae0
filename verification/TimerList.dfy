/**
  The list of running retransmission timers (timer_list.c): one entry for each packet
  in flight, in the order of registration.  Times are in milliseconds.
 */
module Timers {
  import opened Circular

  datatype TmEntry = TmEntry(num: U16, fire: int, reg: int)

  /** The range test of tm_ack_packet on raw 16-bit numbers: head is the number of the
      first entry, upper the highest number sent. */
  predicate InRange(head: U16, upper: U16, x: U16) {
    var lo, hi := Wire(head + 1), Wire(upper + 1);
    if lo > hi then !(x < lo && x > hi) else !(x < lo || x > hi)
  }

  /** The entry's packet is the last one that an ack of x covers. */
  predicate Ends(e: TmEntry, x: U16) {
    Wire(e.num + 1) == x
  }

  /** The first entry whose packet is the last one that an ack of x covers, or |entries|. */
  function Acked(entries: seq<TmEntry>, x: U16): (k: nat)
    ensures k <= |entries|
    ensures forall i :: 0 <= i < k ==> !Ends(entries[i], x)
    ensures k < |entries| ==> Ends(entries[k], x)
  {
    if entries == [] || Ends(entries[0], x) then 0 else 1 + Acked(entries[1..], x)
  }

  class TimerList {
    var entries: seq<TmEntry>

    constructor ()
      ensures entries == []
    {
      entries := [];
    }

    /** tm_register_packet */
    method RegisterPacket(num: U16, rto: int, now: int)
      modifies this
      ensures entries == old(entries) + [TmEntry(num, now + rto, now)]
    {
      entries := entries + [TmEntry(num, now + rto, now)];
    }

    /** tm_ack_packet: a negative result means that there is no round-trip sample. */
    method AckPacket(x: U16, upper: U16, now: int) returns (rtt: int)
      modifies this
      ensures old(entries) == [] || !InRange(old(entries)[0].num, upper, x)
        ==> entries == old(entries) && rtt == -1
      ensures old(entries) != [] && InRange(old(entries)[0].num, upper, x) ==>
        var k := Acked(old(entries), x);
        if k < |old(entries)| then entries == old(entries)[k + 1..] && rtt == now - old(entries)[k].reg
        else entries == [] && rtt == -1
    {
      rtt := -1;
      if entries == [] {
        return;
      }
      var lo, hi := Wire(entries[0].num + 1), Wire(upper + 1);
      if lo > hi {
        if x < lo && x > hi {
          return;
        }
      } else {
        if x < lo || x > hi {
          return;
        }
      }
      ghost var before, k := entries, Acked(entries, x);
      ghost var gone := 0;
      while entries != []
        invariant 0 <= gone <= k && entries == before[gone..] && rtt == -1
        decreases |entries|
      {
        var head := entries[0];
        entries := entries[1..];
        gone := gone + 1;
        if x == Wire(head.num + 1) {
          rtt := now - head.reg;
          assert gone == k + 1;
          return;
        }
      }
    }

    /** get_next_timeout: when the first timer has fired, all timers are dropped. */
    method GetNextTimeout(now: int) returns (fired: bool, num: U16)
      modifies this
      ensures fired <==> old(entries) != [] && old(entries)[0].fire <= now
      ensures fired ==> entries == [] && num == old(entries)[0].num
      ensures !fired ==> entries == old(entries)
    {
      num := 0;
      if entries == [] {
        return false, num;
      }
      if entries[0].fire - now > 0 {
        return false, num;
      }
      num := entries[0].num;
      entries := [];
      return true, num;
    }

    /** tm_clear_list */
    method Clear()
      modifies this
      ensures entries == []
    {
      entries := [];
    }
  }

  /** The entries stand for the consecutive packets base, base + 1, ... */
  predicate Consecutive(entries: seq<TmEntry>, base: int) {
    forall i :: 0 <= i < |entries| ==> entries[i].num == Wire(base + i)
  }

  /** On unbounded numbers the range test accepts exactly the acks that cover the first
      packet in flight and nothing beyond the highest packet sent, also across the wrap. */
  lemma InRangeIsInterval(base: int, upper: int, a: int)
    requires base <= upper < base + MODULUS - 1
    requires base < a <= base + MODULUS
    ensures InRange(Wire(base), Wire(upper), Wire(a)) <==> a <= upper + 1
  {
    WireSucc(base);
    WireSucc(upper);
    WireStep(base + 1, upper - base);
    WireStep(base + 1, a - base - 1);
  }

  /** Acking a of consecutive entries finds the entry of packet a - 1. */
  lemma AckedPosition(entries: seq<TmEntry>, base: int, a: int)
    requires Consecutive(entries, base) && |entries| <= MODULUS
    requires base < a <= base + MODULUS
    ensures Acked(entries, Wire(a)) == if a - base <= |entries| then a - base - 1 else |entries|
  {
    forall i | 0 <= i < |entries| ensures Ends(entries[i], Wire(a)) <==> i == a - base - 1 {
      OnlyOneEntry(entries, base, a, i);
    }
    EndsOnlyAt(entries, Wire(a), a - base - 1);
  }

  lemma EndsOnlyAt(entries: seq<TmEntry>, x: U16, p: nat)
    requires forall i :: 0 <= i < |entries| ==> (Ends(entries[i], x) <==> i == p)
    ensures Acked(entries, x) == if p < |entries| then p else |entries|
  {
    var k := Acked(entries, x);
    assert k < |entries| ==> Ends(entries[k], x);
    assert p < |entries| ==> Ends(entries[p], x);
  }

  lemma OnlyOneEntry(entries: seq<TmEntry>, base: int, a: int, k: nat)
    requires Consecutive(entries, base) && k < |entries| <= MODULUS
    requires base < a <= base + MODULUS
    ensures Ends(entries[k], Wire(a)) <==> k == a - base - 1
  {
    WireSucc(base + k);
    if Ends(entries[k], Wire(a)) {
      WireEqual(base + k + 1, a);
    }
  }
}
