/**
  The receiving half of a socket over unbounded packet numbers: reassembly, counting of
  complete messages, harvesting and the receive calls (ump_sock.c:492-605, 824-865,
  1137-1140, 1333-1396).

  The buffered packets are split into the contiguous run that ends just below `base` and
  the packets ahead of it.  `taken` and `delivered` are history: the packets of all
  messages handed to the user so far, and those messages.
 */
module ReceiverModel {
  import opened Message

  datatype Rcv = Rcv(
    base: int,                    // the least number not yet received
    run: seq<Chunk>,              // buffered packets base - |run| .. base - 1
    pending: map<int, Chunk>,     // buffered packets above base
    msgNum: int,                  // rcv_packets_msg_num
    firstEnd: int,                // rcv_first_msg_end as an index into run, or -1
    ready: seq<Chunk>,            // rec_msg_packets: a harvested message, or []
    locked: bool,                 // a receive call is blocked
    taken: seq<Chunk>,
    delivered: seq<seq<Byte>>)

  function Initial(base: int): Rcv {
    Rcv(base, [], map[], 0, -1, [], false, [], [])
  }

  // ---------- handing messages over ----------

  /** ump_harvest_messages: the first counted message leaves the buffer.  The guard only
      makes the function total: Inv implies it wherever a message is counted. */
  function Harvest(r: Rcv): Rcv {
    if 0 <= r.firstEnd < |r.run| then
      var rest := r.run[r.firstEnd + 1..];
      r.(ready := r.run[..r.firstEnd + 1], run := rest, msgNum := r.msgNum - 1,
         firstEnd := if r.msgNum - 1 < 1 then -1 else FirstBdr(rest))
    else r
  }

  /** ump_end_receive_internal: the harvested message is returned, the next one harvested. */
  function Take(r: Rcv): Rcv
  {
    var t := r.(taken := r.taken + r.ready, delivered := r.delivered + [Payload(r.ready)], ready := []);
    if t.msgNum >= 1 then Harvest(t) else t
  }

  /** ump_end_receive: only a blocked call is ended. */
  function EndReceive(r: Rcv, ok: bool): Rcv
  {
    if !r.locked then r
    else if ok then Take(r.(locked := false))
    else r.(locked := false)
  }

  /** A receive call seen by the socket thread: it returns a message, fails, or blocks. */
  function Receive(r: Rcv, established: bool): Rcv
  {
    if r.locked then r
    else if r.ready != [] then Take(r)
    else if !established then r
    else r.(locked := true)
  }

  predicate ReceiveFails(r: Rcv, established: bool) {
    !r.locked && r.ready == [] && !established
  }

  /** What entering CLOSED does to the receiver (ump_sock.c:1137-1140). */
  function EnterClosed(r: Rcv): Rcv
  {
    if r.msgNum < 1 then EndReceive(r, false) else r
  }

  // ---------- arrivals ----------

  function ExtendOnce(r: Rcv): Rcv
    requires r.base in r.pending
  {
    r.(run := r.run + [r.pending[r.base]], base := r.base + 1, pending := r.pending - {r.base})
  }

  /** Moves the packets that have become contiguous into the run. */
  function Extend(r: Rcv): Rcv
    decreases |r.pending|
  {
    if r.base in r.pending then Extend(ExtendOnce(r)) else r
  }

  /** ump_check_rcv_data_so_far looks only at the packet that now ends the run. */
  function Count(r: Rcv): Rcv {
    if r.run != [] && r.run[|r.run| - 1].bdr then
      r.(msgNum := r.msgNum + 1, firstEnd := if r.msgNum + 1 == 1 then |r.run| - 1 else r.firstEnd)
    else r
  }

  function Check(r: Rcv): Rcv {
    var c := Count(r);
    if c.msgNum == r.msgNum || r.ready != [] then c else EndReceive(Harvest(c), true)
  }

  predicate Received(r: Rcv, n: int) {
    n < r.base || n in r.pending
  }

  /** ump_established_handle_data_packet for packet n. */
  function Arrive(r: Rcv, n: int, c: Chunk): Rcv {
    if Received(r, n) then r
    else
      var extended := Accept(r, n, c);
      if extended.base == r.base then extended else Check(extended)
  }

  // ---------- what every step keeps ----------

  /** Every counted message has its end in the run, the first of them at firstEnd. */
  ghost predicate CountedIn(run: seq<Chunk>, msgNum: int, firstEnd: int) {
    && msgNum >= 0
    && (msgNum == 0 ==> firstEnd == -1)
    && (msgNum >= 1 ==>
        0 <= firstEnd < |run| && run[firstEnd].bdr && msgNum - 1 <= CountBdr(run[firstEnd + 1..]))
  }

  ghost predicate Counted(r: Rcv) {
    CountedIn(r.run, r.msgNum, r.firstEnd)
  }

  /** What a harvest relies on: the first message's end, and that of the next one. */
  predicate CanHarvest(r: Rcv) {
    r.msgNum >= 1 ==>
      && 0 <= r.firstEnd < |r.run|
      && (r.msgNum >= 2 ==> FirstBdr(r.run[r.firstEnd + 1..]) < |r.run| - r.firstEnd - 1)
  }

  ghost predicate Inv(r: Rcv) {
    && (forall k :: k in r.pending ==> k > r.base)
    && Counted(r)
    && (r.ready == [] ==> r.msgNum == 0)
    && (r.locked ==> r.ready == [])
  }

  lemma InitialInv(base: int)
    ensures Inv(Initial(base))
  {
  }

  /** Harvesting moves the first message out of the run and keeps the count. */
  lemma HarvestKeeps(r: Rcv)
    requires Counted(r) && r.msgNum >= 1
    ensures Counted(Harvest(r))
    ensures Harvest(r).ready != []
  {
    RestIsCounted(r.run, r.msgNum, r.firstEnd);
  }

  lemma RestIsCounted(run: seq<Chunk>, msgNum: int, firstEnd: int)
    requires CountedIn(run, msgNum, firstEnd) && msgNum >= 1
    ensures var rest := run[firstEnd + 1..];
      CountedIn(rest, msgNum - 1, if msgNum - 1 < 1 then -1 else FirstBdr(rest))
  {
    if msgNum >= 2 {
      NextEnd(run[firstEnd + 1..]);
    }
  }

  lemma {:induction false} NextEnd(cs: seq<Chunk>)
    requires CountBdr(cs) >= 1
    ensures FirstBdr(cs) < |cs|
    ensures CountBdr(cs[FirstBdr(cs) + 1..]) == CountBdr(cs) - 1
  {
    if !cs[0].bdr {
      NextEnd(cs[1..]);
      var k := FirstBdr(cs[1..]);
      assert cs[1..][k + 1..] == cs[k + 2..];
    }
  }

  lemma CountedCanHarvest(r: Rcv)
    requires Counted(r)
    ensures CanHarvest(r) && r.msgNum >= 0
  {
    if r.msgNum >= 2 {
      NextEnd(r.run[r.firstEnd + 1..]);
    }
  }

  lemma HarvestSplits(r: Rcv)
    requires 0 <= r.firstEnd < |r.run|
    ensures Harvest(r).ready + Harvest(r).run == r.run
  {
  }

  lemma TakeKeepsInv(r: Rcv)
    requires Inv(r) && r.ready != []
    ensures Inv(Take(r))
  {
    if r.msgNum >= 1 {
      HarvestKeeps(r.(taken := r.taken + r.ready, delivered := r.delivered + [Payload(r.ready)], ready := []));
    }
  }

  lemma ReceiveKeepsInv(r: Rcv, established: bool)
    requires Inv(r)
    ensures Inv(Receive(r, established))
  {
    if !r.locked && r.ready != [] {
      TakeKeepsInv(r);
    }
  }

  /** The run grows by consecutive packets until the next number is missing. */
  lemma {:induction false} ExtendKeeps(r: Rcv)
    requires forall k :: k in r.pending ==> k >= r.base
    ensures var e := Extend(r);
      && r.base <= e.base && r.run <= e.run && |e.run| - |r.run| == e.base - r.base
      && e == r.(base := e.base, run := e.run, pending := e.pending)
      && (forall k :: k in e.pending ==> k > e.base)
      && (forall k :: k in r.pending <==> k in e.pending || r.base <= k < e.base)
      && (forall k :: k in e.pending ==> k in r.pending && e.pending[k] == r.pending[k])
      && (forall k :: r.base <= k < e.base ==> k in r.pending && e.run[|r.run| + k - r.base] == r.pending[k])
    decreases |r.pending|
  {
    if r.base in r.pending {
      var next := ExtendOnce(r);
      ExtendKeeps(next);
      var e := Extend(next);
      assert Extend(r) == e;
      assert r.run <= next.run;
      forall k | r.base <= k < e.base
        ensures k in r.pending && e.run[|r.run| + k - r.base] == r.pending[k]
      {
        if k == r.base {
          assert e.run[|r.run|] == next.run[|r.run|];
        } else {
          assert k in next.pending;
        }
      }
    }
  }

  lemma ExtendFrame(r: Rcv)
    ensures var e := Extend(r);
      e == r.(base := e.base, run := e.run, pending := e.pending) && e.base - r.base == |e.run| - |r.run| >= 0
    decreases |r.pending|
  {
    if r.base in r.pending {
      ExtendFrame(ExtendOnce(r));
    }
  }

  lemma {:induction false} LongerRunKeepsCounted(r: Rcv, e: Rcv)
    requires Counted(r) && r.run <= e.run && e.msgNum == r.msgNum && e.firstEnd == r.firstEnd
    ensures Counted(e)
  {
    if r.msgNum >= 1 {
      var tail := e.run[|r.run|..];
      assert e.run[r.firstEnd + 1..] == r.run[r.firstEnd + 1..] + tail;
      CountAppend(r.run[r.firstEnd + 1..], tail);
    }
  }

  /** Counting the packet that newly ends the run. */
  lemma CountKeeps(r: Rcv, e: Rcv)
    requires Counted(r) && r.run <= e.run && |r.run| < |e.run|
    requires e.msgNum == r.msgNum && e.firstEnd == r.firstEnd
    ensures Counted(Count(e))
    ensures Count(e) == e.(msgNum := Count(e).msgNum, firstEnd := Count(e).firstEnd)
    ensures Count(e).msgNum == r.msgNum + if e.run[|e.run| - 1].bdr then 1 else 0
  {
    if !e.run[|e.run| - 1].bdr {
      LongerRunKeepsCounted(r, e);
    } else if r.msgNum >= 1 {
      OneMoreEnd(r, e);
      assert e.run[r.firstEnd] == r.run[r.firstEnd];
    } else {
      assert e.run[|e.run|..] == [];
    }
  }

  lemma OneMoreEnd(r: Rcv, e: Rcv)
    requires Counted(r) && r.msgNum >= 1 && r.run <= e.run && |r.run| < |e.run|
    requires e.run[|e.run| - 1].bdr
    ensures CountBdr(e.run[r.firstEnd + 1..]) >= r.msgNum
  {
    var last := [e.run[|e.run| - 1]];
    var more := e.run[|r.run|..|e.run| - 1];
    var before := r.run[r.firstEnd + 1..];
    assert e.run[r.firstEnd + 1..] == before + (more + last);
    CountAppend(before, more + last);
    CountAppend(more, last);
    assert CountBdr(last) == 1;
  }

  /** The check after the run has grown: what it changes and that it keeps the invariant. */
  lemma CheckKeepsInv(r: Rcv, e: Rcv)
    requires Inv(r) && r.run <= e.run && |r.run| < |e.run|
    requires e == r.(base := e.base, run := e.run, pending := e.pending)
    requires forall k :: k in e.pending ==> k > e.base
    ensures Inv(Check(e)) && Check(e).base == e.base && Check(e).pending == e.pending
  {
    CountKeeps(r, e);
    var c := Count(e);
    if c.msgNum > r.msgNum && r.ready == [] {
      HarvestKeeps(c);
      if c.locked {
        TakeKeepsInv(Harvest(c).(locked := false));
      }
    }
  }

  function Accept(r: Rcv, n: int, c: Chunk): Rcv {
    Extend(r.(pending := r.pending[n := c]))
  }

  lemma AcceptKeeps(r: Rcv, n: int, c: Chunk)
    requires Inv(r) && !Received(r, n)
    ensures var e := Accept(r, n, c);
      && r.run <= e.run && |e.run| - |r.run| == e.base - r.base >= 0
      && e == r.(base := e.base, run := e.run, pending := e.pending)
      && (forall k :: k in e.pending ==> k > e.base)
      && (forall k :: Received(e, k) <==> Received(r, k) || k == n)
  {
    var added := r.(pending := r.pending[n := c]);
    ExtendKeeps(added);
    var e := Accept(r, n, c);
    forall k ensures Received(e, k) <==> Received(r, k) || k == n {
      assert k in added.pending <==> k in r.pending || k == n;
    }
  }

  function ArriveByRun(r: Rcv, n: int, c: Chunk): Rcv {
    var e := Accept(r, n, c);
    if Received(r, n) then r else if |e.run| > |r.run| then Check(e) else e
  }

  /** The check after an accepted packet finds what it relies on. */
  predicate ArriveReady(r: Rcv, n: int, c: Chunk) {
    var e := Accept(r, n, c);
    && r.msgNum >= 0
    && (!Received(r, n) && |e.run| > |r.run| ==> CanHarvest(Count(e)) && (r.ready == [] ==> r.msgNum == 0))
  }

  lemma ArriveIsReady(r: Rcv, n: int, c: Chunk)
    requires Inv(r)
    ensures ArriveReady(r, n, c) && Arrive(r, n, c) == ArriveByRun(r, n, c)
  {
    if !Received(r, n) {
      AcceptKeeps(r, n, c);
      var e := Accept(r, n, c);
      if |e.run| > |r.run| {
        CountKeeps(r, e);
        CountedCanHarvest(Count(e));
      }
    }
  }

  lemma ArriveKeepsInv(r: Rcv, n: int, c: Chunk)
    requires Inv(r)
    ensures Inv(Arrive(r, n, c))
    ensures !Received(r, n) ==> var e := Accept(r, n, c);
      Arrive(r, n, c).base == e.base && Arrive(r, n, c).pending == e.pending
  {
    if !Received(r, n) {
      AcceptKeeps(r, n, c);
      var e := Accept(r, n, c);
      if e.base > r.base {
        CheckKeepsInv(r, e);
      }
    }
  }

  /** A blocked call waits for a message that is not there: nothing complete is buffered.
      So a receive call fails only when no complete message is left, and entering CLOSED
      leaves no call blocked and loses no complete message. */
  lemma NoMessageIsLost(r: Rcv, established: bool)
    requires Inv(r)
    ensures r.locked || ReceiveFails(r, established) ==> r.ready == [] && r.msgNum == 0
    ensures !EnterClosed(r).locked && EnterClosed(r) == r.(locked := false)
    ensures Inv(EnterClosed(r))
    ensures r.ready != [] && !r.locked ==> Receive(r, established).delivered == r.delivered + [Payload(r.ready)]
  {
  }

  // ---------- reassembly is a set ----------

  /** Whatever the order of arrival, the socket has received exactly what arrived, and its
      base is the least number missing; a repeated packet changes nothing. */
  lemma ArriveAddsOne(r: Rcv, n: int, c: Chunk)
    requires Inv(r)
    ensures forall k :: Received(Arrive(r, n, c), k) <==> Received(r, k) || k == n
    ensures Received(r, n) ==> Arrive(r, n, c) == r
    ensures r.base <= Arrive(r, n, c).base
    ensures !Received(Arrive(r, n, c), Arrive(r, n, c).base)
  {
    ArriveKeepsInv(r, n, c);
    if !Received(r, n) {
      AcceptKeeps(r, n, c);
      var e, t := Accept(r, n, c), Arrive(r, n, c);
      forall k ensures Received(t, k) <==> Received(r, k) || k == n {
        assert Received(t, k) <==> Received(e, k);
      }
    }
  }

  function ArriveAll(r: Rcv, ps: seq<(int, Chunk)>): Rcv {
    if ps == [] then r
    else Arrive(ArriveAll(r, ps[..|ps| - 1]), ps[|ps| - 1].0, ps[|ps| - 1].1)
  }

  predicate Arrived(ps: seq<(int, Chunk)>, n: int) {
    exists i :: 0 <= i < |ps| && ps[i].0 == n
  }

  lemma {:induction false} ReceivedIsWhatArrived(r: Rcv, ps: seq<(int, Chunk)>)
    requires Inv(r)
    ensures Inv(ArriveAll(r, ps))
    ensures forall k :: Received(ArriveAll(r, ps), k) <==> Received(r, k) || Arrived(ps, k)
  {
    if ps != [] {
      var front, last := ps[..|ps| - 1], ps[|ps| - 1];
      ReceivedIsWhatArrived(r, front);
      ArriveKeepsInv(ArriveAll(r, front), last.0, last.1);
      ArriveAddsOne(ArriveAll(r, front), last.0, last.1);
      forall k ensures Arrived(ps, k) <==> Arrived(front, k) || k == last.0 {
        if Arrived(front, k) {
          var i :| 0 <= i < |front| && front[i].0 == k;
          assert ps[i].0 == k;
        }
        assert ps[|ps| - 1].0 == last.0;
      }
    }
  }

  /** Two arrival sequences with the same packets, in any order and with any repetition,
      leave the socket waiting for the same packet with the same packets ahead. */
  lemma ArrivalOrderIsIrrelevant(r: Rcv, ps: seq<(int, Chunk)>, qs: seq<(int, Chunk)>)
    requires Inv(r)
    requires forall k :: Arrived(ps, k) <==> Arrived(qs, k)
    ensures ArriveAll(r, ps).base == ArriveAll(r, qs).base
    ensures ArriveAll(r, ps).pending.Keys == ArriveAll(r, qs).pending.Keys
  {
    ReceivedIsWhatArrived(r, ps);
    ReceivedIsWhatArrived(r, qs);
    var a, b := ArriveAll(r, ps), ArriveAll(r, qs);
    assert !Received(a, a.base) && !Received(b, b.base);
    assert Received(a, b.base) <==> Received(b, b.base);
    assert Received(b, a.base) <==> Received(a, a.base);
    forall k ensures k in a.pending <==> k in b.pending {
      assert Received(a, k) <==> Received(b, k);
    }
  }
}
