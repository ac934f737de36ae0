/**
  When the receiver gets the message boundaries right.  After an arrival the socket looks
  for the end-of-message flag only on the packet that now ends the contiguous run
  (ump_sock.c:851-865, 1384-1394).  That finds every message end exactly when the newly
  contiguous packets carry no end before their last one.
 */
module ReceiverExact {
  import opened Message
  import opened ReceiverModel

  /** Everything received without a gap, from the first packet of the connection on. */
  function Stream(r: Rcv): seq<Chunk> {
    r.taken + r.ready + r.run
  }

  predicate OneMessage(cs: seq<Chunk>) {
    cs != [] && FirstBdr(cs) == |cs| - 1
  }

  /** msgNum counts the message ends in the run and firstEnd is the first of them. */
  predicate Exact(r: Rcv) {
    && r.msgNum == CountBdr(r.run)
    && r.firstEnd == if CountBdr(r.run) == 0 then -1 else FirstBdr(r.run)
  }

  /** The messages handed over are those of the packets handed over, the harvested packets
      are one message, and the bookkeeping of the rest is right. */
  predicate Faithful(r: Rcv) {
    && Closed(r.taken) && r.delivered == Parse(r.taken)
    && (r.ready != [] ==> OneMessage(r.ready))
    && Exact(r)
  }

  lemma InitialFaithful(base: int)
    ensures Faithful(Initial(base)) && Stream(Initial(base)) == []
  {
  }

  lemma HarvestExact(r: Rcv)
    requires Exact(r) && r.msgNum >= 1
    ensures Exact(Harvest(r)) && OneMessage(Harvest(r).ready)
    ensures Harvest(r).ready + Harvest(r).run == r.run
  {
    var k := FirstBdr(r.run);
    CountZero(r.run);
    CountSplit(r.run, k);
    FirstBdrUnique(r.run[..k + 1], k);
    HarvestSplits(r);
  }

  function HandOver(r: Rcv): Rcv {
    r.(taken := r.taken + r.ready, delivered := r.delivered + [Payload(r.ready)], ready := [])
  }

  lemma HandOverFaithful(r: Rcv)
    requires Faithful(r) && r.ready != []
    ensures Faithful(HandOver(r)) && Stream(HandOver(r)) == Stream(r)
  {
    ParseAppend(r.taken, r.ready);
    ParseOneMessage(r.ready);
    var t := HandOver(r);
    assert t.taken[|t.taken| - 1] == r.ready[|r.ready| - 1];
  }

  /** Returning a message appends it to the user's messages; nothing else is lost or moved. */
  lemma TakeFaithful(r: Rcv)
    requires Faithful(r) && r.ready != []
    ensures Faithful(Take(r)) && Stream(Take(r)) == Stream(r)
  {
    HandOverFaithful(r);
    var t := HandOver(r);
    if t.msgNum >= 1 {
      HarvestExact(t);
      assert t.taken + [] == t.taken;
      ConcatAssociative(t.taken, Harvest(t).ready, Harvest(t).run);
    }
  }

  lemma ReceiveFaithful(r: Rcv, established: bool)
    requires Faithful(r)
    ensures Faithful(Receive(r, established)) && Stream(Receive(r, established)) == Stream(r)
  {
    if !r.locked && r.ready != [] {
      TakeFaithful(r);
    }
  }

  /** The packets that arrival n makes contiguous. */
  function Segment(r: Rcv, n: int, c: Chunk): seq<Chunk> {
    var e := Accept(r, n, c);
    if |r.run| <= |e.run| then e.run[|r.run|..] else []
  }

  predicate NoInnerEnd(segment: seq<Chunk>) {
    segment != [] ==> CountBdr(segment[..|segment| - 1]) == 0
  }

  lemma CountLast(cs: seq<Chunk>)
    requires cs != []
    ensures CountBdr(cs) == CountBdr(cs[..|cs| - 1]) + if cs[|cs| - 1].bdr then 1 else 0
  {
    var last := [cs[|cs| - 1]];
    assert cs == cs[..|cs| - 1] + last;
    CountAppend(cs[..|cs| - 1], last);
    assert last[1..] == [];
  }

  lemma CountPrefix(a: seq<Chunk>, b: seq<Chunk>)
    requires CountBdr(a) > 0
    ensures FirstBdr(a) < |a| && FirstBdr(a + b) == FirstBdr(a)
  {
    CountZero(a);
    FirstBdrUnique(a + b, FirstBdr(a));
  }

  lemma OnlyLastEnd(cs: seq<Chunk>)
    requires cs != [] && cs[|cs| - 1].bdr
    ensures FirstBdr(cs) == |cs| - 1 <==> CountBdr(cs[..|cs| - 1]) == 0
  {
    CountZero(cs[..|cs| - 1]);
    if CountBdr(cs[..|cs| - 1]) == 0 {
      assert forall i :: 0 <= i < |cs| - 1 ==> cs[..|cs| - 1][i] == cs[i];
      FirstBdrUnique(cs, |cs| - 1);
    }
  }

  /** Counting after the run has grown by a segment. */
  lemma CountExact(r: Rcv, e: Rcv, segment: seq<Chunk>)
    requires Exact(r) && e.run == r.run + segment && segment != []
    requires e.msgNum == r.msgNum && e.firstEnd == r.firstEnd
    ensures Exact(Count(e)) <==> NoInnerEnd(segment)
  {
    CountAppend(r.run, segment);
    CountLast(segment);
    assert e.run[|e.run| - 1] == segment[|segment| - 1];
    if NoInnerEnd(segment) {
      if r.msgNum > 0 {
        CountPrefix(r.run, segment);
      } else if segment[|segment| - 1].bdr {
        CountLast(e.run);
        OnlyLastEnd(e.run);
      }
    }
  }

  /** An arrival keeps the message boundaries right exactly when the segment it makes
      contiguous has no end of message before its last packet. */
  lemma ArriveFaithful(r: Rcv, n: int, c: Chunk)
    requires Inv(r) && Faithful(r) && !Received(r, n)
    ensures Faithful(Arrive(r, n, c)) <==> NoInnerEnd(Segment(r, n, c))
    ensures Stream(Arrive(r, n, c)) == Stream(r) + Segment(r, n, c)
  {
    AcceptKeeps(r, n, c);
    var e, segment := Accept(r, n, c), Segment(r, n, c);
    assert e.run == r.run + segment;
    if segment == [] {
      assert Arrive(r, n, c) == e;
      assert Stream(e) == Stream(r) + segment;
    } else {
      CountExact(r, e, segment);
      CheckFaithful(r, e, segment);
      assert r.taken + r.ready + (r.run + segment) == Stream(r) + segment;
    }
  }

  lemma CheckFaithful(r: Rcv, e: Rcv, segment: seq<Chunk>)
    requires Inv(r) && Faithful(r) && segment != []
    requires e == r.(base := e.base, run := r.run + segment, pending := e.pending)
    requires Exact(Count(e)) <==> NoInnerEnd(segment)
    ensures Faithful(Check(e)) <==> NoInnerEnd(segment)
    ensures Stream(Check(e)) == r.taken + r.ready + e.run
  {
    var counted := Count(e);
    assert Stream(counted) == r.taken + r.ready + e.run;
    if counted.msgNum > r.msgNum && r.ready == [] {
      if NoInnerEnd(segment) {
        RightHarvest(counted);
      } else {
        InnerEndStays(r.run, segment);
        MergedHarvest(counted);
      }
    }
  }

  lemma RightHarvest(r: Rcv)
    requires Faithful(r) && r.ready == [] && r.msgNum >= 1
    ensures Faithful(EndReceive(Harvest(r), true))
    ensures Stream(EndReceive(Harvest(r), true)) == Stream(r)
  {
    HarvestExact(r);
    var h := Harvest(r);
    assert r.taken + [] == r.taken;
    ConcatAssociative(r.taken, h.ready, h.run);
    if h.locked {
      TakeFaithful(h.(locked := false));
    }
  }

  /** Otherwise two messages are handed over as one. */
  lemma MergedHarvest(r: Rcv)
    requires r.delivered == Parse(r.taken) && r.ready == [] && r.msgNum == 1
    requires r.firstEnd == |r.run| - 1 && FirstBdr(r.run) < |r.run| - 1 && CountBdr(r.run) >= 2
    ensures !Faithful(EndReceive(Harvest(r), true))
    ensures Stream(EndReceive(Harvest(r), true)) == Stream(r)
  {
    var h := Harvest(r);
    assert h == r.(ready := r.run, run := [], msgNum := 0, firstEnd := h.firstEnd);
    if r.locked {
      MergedHandOver(h.(locked := false));
    } else {
      MergedWaits(r, h);
    }
  }

  lemma MergedHandOver(h: Rcv)
    requires h.delivered == Parse(h.taken) && h.run == [] && h.msgNum == 0 && CountBdr(h.ready) >= 2
    ensures !Faithful(Take(h)) && Stream(Take(h)) == h.taken + h.ready
  {
    OneDeliveryForTwo(h.taken, h.ready);
    assert Take(h) == HandOver(h);
  }

  lemma MergedWaits(r: Rcv, h: Rcv)
    requires h == r.(ready := r.run, run := [], msgNum := 0, firstEnd := h.firstEnd)
    requires r.ready == [] && FirstBdr(r.run) < |r.run| - 1
    ensures !Faithful(h) && Stream(h) == Stream(r)
  {
    assert !OneMessage(h.ready);
    assert r.taken + [] == r.taken;
  }

  lemma InnerEndStays(run: seq<Chunk>, segment: seq<Chunk>)
    requires segment != [] && segment[|segment| - 1].bdr && !NoInnerEnd(segment)
    ensures var all := run + segment;
      CountBdr(all) >= 2 && FirstBdr(all) < |all| - 1
  {
    var all := run + segment;
    CountAppend(run, segment);
    CountLast(segment);
    CountLast(all);
    OnlyLastEnd(all);
  }

  lemma OneDeliveryForTwo(taken: seq<Chunk>, merged: seq<Chunk>)
    requires CountBdr(merged) >= 2
    ensures |Parse(taken + merged)| >= |Parse(taken)| + 2
  {
    ParseCounts(taken);
    ParseCounts(taken + merged);
    CountAppend(taken, merged);
  }
}
