/**
  When a receive call blocks, when it fails, and what ends it (ump_sock.c:534-605, 851-865).

  Main result: in every run a call that is blocked goes on exactly as long as the next message
  has not arrived in full, and the arrival that completes it ends the call with that message
  (BlockedCallGetsNext).
 */
module BlockedCalls {
  import opened Circular
  import opened Message
  import opened SenderModel
  import opened Transfer
  import TransferResults
  import RM = ReceiverModel
  import RX = ReceiverExact
  import RL = ReceiverLinks

  // ---------- a receive call ----------

  /** A call is blocked if and only if no message is harvested and the connection is established. */
  lemma CallBlocksExactly(s: RL.Sock, established: bool)
    requires RL.LinkInv(s) && !s.wild && !s.r.locked
    ensures RL.ReceiveCode(s, established).r.locked <==> s.r.ready == [] && established
    ensures s.r.ready == [] ==> RL.ReceiveCode(s, established) == s.(r := s.r.(locked := established))
    ensures s.r.ready != [] ==> |RL.ReceiveCode(s, established).r.delivered| == |s.r.delivered| + 1
  {
  }

  /** A second call leaves the blocked one alone. */
  lemma BlockedCallStays(s: RL.Sock, established: bool)
    requires s.r.locked
    ensures RL.ReceiveCode(s, established) == s
  {
  }

  // ---------- an arrival while a call is blocked ----------

  /** The packets from the last message's end up to the new end of what is contiguous: one complete
      message. */
  predicate CompletesMessage(s: RL.Sock, n: int, c: Chunk) {
    && !RL.Strays(s, n) && !RM.Received(s.r, n)
    && RX.Segment(s.r, n, c) != [] && RX.OneMessage(s.r.run + RX.Segment(s.r, n, c))
  }

  /** A blocked call ends if and only if the arrival completes a message, and gets that message. */
  lemma ArrivalEndsBlockedCall(s: RL.Sock, n: int, c: Chunk)
    requires RL.LinkInv(s) && !s.wild && s.r.locked && RX.Faithful(s.r)
    requires !RM.Received(s.r, n) ==> RX.NoInnerEnd(RX.Segment(s.r, n, c))
    ensures var t := RL.ArriveCode(s, n, c);
      && (t.r.locked <==> !CompletesMessage(s, n, c))
      && t.r.delivered == s.r.delivered
           + if CompletesMessage(s, n, c) then [Payload(s.r.run + RX.Segment(s.r, n, c))] else []
  {
    if !RL.Strays(s, n) && !RM.Received(s.r, n) {
      RM.AcceptKeeps(s.r, n, c);
      AcceptedRun(s.r, n, c);
      BlockedCheck(s.r, RM.Accept(s.r, n, c), RX.Segment(s.r, n, c));
    }
  }

  lemma AcceptedRun(r: RM.Rcv, n: int, c: Chunk)
    requires RM.Inv(r) && !RM.Received(r, n)
    ensures RM.Accept(r, n, c).run == r.run + RX.Segment(r, n, c)
  {
    RM.AcceptKeeps(r, n, c);
  }

  /** The check of a run that has grown while a call is blocked, and so no message is counted. */
  lemma BlockedCheck(r: RM.Rcv, e: RM.Rcv, segment: seq<Chunk>)
    requires RM.Inv(r) && r.locked && RX.Faithful(r) && RX.NoInnerEnd(segment)
    requires e == r.(base := e.base, run := r.run + segment, pending := e.pending)
    requires |segment| == e.base - r.base
    ensures segment == [] ==> !RX.OneMessage(r.run)
    ensures segment != [] ==>
      var t, whole := RM.Check(e), r.run + segment;
      && (t.locked <==> !RX.OneMessage(whole))
      && t.delivered == r.delivered + if RX.OneMessage(whole) then [Payload(whole)] else []
  {
    CountZero(r.run);
    if segment != [] {
      OnlyEnd(r.run, segment);
      if segment[|segment| - 1].bdr {
        EndedCall(RM.Count(e), r.run + segment);
      }
    }
  }

  lemma OnlyEnd(run: seq<Chunk>, segment: seq<Chunk>)
    requires CountBdr(run) == 0 && segment != [] && RX.NoInnerEnd(segment)
    ensures RX.OneMessage(run + segment) <==> segment[|segment| - 1].bdr
  {
    var whole := run + segment;
    assert whole[|whole| - 1] == segment[|segment| - 1];
    if segment[|segment| - 1].bdr {
      CountAppend(run, segment[..|segment| - 1]);
      assert whole[..|whole| - 1] == run + segment[..|segment| - 1];
      RX.OnlyLastEnd(whole);
    }
  }

  lemma EndedCall(c: RM.Rcv, whole: seq<Chunk>)
    requires c.locked && c.ready == [] && c.run == whole != [] && c.msgNum == 1 && c.firstEnd == |whole| - 1
    ensures var t := RM.EndReceive(RM.Harvest(c), true);
      !t.locked && t.delivered == c.delivered + [Payload(whole)]
  {
    assert RM.Harvest(c).ready == whole && RM.Harvest(c).msgNum == 0;
  }

  // ---------- in every run ----------

  /** Either the call stays blocked, or it has returned one message. */
  predicate ReturnsAtMostOne(before: RL.Sock, after: RL.Sock) {
    if after.r.locked then after.r.delivered == before.r.delivered
    else !after.wild && before.r.delivered <= after.r.delivered && |after.r.delivered| == |before.r.delivered| + 1
  }

  lemma ArrivalToBlocked(s: Sys, n: int, c: Chunk)
    requires SysInv(s) && Enabled(s, DeliverData(n, c)) && s.rcv.r.locked
    ensures ReturnsAtMostOne(s.rcv, Do(s, DeliverData(n, c)).rcv)
  {
    DataIsRead(s, n, c);
    SegmentOfMessage(s.snd.iss, s.snd.next, s.stream, s.snd.start - s.snd.iss, s.rcv, n, c);
    ArrivalEndsBlockedCall(s.rcv, n, c);
  }

  lemma SegmentOfMessage(iss: int, next: int, stream: seq<Chunk>, from: int, rcv: RL.Sock, n: int, c: Chunk)
    requires RcvInv(iss, next, stream, rcv) && !rcv.wild
    requires NoEndFrom(stream, from) && 0 <= from <= rcv.r.base - iss
    requires n < next && IsPacket(iss, stream, n, c)
    ensures !RM.Received(rcv.r, n) ==> RX.NoInnerEnd(RX.Segment(rcv.r, n, c))
  {
    if !RM.Received(rcv.r, n) {
      AcceptFollowsStream(iss, next, stream, rcv.r, n, c);
      ArrivalStaysInMessage(stream, from, RX.Segment(rcv.r, n, c), rcv.r.base - iss);
    }
  }

  /** In every run a data packet that comes while a call is blocked either leaves the call blocked
      and nothing complete behind, or ends it with the next message that was sent. */
  lemma BlockedCallGetsNext(iss: int, wnd: U16, trace: seq<Sys>, i: nat, n: int, c: Chunk)
    requires Run(iss, wnd, trace) && i < |trace|
    requires Enabled(trace[i], DeliverData(n, c)) && trace[i].rcv.r.locked
    ensures var s, t := trace[i], Do(trace[i], DeliverData(n, c));
      var returned := s.rcv.r.delivered;
      && (!t.rcv.r.locked ==>
           |returned| < |s.submitted| && t.rcv.r.delivered == returned + [s.submitted[|returned|]])
      && (t.rcv.r.locked ==> t.rcv.r.delivered == returned)
      && (t.rcv.r.locked && !t.rcv.wild ==> returned == Parse(RX.Stream(t.rcv.r)))
  {
    RunKeepsInv(iss, wnd, trace, i);
    var s := trace[i];
    DeliverDataKeepsInv(s, n, c);
    ArrivalToBlocked(s, n, c);
    ReturnedIsNext(s, Do(s, DeliverData(n, c)));
  }

  lemma ReturnedIsNext(s: Sys, t: Sys)
    requires SysInv(t) && t.submitted == s.submitted && s.rcv.r.locked && !s.rcv.wild
    requires ReturnsAtMostOne(s.rcv, t.rcv)
    ensures var returned := s.rcv.r.delivered;
      && (!t.rcv.r.locked ==>
           |returned| < |s.submitted| && t.rcv.r.delivered == returned + [s.submitted[|returned|]])
      && (t.rcv.r.locked && !t.rcv.wild ==> returned == Parse(RX.Stream(t.rcv.r)))
  {
    if !t.rcv.r.locked {
      TransferResults.DeliveredIsPrefix(t);
      OneMoreOfPrefix(s.rcv.r.delivered, t.rcv.r.delivered, t.submitted);
    } else if !t.rcv.wild {
      RM.NoMessageIsLost(t.rcv.r, t.listening);
      TransferResults.AllHandedOver(t.rcv.r);
    }
  }

  lemma OneMoreOfPrefix(before: seq<seq<Byte>>, after: seq<seq<Byte>>, sent: seq<seq<Byte>>)
    requires before <= after <= sent && |after| == |before| + 1
    ensures |before| < |sent| && after == before + [sent[|before|]]
  {
    assert after[|before|] == sent[|before|];
  }
}
