/**
  What holds in every run of the two-endpoint system of module Transfer.

  The receiver's list can go wrong in one way (module ReceiverLinks): a receive call harvests
  a message that empties the contiguous run while packets are held ahead.  The receiver is
  then stuck.  In a run without such a call everything below holds of the program; in any
  run it holds up to the first use of freed memory.
 */
module TransferResults {
  import opened Circular
  import opened Message
  import opened SenderModel
  import opened Transfer
  import RM = ReceiverModel
  import RX = ReceiverExact
  import RL = ReceiverLinks

  // ---------- delivery ----------

  /** In every run, until freed memory is used, the messages the receive calls have returned
      are a prefix of the messages the send calls were given: in order, each once, byte for
      byte. */
  lemma DeliveredUntilWild(iss: int, wnd: U16, trace: seq<Sys>, i: nat)
    requires Run(iss, wnd, trace) && i < |trace| && !trace[i].rcv.wild
    ensures trace[i].rcv.r.delivered <= trace[i].submitted
  {
    RunKeepsInv(iss, wnd, trace, i);
    DeliveredIsPrefix(trace[i]);
  }

  /** In every state of every careful run, the messages the receive calls have returned are a
      prefix of the messages the send calls were given: in order, each once, byte for byte. */
  lemma EndToEnd(iss: int, wnd: U16, trace: seq<Sys>, i: nat)
    requires CarefulRun(iss, wnd, trace) && i < |trace|
    ensures trace[i].rcv.r.delivered <= trace[i].submitted
    ensures !trace[i].rcv.wild && trace[i].rcv.stray == map[]
  {
    CarefulIsRun(iss, wnd, trace);
    CarefulRunIsSound(iss, wnd, trace, i);
    DeliveredUntilWild(iss, wnd, trace, i);
  }

  lemma DeliveredIsPrefix(s: Sys)
    requires SysInv(s) && !s.rcv.wild
    ensures s.rcv.r.delivered <= s.submitted
  {
    TakenIsPrefix(s.rcv.r.taken, s.rcv.r.ready, s.rcv.r.run, s.stream, s.rcv.r.base - s.snd.iss);
  }

  lemma TakenIsPrefix(taken: seq<Chunk>, ready: seq<Chunk>, run: seq<Chunk>, stream: seq<Chunk>, k: nat)
    requires k <= |stream| && taken + ready + run == stream[..k]
    ensures Parse(taken) <= Parse(stream)
  {
    var rest := (ready + run) + stream[k..];
    assert stream == stream[..k] + stream[k..];
    ConcatAssociative(taken, ready, run);
    ConcatAssociative(taken, ready + run, stream[k..]);
    ParsePrefix(taken, rest);
  }

  /** In every state of every run the receiver's base lies between the sender's base and the
      highest number sent plus one.  When the latest send call has ended with TRUE, the
      receiver has every packet of its message and of all messages before it. */
  lemma SendTrueMeansReceived(iss: int, wnd: U16, trace: seq<Sys>, i: nat)
    requires Run(iss, wnd, trace) && i < |trace|
    ensures var s := trace[i];
      && s.snd.base <= s.rcv.r.base <= s.snd.next
      && (s.snd.mode == Idle ==> s.rcv.r.base == s.snd.last + 1)
      && (s.snd.mode == Idle && !s.rcv.wild ==>
           RX.Stream(s.rcv.r) == s.stream && Parse(RX.Stream(s.rcv.r)) == s.submitted)
  {
    RunKeepsInv(iss, wnd, trace, i);
    if trace[i].snd.mode == Idle {
      IdleMeansReceived(trace[i]);
    }
  }

  lemma IdleMeansReceived(s: Sys)
    requires SysInv(s) && s.snd.mode == Idle
    ensures s.rcv.r.base == s.snd.last + 1 && (!s.rcv.wild ==> RX.Stream(s.rcv.r) == s.stream)
  {
    assert s.stream[..|s.stream|] == s.stream;
  }

  /** In every state of every run, until freed memory is used, every packet the receiver holds
      ahead of its base belongs to the sender's current message, and the receiver counts the
      messages of its run and knows where the first of them ends. */
  lemma BoundariesAreExact(iss: int, wnd: U16, trace: seq<Sys>, i: nat)
    requires Run(iss, wnd, trace) && i < |trace| && !trace[i].rcv.wild
    ensures var s := trace[i];
      && IsCurrent(s.snd.start, s.snd.last, s.snd.mode == Active, s.snd.msg, s.rcv.r.pending)
      && s.rcv.r.msgNum == CountBdr(s.rcv.r.run)
      && s.rcv.r.firstEnd == if s.rcv.r.msgNum == 0 then -1 else FirstBdr(s.rcv.r.run)
  {
    RunKeepsInv(iss, wnd, trace, i);
    HeldIsCurrent(trace[i]);
  }

  /** c is packet i of a message: its share of the bytes, and the end mark on the last one. */
  predicate IsPiece(msg: seq<seq<Byte>>, i: int, c: Chunk) {
    0 <= i < |msg| && c == Chunk(i == |msg| - 1, msg[i])
  }

  /** Every packet is numbered within the current message; while that is being sent, it is the
      packet its number says. */
  ghost predicate IsCurrent(start: int, last: int, active: bool, msg: seq<seq<Byte>>, packets: map<int, Chunk>) {
    && (forall k :: k in packets ==> start <= k <= last)
    && (active ==> forall k :: k in packets ==> IsPiece(msg, k - start, packets[k]))
  }

  lemma HeldIsCurrent(s: Sys)
    requires SysInv(s) && !s.rcv.wild
    ensures IsCurrent(s.snd.start, s.snd.last, s.snd.mode == Active, s.snd.msg, s.rcv.r.pending)
  {
    HeldIsSent(s);
    HeldBelongs(s.snd, s.stream, s.rcv.r.pending);
  }

  lemma HeldBelongs(snd: Snd, stream: seq<Chunk>, packets: map<int, Chunk>)
    requires snd.mode == Active ==> EndsWith(snd.iss, stream, snd.start, snd.msg)
    requires forall k :: k in packets ==> snd.start <= k <= snd.last && IsPacket(snd.iss, stream, k, packets[k])
    ensures IsCurrent(snd.start, snd.last, snd.mode == Active, snd.msg, packets)
  {
    if snd.mode == Active {
      PacketsAreCurrent(snd.iss, snd.start, snd.msg, stream, packets);
    }
  }

  lemma HeldIsSent(s: Sys)
    requires SysInv(s) && !s.rcv.wild
    ensures forall k :: k in s.rcv.r.pending ==>
      s.snd.start <= k <= s.snd.last && IsPacket(s.snd.iss, s.stream, k, s.rcv.r.pending[k])
  {
  }

  lemma PacketsAreCurrent(iss: int, start: int, msg: seq<seq<Byte>>, stream: seq<Chunk>, packets: map<int, Chunk>)
    requires EndsWith(iss, stream, start, msg)
    requires forall k :: k in packets ==> start <= k && IsPacket(iss, stream, k, packets[k])
    ensures forall k :: k in packets ==> IsPiece(msg, k - start, packets[k])
  {
    forall k | k in packets ensures IsPiece(msg, k - start, packets[k]) {
      PieceOfMessage(iss, start, msg, stream, k);
    }
  }

  lemma PieceOfMessage(iss: int, start: int, msg: seq<seq<Byte>>, stream: seq<Chunk>, k: int)
    requires EndsWith(iss, stream, start, msg) && start <= k < iss + |stream|
    ensures IsPiece(msg, k - start, stream[k - iss])
  {
    assert stream[start - iss..][k - start] == stream[k - iss];
  }

  /** A receive call that blocks or fails leaves nothing complete behind: the user has had
      every message that has arrived in full. */
  lemma NothingCompleteWaits(iss: int, wnd: U16, trace: seq<Sys>, i: nat)
    requires Run(iss, wnd, trace) && i < |trace| && !trace[i].rcv.wild
    requires trace[i].rcv.r.locked || RM.ReceiveFails(trace[i].rcv.r, trace[i].listening)
    ensures trace[i].rcv.r.delivered == Parse(RX.Stream(trace[i].rcv.r))
  {
    RunKeepsInv(iss, wnd, trace, i);
    RM.NoMessageIsLost(trace[i].rcv.r, trace[i].listening);
    AllHandedOver(trace[i].rcv.r);
  }

  lemma AllHandedOver(r: RM.Rcv)
    requires RM.Inv(r) && RX.Faithful(r) && r.ready == []
    ensures r.delivered == Parse(RX.Stream(r))
  {
    ParseCounts(r.run);
    ParseAppend(r.taken, r.run);
    assert r.taken + [] == r.taken;
  }

  /** No packet is sent below the base, at or past the send window's edge, or past the
      message's end; and it is the packet of the stream its number stands for. */
  lemma PacketsStayInWindow(iss: int, wnd: U16, trace: seq<Sys>, i: nat, now: int)
    requires Run(iss, wnd, trace) && i < |trace|
    requires CanTransmit(trace[i].snd)
    ensures var s := trace[i];
      && Enabled(s, SendPacket(now))
      && s.snd.base <= TransmittedNumber(s.snd) < s.snd.edge && TransmittedNumber(s.snd) <= s.snd.last
      && IsPacket(iss, s.stream, TransmittedNumber(s.snd), TransmittedChunk(s.snd))
  {
    RunKeepsInv(iss, wnd, trace, i);
    NothingGoesBack(iss, wnd, trace, 0, i);
    TransmitKeepsInv(trace[i].snd, now);
    TransmittedIsPacket(trace[i].snd, trace[i].stream, trace[i].submitted);
  }

  // ---------- the congestion window ----------

  lemma StepKeepsWindowOpen(s: Sys, x: Action)
    requires SysInv(s) && Enabled(s, x) && WindowOpen(s.snd) && s.snd.cwnd < MODULUS - 1
    ensures WindowOpen(Do(s, x).snd)
  {
    match x
    case DeliverAck(a, w, now) => AckKeepsWindowOpen(s.snd, Some(Reading(s.snd.base, Wire(a))), Some(w), now);
    case SenderTimer(now) => TimeoutKeepsWindowOpen(s.snd, now);
    case _ =>
  }

  /** In every run the congestion window stays at least 1 and the threshold at least 2, unless
      the window has grown to the last value that 16 bits hold. */
  lemma {:induction false} WindowStaysOpen(iss: int, wnd: U16, trace: seq<Sys>, i: nat)
    requires Run(iss, wnd, trace) && i < |trace|
    requires forall j :: 0 <= j < i ==> trace[j].snd.cwnd < MODULUS - 1
    ensures WindowOpen(trace[i].snd)
  {
    if i == 0 {
      InitialWindowOpen(iss, wnd);
    } else {
      WindowStaysOpen(iss, wnd, trace, i - 1);
      RunKeepsInv(iss, wnd, trace, i - 1);
      assert Next(trace[i - 1], trace[i]);
      var x :| Enabled(trace[i - 1], x) && trace[i] == Do(trace[i - 1], x);
      StepKeepsWindowOpen(trace[i - 1], x);
    }
  }

  // ---------- nothing goes back ----------

  predicate NotBehind(s: Sys, t: Sys) {
    && t.snd.iss == s.snd.iss
    && s.snd.base <= t.snd.base && s.snd.next <= t.snd.next && s.rcv.r.base <= t.rcv.r.base
    && s.rcv.r.delivered <= t.rcv.r.delivered && s.submitted <= t.submitted
  }

  lemma StepGoesForward(s: Sys, x: Action)
    requires SysInv(s) && Enabled(s, x)
    ensures NotBehind(s, Do(s, x))
  {
    match x
    case SendPacket(_) => PacketGoesForward(s, x);
    case DeliverAck(a, w, now) => AckGoesForward(s, a, w, now);
    case SenderTimer(now) => TimerGoesForward(s, now);
    case DeliverData(n, c) => ArrivalGoesForward(s, n, c);
    case CallReceive => ReceiveGoesForward(s);
    case _ => OtherGoesForward(s, x);
  }

  lemma OtherGoesForward(s: Sys, x: Action)
    requires Enabled(s, x)
    requires x.Submit? || x.SenderCloses? || x.SenderFails? || x.PrepareAck? || x.SendAck?
      || x.ReceiverCloses? || x.ReceiverClosed?
    ensures NotBehind(s, Do(s, x))
  {
  }

  lemma ReceiveGoesForward(s: Sys)
    requires SysInv(s) && Enabled(s, CallReceive)
    ensures NotBehind(s, Do(s, CallReceive))
  {
    ReceiveKeepsRcv(s.snd.iss, s.snd.next, s.stream, s.rcv, s.listening);
    ReceiveDeliversMore(s.rcv, s.listening);
  }

  lemma ReceiveDeliversMore(rcv: RL.Sock, established: bool)
    ensures rcv.r.delivered <= RL.ReceiveCode(rcv, established).r.delivered
  {
  }

  lemma PacketGoesForward(s: Sys, x: Action)
    requires SysInv(s) && Enabled(s, x) && x.SendPacket?
    ensures NotBehind(s, Do(s, x))
  {
  }

  lemma TimerGoesForward(s: Sys, now: int)
    requires SysInv(s) && Enabled(s, SenderTimer(now))
    ensures NotBehind(s, Do(s, SenderTimer(now)))
  {
    TimeoutKeepsInv(s.snd, now);
    TimeoutSameMessage(s.snd, now);
  }

  lemma ArrivalGoesForward(s: Sys, n: int, c: Chunk)
    requires SysInv(s) && Enabled(s, DeliverData(n, c))
    ensures NotBehind(s, Do(s, DeliverData(n, c)))
  {
    DataIsRead(s, n, c);
    ArrivalKeepsRcv(s.snd, s.stream, s.rcv, n, c);
    ArriveDeliversMore(s.rcv, n, c);
  }

  lemma AckGoesForward(s: Sys, a: int, w: U16, now: int)
    requires SysInv(s) && Enabled(s, DeliverAck(a, w, now))
    ensures NotBehind(s, Do(s, DeliverAck(a, w, now)))
  {
    AckIsRead(s, a, w, now);
    AckKeepsInv(s.snd, Some(a), Some(w), now);
    AckSameMessage(s.snd, Some(a), Some(w), now);
  }

  lemma ArriveDeliversMore(rcv: RL.Sock, n: int, c: Chunk)
    ensures rcv.r.delivered <= RL.ArriveCode(rcv, n, c).r.delivered
  {
    RM.ExtendFrame(rcv.r.(pending := rcv.r.pending[n := c]));
  }

  lemma NextGoesForward(s: Sys, t: Sys)
    requires SysInv(s) && Next(s, t)
    ensures NotBehind(s, t)
  {
    var x :| Enabled(s, x) && t == Do(s, x);
    StepGoesForward(s, x);
  }

  lemma StepsForward(iss: int, wnd: U16, trace: seq<Sys>, k: nat)
    requires Run(iss, wnd, trace) && k + 1 < |trace|
    ensures NotBehind(trace[k], trace[k + 1])
  {
    RunKeepsInv(iss, wnd, trace, k);
    assert Next(trace[k], trace[k + 1]);
    NextGoesForward(trace[k], trace[k + 1]);
  }

  lemma {:induction false} ForwardAlong(trace: seq<Sys>, i: nat, j: nat)
    requires i <= j < |trace|
    requires forall k :: i <= k < j ==> NotBehind(trace[k], trace[k + 1])
    ensures NotBehind(trace[i], trace[j])
    decreases j
  {
    if i < j {
      ForwardAlong(trace, i, j - 1);
      assert NotBehind(trace[j - 1], trace[j - 1 + 1]);
      NotBehindIsTransitive(trace[i], trace[j - 1], trace[j]);
    }
  }

  /** Along every run the bases, the numbers sent and the messages returned never go back. */
  lemma NothingGoesBack(iss: int, wnd: U16, trace: seq<Sys>, i: nat, j: nat)
    requires Run(iss, wnd, trace) && i <= j < |trace|
    ensures NotBehind(trace[i], trace[j])
  {
    forall k | i <= k < j ensures NotBehind(trace[k], trace[k + 1]) {
      StepsForward(iss, wnd, trace, k);
    }
    ForwardAlong(trace, i, j);
  }

  lemma NotBehindIsTransitive(s: Sys, t: Sys, u: Sys)
    requires NotBehind(s, t) && NotBehind(t, u)
    ensures NotBehind(s, u)
  {
  }

  // ---------- when the receiver gets stuck ----------

  /** A step that is not a receive call which strands the packets held ahead: one made while a
      second message waits that ends the run. */
  ghost predicate CarefulNext(s: Sys, t: Sys) {
    exists x :: Enabled(s, x) && t == Do(s, x) && (x == CallReceive ==> !RL.Strands(s.rcv.r))
  }

  ghost predicate CarefulRun(iss: int, wnd: U16, trace: seq<Sys>) {
    && trace != [] && trace[0] == Start(iss, wnd)
    && forall i :: 0 <= i < |trace| - 1 ==> CarefulNext(trace[i], trace[i + 1])
  }

  lemma CarefulIsRun(iss: int, wnd: U16, trace: seq<Sys>)
    requires CarefulRun(iss, wnd, trace)
    ensures Run(iss, wnd, trace)
  {
    forall i | 0 <= i < |trace| - 1 ensures Next(trace[i], trace[i + 1]) {
      assert CarefulNext(trace[i], trace[i + 1]);
      var x :| Enabled(trace[i], x) && trace[i + 1] == Do(trace[i], x);
    }
  }

  /** Stop and wait again: when an arrival completes a message, that is the sender's current
      one and nothing is held ahead of its end.  So no arrival gets the receiver stuck. */
  lemma ArrivalNeverStrands(s: Sys, n: int, c: Chunk)
    requires SysInv(s) && Enabled(s, DeliverData(n, c)) && !RL.Stuck(s.rcv)
    ensures !RL.Stuck(Do(s, DeliverData(n, c)).rcv) && !Do(s, DeliverData(n, c)).rcv.wild
    ensures Do(s, DeliverData(n, c)).rcv.stray == s.rcv.stray
  {
    DataIsRead(s, n, c);
    NotStuckArrives(s.rcv, n, c);
    if RL.Stuck(RL.ArriveCode(s.rcv, n, c)) {
      ArrivalIsLast(s.snd.iss, s.snd.next, s.stream, s.snd.start - s.snd.iss, s.rcv, n, c);
    }
  }

  lemma NotStuckArrives(rcv: RL.Sock, n: int, c: Chunk)
    requires !rcv.wild && !RL.Stuck(rcv)
    ensures !RL.ArriveCode(rcv, n, c).wild && RL.ArriveCode(rcv, n, c).stray == rcv.stray
  {
  }

  /** The arrival would have to complete a message with packets held ahead of its end. */
  lemma ArrivalIsLast(iss: int, next: int, stream: seq<Chunk>, from: int, rcv: RL.Sock, n: int, c: Chunk)
    requires RcvInv(iss, next, stream, rcv) && !rcv.wild && !RL.Stuck(rcv) && next <= iss + |stream|
    requires NoEndFrom(stream, from) && 0 <= from <= rcv.r.base - iss
    requires n < next && IsPacket(iss, stream, n, c)
    ensures !RL.Stuck(RL.ArriveCode(rcv, n, c))
  {
    RL.ArriveGetsStuck(rcv, n, c);
    if RL.Stuck(RL.ArriveCode(rcv, n, c)) {
      var e := RM.Accept(rcv.r, n, c);
      AcceptFollowsStream(iss, next, stream, rcv.r, n, c);
      RM.AcceptKeeps(rcv.r, n, c);
      EndIsLast(iss, next, stream, from, rcv.r.base, e, RX.Segment(rcv.r, n, c));
    }
  }

  lemma EndIsLast(iss: int, next: int, stream: seq<Chunk>, from: int, before: int, e: RM.Rcv, segment: seq<Chunk>)
    requires NoEndFrom(stream, from) && 0 <= from <= before - iss && next <= iss + |stream|
    requires e.base > before && RL.EndsMessage(e.run)
    requires |segment| == e.base - before && segment[|segment| - 1] == e.run[|e.run| - 1]
    requires e.base <= iss + |stream|
    requires forall i :: 0 <= i < |segment| ==> segment[i] == stream[before - iss + i]
    requires forall k :: k in e.pending ==> e.base < k < next
    ensures e.pending == map[]
  {
    var j := e.base - 1 - iss;
    assert segment[|segment| - 1] == stream[j];
    assert j == |stream| - 1;
    assert forall k :: k !in e.pending;
  }

  lemma CarefulStep(s: Sys, x: Action)
    requires SysInv(s) && Enabled(s, x) && Sound(s.rcv)
    requires x == CallReceive ==> !RL.Strands(s.rcv.r)
    ensures Sound(Do(s, x).rcv)
  {
    match x
    case DeliverData(n, c) => ArrivalNeverStrands(s, n, c);
    case CallReceive => RL.ReceiveGetsStuck(s.rcv, s.listening);
    case _ =>
  }

  ghost predicate Sound(rcv: RL.Sock) {
    !rcv.wild && !RL.Stuck(rcv) && rcv.stray == map[]
  }

  lemma CarefulNextIsSound(s: Sys, t: Sys)
    requires SysInv(s) && CarefulNext(s, t) && Sound(s.rcv)
    ensures Sound(t.rcv)
  {
    var x :| Enabled(s, x) && t == Do(s, x) && (x == CallReceive ==> !RL.Strands(s.rcv.r));
    CarefulStep(s, x);
  }

  lemma CarefulThrough(iss: int, wnd: U16, trace: seq<Sys>, j: nat)
    requires CarefulRun(iss, wnd, trace) && j + 1 < |trace| && Sound(trace[j].rcv)
    ensures Sound(trace[j + 1].rcv)
  {
    CarefulIsRun(iss, wnd, trace);
    RunKeepsInv(iss, wnd, trace, j);
    assert CarefulNext(trace[j], trace[j + 1]);
    CarefulNextIsSound(trace[j], trace[j + 1]);
  }

  lemma {:induction false} CarefulRunIsSound(iss: int, wnd: U16, trace: seq<Sys>, i: nat)
    requires CarefulRun(iss, wnd, trace) && i < |trace|
    ensures Sound(trace[i].rcv)
  {
    if i > 0 {
      CarefulRunIsSound(iss, wnd, trace, i - 1);
      CarefulThrough(iss, wnd, trace, i - 1);
    }
  }

  /** Exactly the receive calls that strand packets get the receiver stuck. */
  lemma OnlyStrandingSticks(s: Sys, x: Action)
    requires SysInv(s) && Enabled(s, x) && Sound(s.rcv)
    ensures RL.Stuck(Do(s, x).rcv) <==> x == CallReceive && RL.Strands(s.rcv.r)
  {
    if x == CallReceive {
      RL.ReceiveGetsStuck(s.rcv, s.listening);
    } else {
      CarefulStep(s, x);
    }
  }

  /** A stuck receiver has received its last packet: its base never moves again, and the send
      call in progress at the peer never ends with TRUE. */
  lemma StuckForGood(iss: int, wnd: U16, trace: seq<Sys>, i: nat, j: nat)
    requires Run(iss, wnd, trace) && i <= j < |trace| && !trace[i].rcv.wild && RL.Stuck(trace[i].rcv)
    ensures trace[j].rcv.r.base == trace[i].rcv.r.base
    ensures !trace[j].rcv.wild ==> RL.Stuck(trace[j].rcv)
    ensures trace[j].snd.mode != Idle
  {
    StuckStays(iss, wnd, trace, i, j, trace[i].rcv.r.base);
    RunKeepsInv(iss, wnd, trace, i);
    RunKeepsInv(iss, wnd, trace, j);
    StuckIsBehind(trace[i]);
    NothingGoesBack(iss, wnd, trace, i, j);
    BehindIsBusy(trace[j]);
  }

  lemma BehindIsBusy(s: Sys)
    requires SysInv(s) && s.rcv.r.base < s.snd.next
    ensures s.snd.mode != Idle
  {
  }

  ghost predicate StuckAt(rcv: RL.Sock, base: int) {
    rcv.r.base == base && (!rcv.wild ==> RL.Stuck(rcv))
  }

  lemma StuckNext(s: Sys, t: Sys, base: int)
    requires SysInv(s) && Next(s, t) && StuckAt(s.rcv, base)
    ensures StuckAt(t.rcv, base)
  {
    var x :| Enabled(s, x) && t == Do(s, x);
    StuckStep(s, x);
  }

  lemma StuckStays(iss: int, wnd: U16, trace: seq<Sys>, i: nat, j: nat, base: int)
    requires Run(iss, wnd, trace) && i <= j < |trace| && StuckAt(trace[i].rcv, base)
    ensures StuckAt(trace[j].rcv, base)
  {
    forall k | i <= k < j && StuckAt(trace[k].rcv, base) ensures StuckAt(trace[k + 1].rcv, base) {
      StuckThrough(iss, wnd, trace, k, base);
    }
    StuckAlong(trace, i, j, base);
  }

  lemma {:induction false} StuckAlong(trace: seq<Sys>, i: nat, j: nat, base: int)
    requires i <= j < |trace| && StuckAt(trace[i].rcv, base)
    requires forall k :: i <= k < j && StuckAt(trace[k].rcv, base) ==> StuckAt(trace[k + 1].rcv, base)
    ensures StuckAt(trace[j].rcv, base)
    decreases j
  {
    if i < j {
      StuckAlong(trace, i, j - 1, base);
      assert StuckAt(trace[j - 1 + 1].rcv, base);
    }
  }

  lemma StuckThrough(iss: int, wnd: U16, trace: seq<Sys>, j: nat, base: int)
    requires Run(iss, wnd, trace) && j + 1 < |trace| && StuckAt(trace[j].rcv, base)
    ensures StuckAt(trace[j + 1].rcv, base)
  {
    RunKeepsInv(iss, wnd, trace, j);
    assert Next(trace[j], trace[j + 1]);
    StuckNext(trace[j], trace[j + 1], base);
  }

  lemma StuckIsBehind(s: Sys)
    requires SysInv(s) && !s.rcv.wild && RL.Stuck(s.rcv)
    ensures s.rcv.r.base < s.snd.next
  {
    RL.HasKey(s.rcv.r.pending);
    var k :| k in s.rcv.r.pending;
  }

  lemma StuckStep(s: Sys, x: Action)
    requires Enabled(s, x) && (!s.rcv.wild ==> RL.LinkInv(s.rcv) && RL.Stuck(s.rcv))
    ensures Do(s, x).rcv.r.base == s.rcv.r.base
    ensures !Do(s, x).rcv.wild ==> RL.Stuck(Do(s, x).rcv)
  {
    if !s.rcv.wild {
      RL.BaseStrays(s.rcv);
      var base := s.rcv.r.base;
      match x
      case DeliverData(n, c) => RL.StepWaits(s.rcv, RL.Arrival(Reading(base, Wire(n)), c), base, base);
      case CallReceive => RL.StepWaits(s.rcv, RL.Call(s.listening), base, base);
      case ReceiverCloses(_) => RL.StepWaits(s.rcv, RL.Ended, base, base);
      case ReceiverClosed => RL.StepWaits(s.rcv, RL.Ended, base, base);
      case _ =>
    }
  }
}
