/**
  A run of two conforming endpoints in which the receiver gets stuck.  Three messages are
  sent: one packet, one packet, two packets.  The first packet of the third message is late.
  The user reads between the arrivals of the two, and what the next receive call returns is
  not a message.
 */
module StrandedRun {
  import opened Circular
  import opened Message
  import opened SenderModel
  import opened Transfer
  import RL = ReceiverLinks
  import W = Window

  const SYN_WND := W.REC_QUEUE_LIMIT

  /** Everything sent is acked and the sender may send three packets at once if it has grown
      its window. */
  predicate Quiet(s: Sys, n: int) {
    && s.open && s.listening && !s.rcv.wild && s.snd.mode == Idle && s.snd.iss == 0
    && s.snd.base == s.snd.start == s.snd.next == s.rcv.r.base == n
    && !s.snd.fast && 1 <= s.snd.cwnd < 10 && s.snd.theirWnd >= 10 && s.snd.ssthresh == INITIAL_SSTHRESH
  }

  lemma SubmitBytes(s: Sys, n: int, message: seq<Byte>) returns (t: Sys)
    requires Reached(0, SYN_WND, s) && Quiet(s, n) && 1 <= |message| <= 2
    ensures Reached(0, SYN_WND, t)
    ensures t.snd == Begin(s.snd, Split(message, 1)) && t.rcv == s.rcv && t.submitted == s.submitted + [message]
    ensures t.open && t.listening && t.acks == s.acks && t.rwnd == s.rwnd && t.pos == s.pos
  {
    SplitCount(message, 1);
    t := Act(0, SYN_WND, s, Submit(message, 1));
  }

  /** A message of one byte is sent and acked while the receiver takes it in. */
  lemma SendByte(s: Sys, n: int, b: Byte) returns (t: Sys)
    requires Reached(0, SYN_WND, s) && Quiet(s, n) && s.snd.cwnd < 9
    requires RL.ArriveCode(s.rcv, n, Chunk(true, [b])).r.base == n + 1
    requires !RL.ArriveCode(s.rcv, n, Chunk(true, [b])).wild
    requires W.Inv(WindowOf(s)) && s.pos >= n + 30
    ensures Reached(0, SYN_WND, t) && Quiet(t, n + 1) && t.snd.cwnd == s.snd.cwnd + 1
    ensures t.rcv == RL.ArriveCode(s.rcv, n, Chunk(true, [b])) && t.submitted == s.submitted + [[b]]
    ensures W.Inv(WindowOf(t)) && t.pos >= s.pos
  {
    assert Split([b], 1) == [[b]];
    t := SubmitBytes(s, n, [b]);
    t := ByteArrives(t, n, b);
    t := AckAll(t, n);
  }

  lemma ByteArrives(s: Sys, n: int, b: Byte) returns (t: Sys)
    requires Reached(0, SYN_WND, s) && s.listening && !s.rcv.wild && s.rcv.r.base == n
    requires s.snd.mode == Active && s.snd.msg == [[b]] && s.snd.start == s.snd.base == s.snd.next == n
    requires s.snd.dataPos == 0 && s.snd.wndPos == 1
    ensures Reached(0, SYN_WND, t) && t == s.(snd := Transmit(s.snd, 0), rcv := t.rcv, data := t.data)
    ensures t.rcv == RL.ArriveCode(s.rcv, n, Chunk(true, [b]))
  {
    assert TransmittedChunk(s.snd) == Chunk(true, [b]);
    t := Act(0, SYN_WND, s, SendPacket(0));
    assert (n, Chunk(true, [b])) in t.data;
    ReadingIsExact(n, n);
    t := Act(0, SYN_WND, t, DeliverData(n, Chunk(true, [b])));
  }

  /** The ack of everything, with a refreshed window. */
  lemma AckAll(s: Sys, n: int) returns (t: Sys)
    requires Reached(0, SYN_WND, s) && s.open && s.listening && !s.rcv.wild && s.rcv.r.base == n + 1
    requires s.snd.mode == Active && s.snd.iss == 0
    requires s.snd.base == s.snd.start == n == s.snd.last && s.snd.next == n + 1
    requires !s.snd.fast && 1 <= s.snd.cwnd < 9 && s.snd.ssthresh == INITIAL_SSTHRESH
    requires W.Inv(W.Win(n, s.rwnd, s.pos)) && s.pos >= n + 30
    ensures Reached(0, SYN_WND, t) && Quiet(t, n + 1) && t.snd.cwnd == s.snd.cwnd + 1
    ensures t.rcv == s.rcv && t.submitted == s.submitted && W.Inv(WindowOf(t)) && t.pos >= s.pos
  {
    var w;
    t, w := AckIsSent(s, n);
    t := AckArrives(t, n, w);
  }

  lemma AckIsSent(s: Sys, n: int) returns (t: Sys, w: U16)
    requires Reached(0, SYN_WND, s) && !s.rcv.wild && s.rcv.r.base == n + 1
    requires W.Inv(W.Win(n, s.rwnd, s.pos)) && s.pos >= n + 30
    ensures Reached(0, SYN_WND, t) && (n + 1, w) in t.acks && w >= 10
    ensures W.Inv(WindowOf(t)) && t.pos >= s.pos
    ensures t == s.(rwnd := t.rwnd, pos := t.pos, acks := t.acks, ackInfo := t.ackInfo)
  {
    RefreshLeavesRoom(WindowOf(s), s.rcv.r.msgNum > 0);
    w := NextWindow(s, false).rwnd;
    t := Act(0, SYN_WND, s, PrepareAck(false));
    t := Act(0, SYN_WND, t, SendAck);
  }

  lemma AckArrives(s: Sys, n: int, w: U16) returns (t: Sys)
    requires Reached(0, SYN_WND, s) && s.open && s.listening && !s.rcv.wild && s.rcv.r.base == n + 1
    requires s.snd.mode == Active && s.snd.iss == 0
    requires s.snd.base == s.snd.start == n == s.snd.last && s.snd.next == n + 1
    requires !s.snd.fast && 1 <= s.snd.cwnd < 9 && s.snd.ssthresh == INITIAL_SSTHRESH
    requires (n + 1, w) in s.acks && w >= 10
    ensures Reached(0, SYN_WND, t) && t.snd.cwnd == s.snd.cwnd + 1 && Quiet(t, n + 1)
    ensures t == s.(snd := t.snd)
  {
    ReachedKeepsInv(0, SYN_WND, s);
    AckEndsCall(s.snd, n + 1, w);
    t := AckTaken(s, n + 1, w);
  }

  lemma AckTaken(s: Sys, a: int, w: U16) returns (t: Sys)
    requires Reached(0, SYN_WND, s) && s.snd.mode != Failed && (a, w) in s.acks && s.snd.base <= a <= s.snd.base + 1
    ensures Reached(0, SYN_WND, t) && t == s.(snd := OnAck(s.snd, Some(a), Some(w), 0))
  {
    ReadingIsExact(s.snd.base, a);
    t := Act(0, SYN_WND, s, DeliverAck(a, w, 0));
  }

  lemma RefreshLeavesRoom(w: W.Win, constrained: bool)
    requires W.Inv(w) && w.pos >= w.base + 29
    ensures var t := W.Refreshed(w, constrained);
      W.Inv(t) && t.rwnd >= 10 && t.pos >= w.pos && t.base == w.base
  {
    if constrained {
      W.RefreshEndsAtPos(w);
    } else {
      W.FreshWindow(w);
    }
  }

  lemma AckEndsCall(snd: Snd, a: int, w: U16)
    requires SenderModel.Inv(snd) && snd.mode == Active && a == snd.base + 1 == snd.last + 1 == snd.next
    requires !snd.fast && snd.cwnd < snd.ssthresh < HALF && snd.iss == 0
    ensures var t := OnAck(snd, Some(a), Some(w), 0);
      && t.mode == Idle && t.start == t.base == t.next == a && t.iss == 0 && !t.fast
      && t.cwnd == snd.cwnd + 1 && t.theirWnd == w && t.ssthresh == snd.ssthresh
  {
    assert NoteRepeated(snd, a) == snd;
    assert Accepts(snd, a);
    NewAckKeepsInv(snd, a, Some(w), 0);
    NewAckWindow(snd, a, Some(w), 0);
    var n := Notify(Advance(snd, a), Some(w));
    assert n.theirWnd == w && n.fast == snd.fast && n.cwnd == snd.cwnd && n.ssthresh == snd.ssthresh;
    assert Congest(n, 0).theirWnd == w && Congest(n, 0).cwnd == snd.cwnd + 1 && !Congest(n, 0).fast;
  }

  /** Two messages have been sent and acked; none of them has been read. */
  lemma TwoMessages() returns (s: Sys)
    ensures Reached(0, SYN_WND, s) && Quiet(s, 2) && s.snd.cwnd == 3
    ensures s.rcv == RL.ArriveCode(RL.ONE_WAITS, 1, RL.B) && s.submitted == [[65], [66]]
  {
    s := Start(0, SYN_WND);
    StartReached(0, SYN_WND);
    W.FreshWindow(W.Win(0, 0, 0));
    RL.ExampleArrivals();
    s := SendByte(s, 0, 65);
    s := SendByte(s, 1, 66);
  }

  /** Both packets of a message of two are sent. */
  lemma SendTwo(s: Sys) returns (t: Sys)
    requires Reached(0, SYN_WND, s) && Quiet(s, 2) && s.snd.cwnd == 3
    ensures Reached(0, SYN_WND, t) && t.rcv == s.rcv && t.open && t.listening
    ensures (2, RL.C) in t.data && (3, RL.D) in t.data && t.submitted == s.submitted + [[67, 68]]
  {
    TwoPieces();
    t := SubmitBytes(s, 2, [67, 68]);
    assert t.snd.wndPos == 2 && TransmittedChunk(t.snd) == RL.C;
    t := Act(0, SYN_WND, t, SendPacket(0));
    assert (2, RL.C) in t.data && TransmittedChunk(t.snd) == RL.D;
    t := Act(0, SYN_WND, t, SendPacket(0));
  }

  /** Two messages wait, and the last packet of a third one has overtaken its first. */
  lemma LatePacket() returns (s: Sys)
    ensures Reached(0, SYN_WND, s) && s.rcv == RL.TWO_WAIT && s.listening
    ensures (2, RL.C) in s.data && s.submitted == [[65], [66], [67, 68]]
  {
    s := TwoMessages();
    s := SendTwo(s);
    RL.ExampleArrivals();
    s := Arrives(s, 2, 3, RL.D);
  }

  lemma Arrives(s: Sys, base: int, n: int, c: Chunk) returns (t: Sys)
    requires Reached(0, SYN_WND, s) && s.listening && !s.rcv.wild && s.rcv.r.base == base <= n <= base + 1
    requires (n, c) in s.data
    ensures Reached(0, SYN_WND, t) && t == s.(rcv := RL.ArriveCode(s.rcv, n, c))
  {
    ReadingIsExact(base, n);
    t := Act(0, SYN_WND, s, DeliverData(n, c));
  }

  lemma Reads(s: Sys) returns (t: Sys)
    requires Reached(0, SYN_WND, s) && !s.rcv.wild
    ensures Reached(0, SYN_WND, t) && t == s.(rcv := RL.ReceiveCode(s.rcv, s.listening))
  {
    t := Act(0, SYN_WND, s, CallReceive);
  }

  lemma TwoPieces()
    ensures Split([67, 68], 1) == [[67], [68]]
  {
    var data: seq<Byte> := [67, 68];
    assert data[..1] == [67] && data[1..] == [68];
  }

  /** The receive calls of this run return a message that was never sent.  The first of them
      is made while a second message waits that ends the run and a packet is held ahead. */
  lemma DeliveryGoesWrong() returns (s: Sys)
    ensures Reached(0, SYN_WND, s) && s.rcv.wild
    ensures s.submitted == [[65], [66], [67, 68]] && s.rcv.r.delivered == [[65], [66, 67, 68]]
    ensures !(s.rcv.r.delivered <= s.submitted)
  {
    s := LatePacket();
    RL.ExampleCall();
    s := Reads(s);
    s := Arrives(s, 2, 2, RL.C);
    StrayIsHeld();
    s := Reads(s);
    RL.ExampleSpill();
    NotAPrefix(s.rcv.r.delivered, s.submitted);
  }

  lemma StrayIsHeld()
    ensures !RL.ArriveCode(RL.STUCK, 2, RL.C).wild
  {
  }

  lemma NotAPrefix(d: seq<seq<Byte>>, m: seq<seq<Byte>>)
    requires d == [[65], [66, 67, 68]] && m == [[65], [66], [67, 68]]
    ensures !(d <= m)
  {
    assert d[1] != m[1] by {
      assert |d[1]| != |m[1]|;
    }
  }
}
