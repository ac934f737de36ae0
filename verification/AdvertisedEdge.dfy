/**
  The window the receiver advertises and the window the sender keeps to (ump_sock.c:706-716,
  905-940, 942-970), in the runs of module Transfer.

  Main result: no packet may be sent past the edge of the receiver's window, and so a held
  window never wraps (EdgeHoldsExactly, HeldWindowNeverWraps).  This holds for exactly those
  connections whose SYN announces at most half a queue or whose first number is not one of
  2 .. 32768: for the others, two acks that come before any data make the congestion window
  jump to 515 packets while the sender still goes by the 100 packets of the SYN.
 */
module AdvertisedEdge {
  import opened Circular
  import opened Message
  import opened SenderModel
  import opened Transfer
  import TransferResults
  import RL = ReceiverLinks
  import RM = ReceiverModel
  import W = Window

  /** No packet that the sender may send lies past the edge of the receiver's window. */
  predicate KeepsEdge(s: Sys) {
    s.snd.mode == Active ==> s.snd.start + s.snd.wndPos <= s.pos + 1
  }

  /** The window announced by the SYN is not too wide, or an ack that comes before any data
      passes the range check and brings a window of its own. */
  predicate Protected(iss: int, wnd: U16) {
    wnd <= W.HALF_QUEUE || InitiallySent(iss) >= iss - 1
  }

  /** For the fields of the socket: the initial number is 0 or 1 or above 32768. */
  lemma ProtectedNumbers(iss: int, wnd: U16)
    ensures Protected(iss, wnd) <==> wnd <= W.HALF_QUEUE || Wire(iss) <= 1 || Wire(iss) > HALF + 1
  {
    var start: int := Wire(iss);
    OffsetUnique(start, 0, if start <= HALF + 1 then 0 - start else MODULUS - start);
  }

  // ---------- the invariant ----------

  /** Nothing has been heard from the receiver since its SYN. */
  predicate Unheard(snd: Snd, wnd: U16) {
    && snd.base == snd.iss && snd.theirWnd == wnd
    && (wnd <= W.HALF_QUEUE || (snd.cwnd == 1 && InitiallySent(snd.iss) >= snd.iss - 1))
  }

  /** Base and window of the sender are those of one ack of the receiver. */
  predicate WindowIsAdvertised(snd: Snd, wnd: U16, acks: set<(int, U16)>) {
    (snd.base, snd.theirWnd) in acks || Unheard(snd, wnd)
  }

  ghost predicate AcksEnd(acks: set<(int, U16)>, ackInfo: Option<(int, U16)>, pos: int) {
    && (forall p :: p in acks ==> p.0 + p.1 <= pos + 1)
    && (ackInfo.Some? ==> ackInfo.value.0 + ackInfo.value.1 <= pos + 1)
  }

  ghost predicate EdgeInv(s: Sys, wnd: U16) {
    EdgeFits(s.snd, WindowOf(s), s.acks, s.ackInfo, wnd)
  }

  ghost predicate EdgeFits(snd: Snd, win: W.Win, acks: set<(int, U16)>, ackInfo: Option<(int, U16)>, wnd: U16) {
    && W.Inv(win) && win.pos >= snd.iss + W.HALF_QUEUE - 1
    && AcksEnd(acks, ackInfo, win.pos)
    && WindowIsAdvertised(snd, wnd, acks)
    && snd.edge <= win.pos + 1 && snd.next <= win.pos + 1
  }

  /** Whatever the congestion window, the sender's window ends inside the receiver's. */
  lemma WindowEndsInside(snd: Snd, wnd: U16, acks: set<(int, U16)>, pos: int)
    requires WindowIsAdvertised(snd, wnd, acks) && AcksEnd(acks, None, pos)
    requires pos >= snd.iss + W.HALF_QUEUE - 1
    ensures snd.base + Min(snd.theirWnd, snd.cwnd) <= pos + 1
    ensures snd.base + Min(snd.theirWnd, 1) <= pos + 1
  {
    if (snd.base, snd.theirWnd) in acks {
      assert (snd.base, snd.theirWnd).0 + (snd.base, snd.theirWnd).1 <= pos + 1;
    }
  }

  lemma StartKeepsEdge(iss: int, wnd: U16)
    requires Protected(iss, wnd)
    ensures EdgeInv(Start(iss, wnd), wnd)
  {
    W.FreshWindow(W.Win(iss, 0, 0));
  }

  // ---------- sender steps ----------

  /** The sender still goes by the same ack, and has sent nothing past the edge it had. */
  predicate WindowKept(s: Snd, t: Snd) {
    && (t.iss, t.base, t.theirWnd) == (s.iss, s.base, s.theirWnd)
    && (t.cwnd == s.cwnd || t.cwnd == 1)
    && (t.edge == s.edge || t.edge == s.base + Min(s.theirWnd, s.cwnd) || t.edge == s.base + Min(s.theirWnd, 1))
    && (t.next == s.next || t.next <= s.edge)
  }

  lemma SenderKeepsEdge(s: Snd, t: Snd, win: W.Win, acks: set<(int, U16)>, ackInfo: Option<(int, U16)>, wnd: U16)
    requires EdgeFits(s, win, acks, ackInfo, wnd) && WindowKept(s, t)
    ensures EdgeFits(t, win, acks, ackInfo, wnd)
  {
    WindowEndsInside(s, wnd, acks, win.pos);
  }

  lemma TransmitKeepsWindow(s: Snd, now: int)
    requires SenderModel.Inv(s) && CanTransmit(s)
    ensures WindowKept(s, Transmit(s, now))
  {
    TransmitKeepsInv(s, now);
  }

  lemma TimeoutKeepsWindow(s: Snd, now: int)
    ensures WindowKept(s, Timeout(s, now))
  {
    if Fires(s, now) && !GivesUp(s) {
      var slow := Rewind(s.(ssthresh := Max(s.cwnd / 2, 2), cwnd := 1)).(fast := false);
      assert (slow.iss, slow.base, slow.theirWnd, slow.next) == (s.iss, s.base, s.theirWnd, s.next) && slow.cwnd == 1;
    }
  }

  lemma SendKeepsEdge(s: Sys, wnd: U16, x: Action)
    requires SenderModel.Inv(s.snd) && EdgeInv(s, wnd) && Enabled(s, x)
    requires x.Submit? || x.SendPacket? || x.SenderTimer? || x.SenderCloses? || x.SenderFails?
    ensures EdgeInv(Do(s, x), wnd)
  {
    match x {
      case SendPacket(now) => TransmitKeepsWindow(s.snd, now);
      case SenderTimer(now) => TimeoutKeepsWindow(s.snd, now);
      case _ =>
    }
    SenderKeepsEdge(s.snd, Do(s, x).snd, WindowOf(s), s.acks, s.ackInfo, wnd);
  }

  /** An ack in range brings its own window; another one can only change the congestion window,
      and only if it repeats the base. */
  lemma AckBringsWindow(snd: Snd, a: int, w: U16, now: int)
    requires SenderModel.Inv(snd)
    ensures var t := OnAck(snd, Some(a), Some(w), now);
      if Accepts(snd, a) then t.base == a && t.theirWnd == w && EdgeRefreshed(snd, t)
      else (t.base, t.theirWnd, t.edge) == (snd.base, snd.theirWnd, snd.edge) && (a != snd.base ==> t.cwnd == snd.cwnd)
  {
    if a > snd.base {
      assert NoteRepeated(snd, a) == snd;
      if Accepts(snd, a) {
        NewAckBringsWindow(snd, a, w, now);
      }
    } else {
      RepeatedBringsWindow(snd, a, w, now);
    }
  }

  lemma NewAckBringsWindow(snd: Snd, a: int, w: U16, now: int)
    requires a > snd.base
    ensures var t := OnNewAck(snd, a, Some(w), now);
      t.base == a && t.theirWnd == w && EdgeRefreshed(snd, t)
  {
    var n := Notify(Advance(snd, a), Some(w));
    assert n.base == a && n.theirWnd == w && n.edge == a + Min(w, snd.cwnd);
    var c := Congest(n, now);
    assert (c.base, c.theirWnd, c.edge) == (n.base, n.theirWnd, n.edge);
  }

  lemma RepeatedBringsWindow(snd: Snd, a: int, w: U16, now: int)
    requires SenderModel.Inv(snd) && a <= snd.base
    ensures var t := OnAck(snd, Some(a), Some(w), now);
      if Accepts(snd, a) then t.base == a && t.theirWnd == w && EdgeRefreshed(snd, t)
      else (t.base, t.theirWnd, t.edge) == (snd.base, snd.theirWnd, snd.edge) && (a != snd.base ==> t.cwnd == snd.cwnd)
  {
    var noted := NoteRepeated(snd, a);
    NotedKeepsWindow(snd, a);
    assert OnAck(snd, Some(a), Some(w), now) == if Accepts(snd, a) then Notify(noted, Some(w)) else noted;
  }

  lemma NotedKeepsWindow(snd: Snd, a: int)
    requires snd.rep <= 1
    ensures var t := NoteRepeated(snd, a);
      && (t.base, t.sent, t.theirWnd, t.edge) == (snd.base, snd.sent, snd.theirWnd, snd.edge)
      && (a != snd.base ==> t == snd)
  {
  }

  lemma AckKeepsEdge(s: Sys, wnd: U16, a: int, w: U16, now: int)
    requires SysInv(s) && EdgeInv(s, wnd) && Enabled(s, DeliverAck(a, w, now))
    ensures EdgeInv(Do(s, DeliverAck(a, w, now)), wnd)
  {
    AckIsRead(s, a, w, now);
    AckFits(s.snd, a, w, now, WindowOf(s), s.acks, s.ackInfo, wnd);
  }

  lemma AckFits(s: Snd, a: int, w: U16, now: int, win: W.Win, acks: set<(int, U16)>, ackInfo: Option<(int, U16)>,
      wnd: U16)
    requires SenderModel.Inv(s) && EdgeFits(s, win, acks, ackInfo, wnd) && (a, w) in acks
    ensures EdgeFits(OnAck(s, Some(a), Some(w), now), win, acks, ackInfo, wnd)
  {
    AckBringsWindow(s, a, w, now);
    AckSameMessage(s, Some(a), Some(w), now);
    assert (a, w).0 + (a, w).1 <= win.pos + 1;
    if !Accepts(s, a) {
      RefusedAtStart(s, a);
    }
  }

  /** Before any data, the base itself is in range unless the initial zero lies below it. */
  lemma RefusedAtStart(snd: Snd, a: int)
    requires SenderModel.Inv(snd) && !Accepts(snd, a)
    ensures InitiallySent(snd.iss) >= snd.iss - 1 ==> a != snd.base
  {
  }

  // ---------- receiver steps ----------

  lemma RefreshFits(snd: Snd, win: W.Win, acks: set<(int, U16)>, ackInfo: Option<(int, U16)>, wnd: U16, held: bool)
    requires EdgeFits(snd, win, acks, ackInfo, wnd) && win.base <= snd.next
    ensures var w := W.Refreshed(win, held);
      w.rwnd <= W.HALF_QUEUE && w.pos >= win.pos && EdgeFits(snd, w, acks, Some((win.base, w.rwnd)), wnd)
  {
    if held {
      W.RefreshEndsAtPos(win);
    } else {
      W.FreshWindow(win);
    }
  }

  lemma RefreshKeepsEdge(s: Sys, wnd: U16, load: bool)
    requires s.rcv.r.base <= s.snd.next && EdgeInv(s, wnd)
    ensures !s.rcv.wild ==> EdgeInv(Do(s, PrepareAck(load)), wnd)
    ensures NextWindow(s, load).rwnd <= W.HALF_QUEUE && NextWindow(s, load).pos >= s.pos
  {
    RefreshFits(s.snd, WindowOf(s), s.acks, s.ackInfo, wnd, s.rcv.r.msgNum > 0 || load);
    if !s.rcv.wild {
      assert WindowOf(Do(s, PrepareAck(load))) == NextWindow(s, load);
    }
  }

  lemma SendAckKeepsEdge(s: Sys, wnd: U16)
    requires EdgeInv(s, wnd) && Enabled(s, SendAck)
    ensures EdgeInv(Do(s, SendAck), wnd)
  {
  }

  lemma ReceiverKeepsEdge(s: Sys, wnd: U16, t: Sys)
    requires EdgeInv(s, wnd) && s.rcv.r.base <= t.rcv.r.base
    requires (t.snd, t.rwnd, t.pos, t.acks, t.ackInfo) == (s.snd, s.rwnd, s.pos, s.acks, s.ackInfo)
    ensures EdgeInv(t, wnd)
  {
  }

  lemma StepKeepsEdge(s: Sys, wnd: U16, x: Action)
    requires SysInv(s) && EdgeInv(s, wnd) && Enabled(s, x)
    ensures EdgeInv(Do(s, x), wnd)
  {
    match x
    case DeliverAck(a, w, now) => AckKeepsEdge(s, wnd, a, w, now);
    case PrepareAck(load) => RefreshKeepsEdge(s, wnd, load);
    case SendAck => SendAckKeepsEdge(s, wnd);
    case DeliverData(n, c) =>
      DeliverDataKeepsInv(s, n, c);
      ReceiverKeepsEdge(s, wnd, Do(s, x));
    case CallReceive =>
      ReceiveKeepsRcv(s.snd.iss, s.snd.next, s.stream, s.rcv, s.listening);
      ReceiverKeepsEdge(s, wnd, Do(s, x));
    case ReceiverCloses(_) => ReceiverKeepsEdge(s, wnd, Do(s, x));
    case ReceiverClosed => ReceiverKeepsEdge(s, wnd, Do(s, x));
    case _ => SendKeepsEdge(s, wnd, x);
  }

  lemma NextKeepsEdge(s: Sys, wnd: U16, t: Sys)
    requires SysInv(s) && EdgeInv(s, wnd) && Next(s, t)
    ensures EdgeInv(t, wnd)
  {
    var x :| Enabled(s, x) && t == Do(s, x);
    StepKeepsEdge(s, wnd, x);
  }

  lemma {:induction false} RunKeepsEdge(iss: int, wnd: U16, trace: seq<Sys>, i: nat)
    requires Run(iss, wnd, trace) && i < |trace| && Protected(iss, wnd)
    ensures EdgeInv(trace[i], wnd)
  {
    if i == 0 {
      StartKeepsEdge(iss, wnd);
    } else {
      RunKeepsEdge(iss, wnd, trace, i - 1);
      RunKeepsInv(iss, wnd, trace, i - 1);
      assert Next(trace[i - 1], trace[i]);
      NextKeepsEdge(trace[i - 1], wnd, trace[i]);
    }
  }

  // ---------- main results ----------

  /** In every state of every run of a protected connection: what has been sent and what may be
      sent lies inside the receiver's window, and every window it advertises is at most half a
      queue, held or not, and ends no earlier than the one before. */
  lemma HeldWindowNeverWraps(iss: int, wnd: U16, trace: seq<Sys>, i: nat, load: bool)
    requires Run(iss, wnd, trace) && i < |trace| && Protected(iss, wnd)
    ensures var s := trace[i];
      && KeepsEdge(s) && s.snd.next <= s.pos + 1 && W.Inside(WindowOf(s))
      && NextWindow(s, load).rwnd <= W.HALF_QUEUE && NextWindow(s, load).pos >= s.pos
  {
    RunKeepsEdge(iss, wnd, trace, i);
    RunKeepsInv(iss, wnd, trace, i);
    RefreshKeepsEdge(trace[i], wnd, load);
  }

  // ---------- the other connections ----------

  /** The second ack before any data is refused, like the first, and still starts a fast
      retransmission. */
  lemma TwoAcksOpenWindow(iss: int, wnd: U16) returns (s: Sys)
    requires !Protected(iss, wnd)
    ensures Reached(iss, wnd, s) && s.open && s.pos == iss + W.HALF_QUEUE - 1
    ensures s.snd.mode == Idle && s.snd.start == s.snd.base == iss
    ensures s.snd.theirWnd == wnd && s.snd.cwnd == 515
  {
    s := Start(iss, wnd);
    StartReached(iss, wnd);
    s := Act(iss, wnd, s, PrepareAck(false));
    s := Act(iss, wnd, s, SendAck);
    assert (iss, W.HALF_QUEUE) in s.acks;
    ReadingIsExact(iss, iss);
    var first := OnAck(s.snd, Some(iss), Some(W.HALF_QUEUE), 0);
    assert first == s.snd.(rep := 1);
    s := Act(iss, wnd, s, DeliverAck(iss, W.HALF_QUEUE, 0));
    SecondAck(s.snd, W.HALF_QUEUE);
    s := Act(iss, wnd, s, DeliverAck(iss, W.HALF_QUEUE, 0));
  }

  lemma SecondAck(snd: Snd, w: U16)
    requires snd.rep == 1 && snd.sent < snd.base - 1
    ensures var t := OnAck(snd, Some(snd.base), Some(w), 0);
      && t.cwnd == Wire(Max(snd.ssthresh + 3, 1))
      && (t.mode, t.start, t.base, t.theirWnd) == (snd.mode, snd.start, snd.base, snd.theirWnd)
  {
    NoteRepeatedOnce(snd);
  }

  lemma NoteRepeatedOnce(snd: Snd)
    requires snd.rep == 1 && snd.sent < snd.base
    ensures NoteRepeated(snd, snd.base) == FastRetransmit(snd.(rep := 2))
  {
  }

  function Bytes(n: nat): seq<Byte> {
    seq(n, i => 0)
  }

  /** A message of one packet more than the receiver's window, cut into packets of one byte. */
  lemma MessagePastEdge(iss: int, wnd: U16) returns (s: Sys)
    requires !Protected(iss, wnd)
    ensures Reached(iss, wnd, s) && !KeepsEdge(s)
  {
    var message := Bytes(W.HALF_QUEUE + 1);
    s := TwoAcksOpenWindow(iss, wnd);
    SplitCount(message, 1);
    assert PacketCount(W.HALF_QUEUE + 1, 1) == W.HALF_QUEUE + 1;
    s := Act(iss, wnd, s, Submit(message, 1));
  }

  /** In all runs every packet that may be sent lies inside the receiver's window, if and only
      if the connection is protected. */
  lemma EdgeHoldsExactly(iss: int, wnd: U16)
    ensures (forall trace, i :: Run(iss, wnd, trace) && 0 <= i < |trace| ==> KeepsEdge(trace[i]))
      <==> Protected(iss, wnd)
  {
    if Protected(iss, wnd) {
      forall trace, i | Run(iss, wnd, trace) && 0 <= i < |trace| ensures KeepsEdge(trace[i]) {
        HeldWindowNeverWraps(iss, wnd, trace, i, false);
      }
    } else {
      var s := MessagePastEdge(iss, wnd);
      var trace: seq<Sys> :| Run(iss, wnd, trace) && trace[|trace| - 1] == s;
      assert !KeepsEdge(trace[|trace| - 1]);
    }
  }
}
