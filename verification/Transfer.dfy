/**
  One direction of a connection: a sender and a receiver joined by a network that loses,
  duplicates and reorders packets and acks.  Every handler of the two sockets is one step;
  everything ever sent stays in the network and may be delivered any number of times, or
  never.  Both ends read 16-bit numbers off the wire.  The one assumption on the network
  is that a delivered number is not older than half the sequence space.  A message has any
  length for which no ack of a part reads as an ack of the whole (MessageSize.LengthDecides).

  The receiver is the one of module ReceiverLinks: it follows the code until freed memory
  is used.  From then on nothing is known of it, and it takes no step here.

  Main results: what the receive calls return is a prefix of what the send calls were
  given, message by message and byte by byte (EndToEnd), and a send call that succeeds
  has its whole message at the receiver (SendTrueMeansReceived).
 */
module Transfer {
  import opened Circular
  import opened Message
  import opened SenderModel
  import opened MessageSize
  import RM = ReceiverModel
  import RX = ReceiverExact
  import RL = ReceiverLinks
  import W = Window

  datatype Sys = Sys(
    snd: Snd,
    rcv: RL.Sock,
    rwnd: U16,                      // the receive window as last refreshed
    pos: int,                       // the last packet of that window
    open: bool,                     // the sender's connection is established
    listening: bool,                // the receiver's connection is established
    ackInfo: Option<(int, U16)>,    // the ack waiting to be sent
    data: set<(int, Chunk)>,        // data packets ever sent
    acks: set<(int, U16)>,          // acks and windows ever sent
    stream: seq<Chunk>,             // history: all packets of all messages accepted
    submitted: seq<seq<Byte>>)      // history: the messages accepted by send calls

  datatype Action =
    | Submit(message: seq<Byte>, mss: nat)
    | SendPacket(now: int)
    | SenderTimer(now: int)
    | SenderCloses(byUser: bool)
    | SenderFails
    | DeliverData(n: int, c: Chunk)
    | PrepareAck(load: bool)
    | SendAck
    | DeliverAck(a: int, w: U16, at: int)
    | CallReceive
    | ReceiverCloses(byUser: bool)
    | ReceiverClosed

  /** The connection is set up: the receiver expects the sender's first number and has put
      its window ahead of it; wnd is the window that its SYN announced. */
  function Start(iss: int, wnd: U16): Sys {
    Sys(SenderModel.Initial(iss, wnd), RL.Fresh(iss), W.HALF_QUEUE, iss + W.HALF_QUEUE - 1,
        true, true, None, {}, {}, [], [])
  }

  function WindowOf(s: Sys): W.Win {
    W.Win(s.rcv.r.base, s.rwnd, s.pos)
  }

  /** The window after the refresh that precedes every ack; `load` says that the queue of
      arrived packets is more than half full. */
  function NextWindow(s: Sys, load: bool): W.Win {
    W.Refreshed(WindowOf(s), s.rcv.r.msgNum > 0 || load)
  }

  predicate Enabled(s: Sys, x: Action) {
    match x
    case Submit(message, mss) =>
      s.open && s.snd.mode == Idle && message != [] && mss > 0 && EndIsAlwaysRead(|Split(message, mss)|)
    case SendPacket(_) => CanTransmit(s.snd) && 0 <= s.snd.dataPos < |s.snd.msg|
    case SenderTimer(_) => s.snd.mode != Failed
    case SenderCloses(_) => s.open
    case SenderFails => true
    case DeliverData(n, c) => s.listening && !s.rcv.wild && (n, c) in s.data && s.rcv.r.base - n <= HALF + 1
    case PrepareAck(_) => !s.rcv.wild
    case SendAck => s.ackInfo.Some?
    case DeliverAck(a, w, _) => s.snd.mode != Failed && (a, w) in s.acks && s.snd.base - a <= HALF + 1
    case CallReceive => !s.rcv.wild
    case ReceiverCloses(_) => s.listening && !s.rcv.wild
    case ReceiverClosed => !s.rcv.wild
  }

  ghost function Do(s: Sys, x: Action): Sys
    requires Enabled(s, x)
  {
    match x
    case Submit(message, mss) =>
      var pieces := Split(message, mss);
      s.(snd := Begin(s.snd, pieces), stream := s.stream + Mark(pieces), submitted := s.submitted + [message])
    case SendPacket(now) =>
      s.(snd := Transmit(s.snd, now), data := s.data + {(TransmittedNumber(s.snd), TransmittedChunk(s.snd))})
    case SenderTimer(now) => s.(snd := Timeout(s.snd, now), open := s.open && !(Fires(s.snd, now) && GivesUp(s.snd)))
    case SenderCloses(byUser) => s.(snd := if byUser then Abort(s.snd) else s.snd, open := false)
    case SenderFails => s.(snd := Fail(s.snd), open := false)
    case DeliverData(n, c) => s.(rcv := RL.ArriveCode(s.rcv, Reading(s.rcv.r.base, Wire(n)), c))
    case PrepareAck(load) =>
      var w := NextWindow(s, load);
      s.(rwnd := w.rwnd, pos := w.pos, ackInfo := Some((s.rcv.r.base, w.rwnd)))
    case SendAck => s.(acks := s.acks + {s.ackInfo.value}, ackInfo := None)
    case DeliverAck(a, w, now) => s.(snd := OnAck(s.snd, Some(Reading(s.snd.base, Wire(a))), Some(w), now))
    case CallReceive => s.(rcv := RL.ReceiveCode(s.rcv, s.listening))
    case ReceiverCloses(byUser) =>
      s.(rcv := if byUser then RL.CloseCode(s.rcv) else s.rcv, listening := false)
    case ReceiverClosed => s.(rcv := RL.CloseCode(s.rcv), listening := false)
  }

  ghost predicate Next(s: Sys, t: Sys) {
    exists x :: Enabled(s, x) && t == Do(s, x)
  }

  ghost predicate Run(iss: int, wnd: U16, trace: seq<Sys>) {
    && trace != [] && trace[0] == Start(iss, wnd)
    && forall i :: 0 <= i < |trace| - 1 ==> Next(trace[i], trace[i + 1])
  }

  // ---------- the invariant ----------

  /** The packets of all messages accepted so far, in order; within the current message
      only the last packet ends a message. */
  ghost predicate StreamInv(snd: Snd, stream: seq<Chunk>, submitted: seq<seq<Byte>>) {
    && |stream| == snd.last + 1 - snd.iss
    && Closed(stream) && Parse(stream) == submitted
    && (snd.mode == Active ==> EndsWith(snd.iss, stream, snd.start, snd.msg) && EndIsAlwaysRead(|snd.msg|))
    && NoEndFrom(stream, snd.start - snd.iss)
  }

  ghost predicate EndsWith(iss: int, stream: seq<Chunk>, start: int, msg: seq<seq<Byte>>) {
    iss <= start <= iss + |stream| && stream[start - iss..] == Mark(msg)
  }

  predicate NoEndFrom(stream: seq<Chunk>, from: int) {
    forall j :: 0 <= j < |stream| - 1 && from <= j ==> !stream[j].bdr
  }

  /** c is packet n of the stream. */
  predicate IsPacket(iss: int, stream: seq<Chunk>, n: int, c: Chunk) {
    0 <= n - iss < |stream| && stream[n - iss] == c
  }

  /** Data packets in the network were sent and are what their number says; no ack covers
      a packet the receiver does not have. */
  ghost predicate NetworkInv(iss: int, next: int, stream: seq<Chunk>, received: int,
      data: set<(int, Chunk)>, acks: set<(int, U16)>, ackInfo: Option<(int, U16)>) {
    && (forall p :: p in data ==> p.0 < next && IsPacket(iss, stream, p.0, p.1))
    && (forall p :: p in acks ==> p.0 <= received)
    && (ackInfo.Some? ==> ackInfo.value.0 <= received)
  }

  /** The receiver has exactly the first packets of the stream, and some packets ahead. */
  ghost predicate ReceiverInv(iss: int, next: int, stream: seq<Chunk>, rcv: RM.Rcv) {
    && iss <= rcv.base <= iss + |stream|
    && RX.Stream(rcv) == stream[..rcv.base - iss]
    && (forall k :: k in rcv.pending ==> k < next && IsPacket(iss, stream, k, rcv.pending[k]))
  }

  /** The receiver as long as its program is defined. */
  ghost predicate RcvInv(iss: int, next: int, stream: seq<Chunk>, rcv: RL.Sock) {
    !rcv.wild ==> RL.LinkInv(rcv) && RX.Faithful(rcv.r) && ReceiverInv(iss, next, stream, rcv.r)
  }

  ghost predicate SysInv(s: Sys) {
    && SenderModel.Inv(s.snd) && StreamInv(s.snd, s.stream, s.submitted)
    && s.snd.iss <= s.snd.base <= s.rcv.r.base <= s.snd.next <= s.snd.iss + |s.stream|
    && NetworkInv(s.snd.iss, s.snd.next, s.stream, s.rcv.r.base, s.data, s.acks, s.ackInfo)
    && RcvInv(s.snd.iss, s.snd.next, s.stream, s.rcv)
  }

  lemma StartInv(iss: int, wnd: U16)
    ensures SysInv(Start(iss, wnd))
  {
    SenderModel.InitialInv(iss, wnd);
    RL.FreshInv(iss);
    RX.InitialFaithful(iss);
  }

  // ---------- sender steps ----------

  lemma SubmitKeepsStream(snd: Snd, stream: seq<Chunk>, submitted: seq<seq<Byte>>, message: seq<Byte>, mss: nat)
    requires StreamInv(snd, stream, submitted) && message != [] && mss > 0
    requires snd.iss <= snd.start && snd.last == snd.start - 1 && EndIsAlwaysRead(|Split(message, mss)|)
    ensures var pieces := Split(message, mss);
      StreamInv(Begin(snd, pieces), stream + Mark(pieces), submitted + [message])
  {
    var pieces := Split(message, mss);
    MessageRoundTrip(message, mss);
    ParseAppend(stream, Mark(pieces));
    MessageAtEnd(snd.iss, stream, snd.start, pieces);
  }

  lemma MessageAtEnd(iss: int, stream: seq<Chunk>, start: int, pieces: seq<seq<Byte>>)
    requires pieces != [] && start == iss + |stream|
    ensures var longer := stream + Mark(pieces);
      EndsWith(iss, longer, start, pieces) && Closed(longer) && NoEndFrom(longer, start - iss)
  {
    var longer := stream + Mark(pieces);
    assert longer[start - iss..] == Mark(pieces);
    assert longer[|longer| - 1] == Mark(pieces)[|pieces| - 1];
    forall j | start - iss <= j < |longer| - 1 ensures !longer[j].bdr {
      assert longer[j] == Mark(pieces)[j - |stream|];
    }
  }

  lemma LongerStream(iss: int, next: int, stream: seq<Chunk>, more: seq<Chunk>, s: Sys)
    requires NetworkInv(iss, next, stream, s.rcv.r.base, s.data, s.acks, s.ackInfo)
    requires RcvInv(iss, next, stream, s.rcv)
    ensures NetworkInv(iss, next, stream + more, s.rcv.r.base, s.data, s.acks, s.ackInfo)
    ensures RcvInv(iss, next, stream + more, s.rcv)
  {
    if !s.rcv.wild {
      assert (stream + more)[..s.rcv.r.base - iss] == stream[..s.rcv.r.base - iss];
    }
    assert forall n, c :: IsPacket(iss, stream, n, c) ==> IsPacket(iss, stream + more, n, c);
  }

  lemma SubmitKeepsInv(s: Sys, message: seq<Byte>, mss: nat)
    requires SysInv(s) && Enabled(s, Submit(message, mss))
    ensures SysInv(Do(s, Submit(message, mss)))
  {
    var pieces := Split(message, mss);
    BeginKeepsInv(s.snd, pieces);
    SubmitKeepsStream(s.snd, s.stream, s.submitted, message, mss);
    LongerStream(s.snd.iss, s.snd.next, s.stream, Mark(pieces), s);
  }

  lemma TransmittedIsPacket(snd: Snd, stream: seq<Chunk>, submitted: seq<seq<Byte>>)
    requires StreamInv(snd, stream, submitted) && snd.mode == Active && 0 <= snd.dataPos < |snd.msg|
    ensures IsPacket(snd.iss, stream, TransmittedNumber(snd), TransmittedChunk(snd))
  {
    var tail := stream[snd.start - snd.iss..];
    assert tail[snd.dataPos] == stream[snd.start - snd.iss + snd.dataPos];
  }

  lemma SendPacketKeepsInv(s: Sys, now: int)
    requires SysInv(s) && Enabled(s, SendPacket(now))
    ensures SysInv(Do(s, SendPacket(now)))
  {
    TransmitKeepsInv(s.snd, now);
    TransmittedIsPacket(s.snd, s.stream, s.submitted);
    MoreSent(s, Transmit(s.snd, now), TransmittedNumber(s.snd), TransmittedChunk(s.snd));
  }

  lemma MoreSent(s: Sys, snd': Snd, n: int, c: Chunk)
    requires SysInv(s) && SenderModel.Inv(snd') && StreamInv(snd', s.stream, s.submitted)
    requires (snd'.iss, snd'.base, snd'.last) == (s.snd.iss, s.snd.base, s.snd.last)
    requires s.snd.next <= snd'.next && n < snd'.next && IsPacket(s.snd.iss, s.stream, n, c)
    ensures SysInv(s.(snd := snd', data := s.data + {(n, c)}))
  {
    MoreInNetwork(s.snd.iss, s.snd.next, s.stream, s.rcv.r.base, s.data, s.acks, s.ackInfo, snd'.next, n, c);
    LaterNext(s.snd.iss, s.snd.next, s.stream, s.rcv, snd'.next);
  }

  lemma MoreInNetwork(iss: int, next: int, stream: seq<Chunk>, received: int, data: set<(int, Chunk)>,
      acks: set<(int, U16)>, ackInfo: Option<(int, U16)>, next': int, n: int, c: Chunk)
    requires NetworkInv(iss, next, stream, received, data, acks, ackInfo)
    requires next <= next' && n < next' && IsPacket(iss, stream, n, c)
    ensures NetworkInv(iss, next', stream, received, data + {(n, c)}, acks, ackInfo)
  {
  }

  lemma LaterNext(iss: int, next: int, stream: seq<Chunk>, rcv: RL.Sock, next': int)
    requires RcvInv(iss, next, stream, rcv) && next <= next'
    ensures RcvInv(iss, next', stream, rcv)
  {
  }

  /** A step that only changes the sender, and neither its packets nor what it has sent. */
  lemma SenderStepKeepsInv(s: Sys, snd': Snd, open': bool)
    requires SysInv(s) && SenderModel.Inv(snd')
    requires SameMessage(s.snd, snd') && snd'.base <= s.rcv.r.base
    ensures SysInv(s.(snd := snd', open := open'))
  {
  }

  lemma SenderTimerKeepsInv(s: Sys, now: int)
    requires SysInv(s) && Enabled(s, SenderTimer(now))
    ensures SysInv(Do(s, SenderTimer(now)))
  {
    TimeoutKeepsInv(s.snd, now);
    TimeoutSameMessage(s.snd, now);
    SenderStepKeepsInv(s, Timeout(s.snd, now), Do(s, SenderTimer(now)).open);
  }

  lemma SenderClosesKeepsInv(s: Sys, byUser: bool)
    requires SysInv(s)
    ensures s.open ==> SysInv(Do(s, SenderCloses(byUser)))
  {
    AbortKeepsInv(s.snd);
    SenderStepKeepsInv(s, if byUser then Abort(s.snd) else s.snd, false);
  }

  lemma SenderFailsKeepsInv(s: Sys)
    requires SysInv(s)
    ensures SysInv(Do(s, SenderFails))
  {
    SenderStepKeepsInv(s, Fail(s.snd), false);
  }

  /** The sender reads every ack of the network as the number the receiver meant. */
  lemma AckIsRead(s: Sys, a: int, w: U16, now: int)
    requires SysInv(s) && Enabled(s, DeliverAck(a, w, now))
    ensures Reading(s.snd.base, Wire(a)) == a <= s.rcv.r.base
    ensures Honest(s.snd, a) && !EndsTooEarly(s.snd, a)
  {
    assert (a, w).0 == a;
    ReadingIsExact(s.snd.base, a);
    ReadLengthEndsRight(s.snd, a);
  }

  lemma DeliverAckKeepsInv(s: Sys, a: int, w: U16, now: int)
    requires SysInv(s) && Enabled(s, DeliverAck(a, w, now))
    ensures SysInv(Do(s, DeliverAck(a, w, now)))
  {
    AckIsRead(s, a, w, now);
    AckKeepsInv(s.snd, Some(a), Some(w), now);
    AckSameMessage(s.snd, Some(a), Some(w), now);
    SenderStepKeepsInv(s, OnAck(s.snd, Some(a), Some(w), now), s.open);
  }

  // ---------- receiver steps ----------

  lemma AckStepKeepsInv(s: Sys, rwnd: U16, pos: int, acks: set<(int, U16)>, ackInfo: Option<(int, U16)>)
    requires SysInv(s)
    requires forall p :: p in acks ==> p in s.acks || s.ackInfo == Some(p)
    requires ackInfo.Some? ==> ackInfo.value.0 == s.rcv.r.base
    ensures SysInv(s.(rwnd := rwnd, pos := pos, acks := acks, ackInfo := ackInfo))
  {
    AcksAreCovered(s.snd.iss, s.snd.next, s.stream, s.rcv.r.base, s.data, s.acks, s.ackInfo, acks, ackInfo);
  }

  lemma AcksAreCovered(iss: int, next: int, stream: seq<Chunk>, received: int, data: set<(int, Chunk)>,
      acks: set<(int, U16)>, ackInfo: Option<(int, U16)>, acks': set<(int, U16)>, ackInfo': Option<(int, U16)>)
    requires NetworkInv(iss, next, stream, received, data, acks, ackInfo)
    requires forall p :: p in acks' ==> p in acks || ackInfo == Some(p)
    requires ackInfo'.Some? ==> ackInfo'.value.0 == received
    ensures NetworkInv(iss, next, stream, received, data, acks', ackInfo')
  {
  }

  /** A step that changes only the receiver, and not its base. */
  lemma ReceiverStepKeepsInv(s: Sys, rcv': RL.Sock, listening': bool)
    requires SysInv(s) && rcv'.r.base == s.rcv.r.base
    requires RcvInv(s.snd.iss, s.snd.next, s.stream, rcv')
    ensures SysInv(s.(rcv := rcv', listening := listening'))
  {
  }

  /** Handing over messages moves no packet. */
  lemma HandOverKeepsReceiver(iss: int, next: int, stream: seq<Chunk>, r: RM.Rcv, t: RM.Rcv)
    requires ReceiverInv(iss, next, stream, r)
    requires RX.Stream(t) == RX.Stream(r) && t.base == r.base && t.pending == r.pending
    ensures ReceiverInv(iss, next, stream, t)
  {
  }

  lemma ReceiveMovesNothing(r: RM.Rcv, established: bool)
    ensures RM.Receive(r, established).base == r.base && RM.Receive(r, established).pending == r.pending
  {
  }

  lemma ReceiveKeepsRcv(iss: int, next: int, stream: seq<Chunk>, rcv: RL.Sock, established: bool)
    requires RcvInv(iss, next, stream, rcv) && !rcv.wild
    ensures RcvInv(iss, next, stream, RL.ReceiveCode(rcv, established))
    ensures RL.ReceiveCode(rcv, established).r.base == rcv.r.base
  {
    RL.ReceiveCodeKeepsInv(rcv, established);
    RL.ReceiveIsAsMeant(rcv, established);
    if rcv.stray == map[] {
      RX.ReceiveFaithful(rcv.r, established);
      ReceiveMovesNothing(rcv.r, established);
      HandOverKeepsReceiver(iss, next, stream, rcv.r, RM.Receive(rcv.r, established));
    }
  }

  lemma CloseKeepsRcv(iss: int, next: int, stream: seq<Chunk>, rcv: RL.Sock)
    requires RcvInv(iss, next, stream, rcv) && !rcv.wild
    ensures RcvInv(iss, next, stream, RL.CloseCode(rcv)) && RL.CloseCode(rcv).r.base == rcv.r.base
  {
    RL.CloseCodeKeepsInv(rcv);
    var t := rcv.r.(locked := false);
    assert RX.Stream(t) == RX.Stream(rcv.r) && RX.Faithful(t);
    HandOverKeepsReceiver(iss, next, stream, rcv.r, t);
  }

  /** The receiver reads every data packet of the network as the packet it is. */
  lemma DataIsRead(s: Sys, n: int, c: Chunk)
    requires SysInv(s) && Enabled(s, DeliverData(n, c))
    ensures Reading(s.rcv.r.base, Wire(n)) == n
    ensures n < s.snd.next && IsPacket(s.snd.iss, s.stream, n, c)
  {
    assert (n, c).0 == n && (n, c).1 == c;
    ReadingIsExact(s.rcv.r.base, n);
  }

  /** Accepting a packet of the stream moves the run along the stream. */
  lemma AcceptFollowsStream(iss: int, next: int, stream: seq<Chunk>, r: RM.Rcv, n: int, c: Chunk)
    requires RM.Inv(r) && iss <= r.base
    requires forall k :: k in r.pending ==> k < next && IsPacket(iss, stream, k, r.pending[k])
    requires n < next && IsPacket(iss, stream, n, c) && !RM.Received(r, n)
    ensures var e := RM.Accept(r, n, c);
      && r.base <= e.base && (e.base == r.base || (e.base <= next && e.base <= iss + |stream|))
      && (forall k :: k in e.pending ==> k < next && IsPacket(iss, stream, k, e.pending[k]))
      && |RX.Segment(r, n, c)| == e.base - r.base
      && (forall i :: 0 <= i < e.base - r.base ==> RX.Segment(r, n, c)[i] == stream[r.base - iss + i])
  {
    var added := r.(pending := r.pending[n := c]);
    assert forall k :: k in added.pending ==> k < next && IsPacket(iss, stream, k, added.pending[k]);
    RM.ExtendKeeps(added);
    var e := RM.Accept(r, n, c);
    if e.base > r.base {
      assert e.base - 1 in added.pending;
    }
    SegmentFollowsStream(iss, next, stream, added, e, RX.Segment(r, n, c));
  }

  lemma SegmentFollowsStream(iss: int, next: int, stream: seq<Chunk>, r: RM.Rcv, e: RM.Rcv, segment: seq<Chunk>)
    requires forall k :: k in r.pending ==> k < next && IsPacket(iss, stream, k, r.pending[k])
    requires r.base <= e.base && |r.run| <= |e.run| && |e.run| - |r.run| == e.base - r.base
    requires segment == e.run[|r.run|..]
    requires forall k :: r.base <= k < e.base ==> k in r.pending && e.run[|r.run| + k - r.base] == r.pending[k]
    ensures forall i :: 0 <= i < e.base - r.base ==> IsPacket(iss, stream, r.base + i, segment[i])
  {
    forall i | 0 <= i < e.base - r.base ensures IsPacket(iss, stream, r.base + i, segment[i]) {
      assert r.base + i in r.pending;
      assert segment[i] == e.run[|r.run| + i];
    }
  }

  /** Message-level stop and wait: what an arrival makes contiguous belongs to the sender's
      current message, so only its last packet can end a message. */
  lemma ArrivalStaysInMessage(stream: seq<Chunk>, from: int, segment: seq<Chunk>, lo: nat)
    requires NoEndFrom(stream, from) && from <= lo && lo + |segment| <= |stream|
    requires forall i :: 0 <= i < |segment| ==> segment[i] == stream[lo + i]
    ensures RX.NoInnerEnd(segment)
  {
    if segment != [] {
      var inner := segment[..|segment| - 1];
      forall i | 0 <= i < |inner| ensures !inner[i].bdr {
        assert inner[i] == stream[lo + i];
      }
      CountZero(inner);
    }
  }

  /** What an arrival makes contiguous, and what it leaves ahead, is the stream's. */
  lemma ArrivalMovesAlong(iss: int, next: int, stream: seq<Chunk>, r: RM.Rcv, n: int, c: Chunk)
    requires RM.Inv(r) && iss <= r.base
    requires forall k :: k in r.pending ==> k < next && IsPacket(iss, stream, k, r.pending[k])
    requires n < next && IsPacket(iss, stream, n, c) && !RM.Received(r, n)
    ensures var t := RM.Arrive(r, n, c);
      FollowsStream(iss, next, stream, r.base, t.base, t.pending, RX.Segment(r, n, c))
  {
    AcceptFollowsStream(iss, next, stream, r, n, c);
    RM.ArriveKeepsInv(r, n, c);
  }

  ghost predicate FollowsStream(iss: int, next: int, stream: seq<Chunk>, before: int, base: int,
      pending: map<int, Chunk>, segment: seq<Chunk>) {
    && |segment| == base - before && (segment == [] || (base <= next && base <= iss + |stream|))
    && iss <= before
    && (forall i :: 0 <= i < |segment| && 0 <= before - iss + i < |stream| ==> segment[i] == stream[before - iss + i])
    && (forall k :: k in pending ==> k < next && IsPacket(iss, stream, k, pending[k]))
  }

  lemma ArrivalKeepsReceiver(iss: int, next: int, stream: seq<Chunk>, from: int, r: RM.Rcv, n: int, c: Chunk)
    requires RM.Inv(r) && RX.Faithful(r) && ReceiverInv(iss, next, stream, r)
    requires NoEndFrom(stream, from) && from <= r.base - iss
    requires n < next && IsPacket(iss, stream, n, c) && !RM.Received(r, n)
    ensures RX.Faithful(RM.Arrive(r, n, c)) && ReceiverInv(iss, next, stream, RM.Arrive(r, n, c))
    ensures RM.Arrive(r, n, c).base <= if RX.Segment(r, n, c) == [] then r.base else next
  {
    ArrivalMovesAlong(iss, next, stream, r, n, c);
    RX.ArriveFaithful(r, n, c);
    GrowingKeepsReceiver(iss, next, stream, from, r, RM.Arrive(r, n, c), RX.Segment(r, n, c));
  }

  lemma GrowingKeepsReceiver(iss: int, next: int, stream: seq<Chunk>, from: int,
      r: RM.Rcv, t: RM.Rcv, segment: seq<Chunk>)
    requires ReceiverInv(iss, next, stream, r)
    requires NoEndFrom(stream, from) && from <= r.base - iss
    requires FollowsStream(iss, next, stream, r.base, t.base, t.pending, segment)
    requires RX.Stream(t) == RX.Stream(r) + segment
    requires RX.Faithful(t) <==> RX.NoInnerEnd(segment)
    ensures RX.Faithful(t) && ReceiverInv(iss, next, stream, t)
    ensures t.base <= if segment == [] then r.base else next
  {
    ArrivalFollowsStream(iss, next, stream, r, t, segment);
    ArrivalStaysInMessage(stream, from, segment, r.base - iss);
  }

  lemma ArrivalFollowsStream(iss: int, next: int, stream: seq<Chunk>, r: RM.Rcv, t: RM.Rcv, segment: seq<Chunk>)
    requires ReceiverInv(iss, next, stream, r)
    requires FollowsStream(iss, next, stream, r.base, t.base, t.pending, segment)
    requires RX.Stream(t) == RX.Stream(r) + segment
    ensures ReceiverInv(iss, next, stream, t)
    ensures r.base - iss + |segment| <= |stream|
    ensures forall i :: 0 <= i < |segment| ==> segment[i] == stream[r.base - iss + i]
  {
    StreamGrows(stream, r.base - iss, segment);
  }

  lemma StreamGrows(stream: seq<Chunk>, lo: nat, segment: seq<Chunk>)
    requires lo + |segment| <= |stream|
    requires forall i :: 0 <= i < |segment| ==> segment[i] == stream[lo + i]
    ensures stream[..lo] + segment == stream[..lo + |segment|]
  {
  }

  /** A repeated packet, and one that goes astray, leaves the receiver as it is. */
  lemma NothingReceived(rcv: RL.Sock, n: int, c: Chunk)
    requires RL.Strays(rcv, n) || RM.Received(rcv.r, n)
    ensures RL.ArriveCode(rcv, n, c).r == rcv.r
  {
  }

  lemma BaseAfterArrival(r: RM.Rcv, n: int, c: Chunk)
    requires RM.Inv(r)
    ensures r.base <= RM.Arrive(r, n, c).base
  {
    RM.ArriveAddsOne(r, n, c);
  }

  /** An arrival at its place, or one that goes astray, keeps what is known of the receiver. */
  lemma ArrivalKeepsRcv(snd: Snd, stream: seq<Chunk>, rcv: RL.Sock, n: int, c: Chunk)
    requires RcvInv(snd.iss, snd.next, stream, rcv) && !rcv.wild
    requires NoEndFrom(stream, snd.start - snd.iss) && snd.start <= rcv.r.base <= snd.next
    requires n < snd.next && IsPacket(snd.iss, stream, n, c)
    ensures var t := RL.ArriveCode(rcv, n, c);
      RcvInv(snd.iss, snd.next, stream, t) && rcv.r.base <= t.r.base <= snd.next
  {
    RL.ArriveCodeKeepsInv(rcv, n, c);
    if RL.Strays(rcv, n) || RM.Received(rcv.r, n) {
      NothingReceived(rcv, n, c);
    } else {
      ArrivalKeepsReceiver(snd.iss, snd.next, stream, snd.start - snd.iss, rcv.r, n, c);
      BaseAfterArrival(rcv.r, n, c);
    }
  }

  lemma DeliverDataKeepsInv(s: Sys, n: int, c: Chunk)
    requires SysInv(s) && Enabled(s, DeliverData(n, c))
    ensures SysInv(Do(s, DeliverData(n, c)))
    ensures s.rcv.r.base <= Do(s, DeliverData(n, c)).rcv.r.base
  {
    DataIsRead(s, n, c);
    ArrivalKeepsRcv(s.snd, s.stream, s.rcv, n, c);
    BaseMoves(s, RL.ArriveCode(s.rcv, n, c));
  }

  lemma BaseMoves(s: Sys, rcv': RL.Sock)
    requires SysInv(s) && RcvInv(s.snd.iss, s.snd.next, s.stream, rcv')
    requires s.rcv.r.base <= rcv'.r.base <= s.snd.next
    ensures SysInv(s.(rcv := rcv'))
  {
  }

  // ---------- every run ----------

  lemma PrepareAckKeepsInv(s: Sys, load: bool)
    requires SysInv(s) && Enabled(s, PrepareAck(load))
    ensures SysInv(Do(s, PrepareAck(load)))
  {
    var w := NextWindow(s, load);
    AckStepKeepsInv(s, w.rwnd, w.pos, s.acks, Some((s.rcv.r.base, w.rwnd)));
  }

  lemma SendAckKeepsInv(s: Sys)
    requires SysInv(s) && Enabled(s, SendAck)
    ensures SysInv(Do(s, SendAck))
  {
    AckStepKeepsInv(s, s.rwnd, s.pos, s.acks + {s.ackInfo.value}, None);
  }

  lemma CallReceiveKeepsInv(s: Sys)
    requires SysInv(s) && Enabled(s, CallReceive)
    ensures SysInv(Do(s, CallReceive))
  {
    ReceiveKeepsRcv(s.snd.iss, s.snd.next, s.stream, s.rcv, s.listening);
    ReceiverStepKeepsInv(s, RL.ReceiveCode(s.rcv, s.listening), s.listening);
  }

  lemma ReceiverEndsKeepsInv(s: Sys, x: Action)
    requires SysInv(s) && Enabled(s, x) && (x.ReceiverCloses? || x.ReceiverClosed?)
    ensures SysInv(Do(s, x))
  {
    CloseKeepsRcv(s.snd.iss, s.snd.next, s.stream, s.rcv);
    ReceiverStepKeepsInv(s, Do(s, x).rcv, false);
  }

  lemma StepKeepsInv(s: Sys, x: Action)
    requires SysInv(s) && Enabled(s, x)
    ensures SysInv(Do(s, x))
  {
    match x
    case Submit(message, mss) => SubmitKeepsInv(s, message, mss);
    case SendPacket(now) => SendPacketKeepsInv(s, now);
    case SenderTimer(now) => SenderTimerKeepsInv(s, now);
    case SenderCloses(byUser) => SenderClosesKeepsInv(s, byUser);
    case SenderFails => SenderFailsKeepsInv(s);
    case DeliverData(n, c) => DeliverDataKeepsInv(s, n, c);
    case PrepareAck(load) => PrepareAckKeepsInv(s, load);
    case SendAck => SendAckKeepsInv(s);
    case DeliverAck(a, w, now) => DeliverAckKeepsInv(s, a, w, now);
    case CallReceive => CallReceiveKeepsInv(s);
    case ReceiverCloses(_) => ReceiverEndsKeepsInv(s, x);
    case ReceiverClosed => ReceiverEndsKeepsInv(s, x);
  }

  lemma NextKeepsInv(s: Sys, t: Sys)
    requires SysInv(s) && Next(s, t)
    ensures SysInv(t)
  {
    var x :| Enabled(s, x) && t == Do(s, x);
    StepKeepsInv(s, x);
  }

  lemma {:induction false} RunKeepsInv(iss: int, wnd: U16, trace: seq<Sys>, i: nat)
    requires Run(iss, wnd, trace) && i < |trace|
    ensures SysInv(trace[i])
  {
    if i == 0 {
      StartInv(iss, wnd);
    } else {
      RunKeepsInv(iss, wnd, trace, i - 1);
      assert Next(trace[i - 1], trace[i]);
      NextKeepsInv(trace[i - 1], trace[i]);
    }
  }

  // ---------- reachable states ----------

  ghost predicate Reached(iss: int, wnd: U16, s: Sys) {
    exists trace: seq<Sys> :: Run(iss, wnd, trace) && trace[|trace| - 1] == s
  }

  lemma StartReached(iss: int, wnd: U16)
    ensures Reached(iss, wnd, Start(iss, wnd))
  {
    assert Run(iss, wnd, [Start(iss, wnd)]);
  }

  lemma NextReached(iss: int, wnd: U16, s: Sys, x: Action)
    requires Reached(iss, wnd, s) && Enabled(s, x)
    ensures Reached(iss, wnd, Do(s, x))
  {
    var trace: seq<Sys> :| Run(iss, wnd, trace) && trace[|trace| - 1] == s;
    var longer := trace + [Do(s, x)];
    assert Next(s, Do(s, x));
    assert Run(iss, wnd, longer) by {
      forall i | 0 <= i < |longer| - 1 ensures Next(longer[i], longer[i + 1]) {
        if i < |trace| - 1 {
          assert Next(trace[i], trace[i + 1]);
        }
      }
    }
  }

  lemma Act(iss: int, wnd: U16, s: Sys, x: Action) returns (t: Sys)
    requires Reached(iss, wnd, s) && Enabled(s, x)
    ensures Reached(iss, wnd, t) && t == Do(s, x)
  {
    t := Do(s, x);
    NextReached(iss, wnd, s, x);
  }

  lemma ReachedKeepsInv(iss: int, wnd: U16, s: Sys)
    requires Reached(iss, wnd, s)
    ensures SysInv(s)
  {
    var trace: seq<Sys> :| Run(iss, wnd, trace) && trace[|trace| - 1] == s;
    RunKeepsInv(iss, wnd, trace, |trace| - 1);
  }
}
