/**
  Two endpoints that open and close a connection with each other over a network that loses,
  duplicates and reorders control packets.  Users call connect and close at either end at
  any time; a reset or a timeout may end either end at any time.  Each socket is used for
  one connection.

  Main results: who is ESTABLISHED knows that the peer has processed its SYN
  (EstablishedAgrees), who has closed without an error has seen the peer leave ESTABLISHED
  (CloseAgrees), and a control packet is resent until the peer has counted it
  (ControlPacketArrives).
 */
module Handshake {
  import opened Circular
  import opened Message
  import opened ControlModel

  /** One side, what it has ever sent, and the first number it uses. */
  datatype Side = Side(c: Ctrl, out: set<CtrlPacket>, iss: U16)

  datatype Pair = Pair(a: Side, b: Side)

  datatype Action = At(first: bool, x: Step)

  function Start(issA: U16, issB: U16): Pair {
    Pair(Side(ControlModel.Initial(issA), {}, issA), Side(ControlModel.Initial(issB), {}, issB))
  }

  /** A packet must come from the peer, and a closed socket is not connected again. */
  predicate SideEnabled(s: Side, peer: Side, x: Step) {
    && ControlModel.Enabled(s.c, x)
    && (x.DoPacket? ==> x.p in peer.out)
    && (x.DoHandleCtrl? && s.c.state == Closed && s.c.calls.para == Some(Connect) ==>
        s.c.error || s.c.link.ourSeq == s.iss)
  }

  function SideDo(s: Side, x: Step): Side {
    var sent := if x.DoSend? then Outgoing(s.c.link) else None;
    s.(c := ControlModel.Do(s.c, x), out := if sent.Some? then s.out + {sent.value} else s.out)
  }

  predicate Enabled(s: Pair, act: Action) {
    if act.first then SideEnabled(s.a, s.b, act.x) else SideEnabled(s.b, s.a, act.x)
  }

  function Do(s: Pair, act: Action): Pair {
    if act.first then s.(a := SideDo(s.a, act.x)) else s.(b := SideDo(s.b, act.x))
  }

  ghost predicate Next(s: Pair, t: Pair) {
    exists act :: Enabled(s, act) && t == Do(s, act)
  }

  ghost predicate Run(issA: U16, issB: U16, trace: seq<Pair>) {
    && trace != [] && trace[0] == Start(issA, issB)
    && forall i :: 0 <= i < |trace| - 1 ==> Next(trace[i], trace[i + 1])
  }

  // ---------- the invariant ----------

  /** How many numbers a side has used: none, its SYN's, or also its FIN's. */
  function Used(l: Link, iss: U16): nat {
    if l.ourSeq == iss then 0 else if l.ourSeq == Wire(iss + 1) then 1 else 2
  }

  predicate SequenceFits(l: Link, iss: U16) {
    l.ourSeq == iss || l.ourSeq == Wire(iss + 1) || l.ourSeq == Wire(iss + 2)
  }

  /** What the state says about the numbers used and the packets heard. */
  predicate StateFits(state: State, error: bool, l: Link, iss: U16) {
    && SequenceFits(l, iss)
    && (l.synReced || l.synAckReced ==> Used(l, iss) >= 1)
    && (Used(l, iss) == 2 ==> l.synReced && l.synAckReced)
    && match state
       case Closed => !error && Used(l, iss) > 0 ==> Used(l, iss) == 2 && l.finReced && l.finAckReced
       case Connecting => Used(l, iss) == 1
       case Established => Used(l, iss) == 1 && l.synReced && l.synAckReced
       case Closing => Used(l, iss) == 2
  }

  /** A control packet carries its own number, and only once that number is used. */
  predicate NumberFits(p: CtrlPacket, l: Link, iss: U16) {
    if p.syn then !p.fin && p.num == Some(iss) && Used(l, iss) >= 1
    else if p.fin then p.num == Some(Wire(iss + 1)) && Used(l, iss) == 2
    else p.num.None?
  }

  /** Acks are sent after the peer's SYN, and acknowledge its FIN only when that is counted. */
  predicate AckFits(ack: Option<U16>, l: Link, peerIss: U16) {
    ack.Some? ==>
      && l.synReced
      && (ack.value == Wire(peerIss + 1) || (ack.value == Wire(peerIss + 2) && l.theirSeq == Wire(peerIss + 2)))
  }

  predicate PacketFits(p: CtrlPacket, l: Link, iss: U16, peerIss: U16) {
    NumberFits(p, l, iss) && AckFits(p.ack, l, peerIss)
  }

  /** The peer's first number has been counted, and its FIN's only if that is used. */
  predicate CountFits(l: Link, peer: Link, peerIss: U16) {
    && l.dataBase == peerIss && Used(peer, peerIss) >= 1
    && (l.theirSeq == Wire(peerIss + 1) || (l.theirSeq == Wire(peerIss + 2) && Used(peer, peerIss) == 2))
  }

  /** What a side has heard is so. */
  predicate Knows(l: Link, peer: Link, peerIss: U16) {
    && (l.synReced ==> CountFits(l, peer, peerIss))
    && (l.synAckReced ==> peer.synReced)
    && (l.finReced ==> l.synReced && l.theirSeq == Wire(peerIss + 2))
  }

  /** No packet of ours waits for an ack: the peer has counted all of them. */
  predicate Settled(l: Link, error: bool, peer: Link, iss: U16) {
    l.toSend.None? && !error && Used(l, iss) > 0 ==> peer.synReced && peer.theirSeq == l.ourSeq
  }

  /** A side apart from what it has sent, as seen from itself. */
  predicate LinkInv(state: State, error: bool, l: Link, iss: U16, peer: Link, peerIss: U16) {
    && StateFits(state, error, l, iss)
    && (error ==> state == Closed)
    && AckFits(l.ack, l, peerIss)
    && (l.toSend.Some? ==> PacketFits(l.toSend.value, l, iss, peerIss))
    && Knows(l, peer, peerIss)
    && Settled(l, error, peer, iss)
  }

  predicate SideInv(s: Side, peer: Side) {
    && LinkInv(s.c.state, s.c.error, s.c.link, s.iss, peer.c.link, peer.iss)
    && (forall p :: p in s.out ==> PacketFits(p, s.c.link, s.iss, peer.iss))
  }

  predicate PairInv(s: Pair) {
    SideInv(s.a, s.b) && SideInv(s.b, s.a)
  }

  lemma StartInv(issA: U16, issB: U16)
    ensures PairInv(Start(issA, issB))
  {
  }

  // ---------- what the other side may rely on ----------

  /** A side only learns and only uses new numbers. */
  predicate Later(l: Link, t: Link, iss: U16, peerIss: U16) {
    && Used(l, iss) <= Used(t, iss)
    && (l.synReced ==> t.synReced)
    && (l.synReced ==> t.theirSeq == l.theirSeq || (l.theirSeq == Wire(peerIss + 1) && t.theirSeq == Wire(peerIss + 2)))
  }

  lemma PacketStaysFit(p: CtrlPacket, l: Link, t: Link, iss: U16, peerIss: U16)
    requires PacketFits(p, l, iss, peerIss) && Later(l, t, iss, peerIss) && SequenceFits(t, iss)
    ensures PacketFits(p, t, iss, peerIss)
  {
  }

  /** The peer's invariant survives a step of this side. */
  lemma PeerKeepsInv(state: State, error: bool, l: Link, iss: U16, s: Link, t: Link, peerIss: U16)
    requires LinkInv(state, error, l, iss, s, peerIss)
    requires Later(s, t, peerIss, iss) && Knows(t, l, iss) && SequenceFits(t, peerIss)
    ensures LinkInv(state, error, l, iss, t, peerIss)
  {
  }

  // ---------- steps without a packet ----------

  lemma OpenKeepsInv(l: Link, iss: U16, peer: Link, peerIss: U16)
    requires LinkInv(Closed, false, l, iss, peer, peerIss) && l.ourSeq == iss
    ensures LinkInv(Connecting, false, SendSyn(l), iss, peer, peerIss) && Later(l, SendSyn(l), iss, peerIss)
  {
  }

  lemma CloseKeepsInv(l: Link, iss: U16, peer: Link, peerIss: U16)
    requires LinkInv(Established, false, l, iss, peer, peerIss)
    ensures LinkInv(Closing, false, SendFin(l), iss, peer, peerIss) && Later(l, SendFin(l), iss, peerIss)
  {
    WireAdd(iss + 1, 1);
    WireAdd(iss, 1);
  }

  lemma ErrorKeepsInv(state: State, error: bool, l: Link, iss: U16, peer: Link, peerIss: U16, t: Link)
    requires LinkInv(state, error, l, iss, peer, peerIss)
    requires t == l || t == l.(toSend := None, sent := true, rto := CTRL_TIMEOUT)
    ensures LinkInv(Closed, true, t, iss, peer, peerIss) && Later(l, t, iss, peerIss)
  {
  }

  lemma SendKeepsInv(state: State, error: bool, l: Link, iss: U16, peer: Link, peerIss: U16)
    requires LinkInv(state, error, l, iss, peer, peerIss)
    ensures LinkInv(state, error, SendLink(l), iss, peer, peerIss) && Later(l, SendLink(l), iss, peerIss)
    ensures Outgoing(l).Some? ==> PacketFits(Outgoing(l).value, l, iss, peerIss)
  {
  }

  // ---------- packets ----------

  /** What an arriving packet tells for sure. */
  predicate Tells(p: CtrlPacket, l: Link, iss: U16, peer: Link, peerIss: U16) {
    && (p.syn ==> !p.fin && p.num == Some(peerIss) && Used(peer, peerIss) >= 1)
    && (p.fin ==> p.num == Some(Wire(peerIss + 1)) && Used(peer, peerIss) == 2 && l.synReced)
    && (!p.syn && !p.fin ==> p.num.None?)
    && (p.ack.Some? ==> peer.synReced)
    && (p.ack == Some(l.ourSeq) && Used(l, iss) > 0 ==> peer.theirSeq == l.ourSeq)
  }

  lemma PacketTells(p: CtrlPacket, l: Link, iss: U16, peer: Link, peerIss: U16, peerState: State, peerError: bool)
    requires PacketFits(p, peer, peerIss, iss) && SequenceFits(l, iss)
    requires LinkInv(peerState, peerError, peer, peerIss, l, iss)
    ensures Tells(p, l, iss, peer, peerIss)
  {
  }

  lemma TakeAckKeepsInv(state: State, l: Link, iss: U16, peer: Link, peerIss: U16, p: CtrlPacket)
    requires LinkInv(state, false, l, iss, peer, peerIss) && Tells(p, l, iss, peer, peerIss)
    ensures LinkInv(state, false, TakeAck(l, p), iss, peer, peerIss) && Tells(p, TakeAck(l, p), iss, peer, peerIss)
  {
  }

  lemma TakeFinKeepsInv(state: State, l: Link, iss: U16, peer: Link, peerIss: U16, p: CtrlPacket)
    requires LinkInv(state, false, l, iss, peer, peerIss) && Tells(p, l, iss, peer, peerIss)
    requires state == Established || state == Closing
    ensures LinkInv(state, false, TakeFin(l, p), iss, peer, peerIss) && Later(l, TakeFin(l, p), iss, peerIss)
  {
    WireAdd(peerIss + 1, 1);
  }

  lemma AckNumberedKeepsInv(state: State, l: Link, iss: U16, peer: Link, peerIss: U16, p: CtrlPacket)
    requires LinkInv(state, false, l, iss, peer, peerIss) && Tells(p, l, iss, peer, peerIss)
    requires p.syn ==> l.synReced
    ensures LinkInv(state, false, AckNumbered(l, p), iss, peer, peerIss) && Later(l, AckNumbered(l, p), iss, peerIss)
  {
    WireAdd(peerIss + 1, 1);
  }

  lemma TakeSynKeepsInv(state: State, l: Link, iss: U16, peer: Link, peerIss: U16, p: CtrlPacket)
    requires LinkInv(state, false, l, iss, peer, peerIss) && Tells(p, l, iss, peer, peerIss)
    requires p.syn && !l.synReced && state == Connecting
    ensures LinkInv(state, false, TakeSyn(l, peerIss), iss, peer, peerIss)
    ensures Later(l, TakeSyn(l, peerIss), iss, peerIss)
  {
  }

  /** A passive open: the peer's SYN is counted and our own is sent. */
  lemma PassiveOpenKeepsInv(l: Link, iss: U16, peer: Link, peerIss: U16, p: CtrlPacket)
    requires LinkInv(Closed, false, l, iss, peer, peerIss) && Tells(p, l, iss, peer, peerIss)
    requires p.syn && !l.synReced
    ensures var t := SendSyn(TakeSyn(l, peerIss));
      LinkInv(Connecting, false, t, iss, peer, peerIss) && Later(l, t, iss, peerIss)
  {
    OpenKeepsInv(l, iss, peer, peerIss);
    TakeSynKeepsInv(Connecting, SendSyn(l), iss, peer, peerIss, p.(ack := None));
    assert SendSyn(TakeSyn(l, peerIss)) == TakeSyn(SendSyn(l), peerIss);
  }

  lemma SynAckKeepsInv(l: Link, iss: U16, peer: Link, peerIss: U16, p: CtrlPacket)
    requires LinkInv(Connecting, false, l, iss, peer, peerIss) && Tells(p, l, iss, peer, peerIss) && p.ack.Some?
    ensures var t := TakeAck(l, p).(synAckReced := true);
      LinkInv(Connecting, false, t, iss, peer, peerIss) && Tells(p, t, iss, peer, peerIss)
  {
    TakeAckKeepsInv(Connecting, l, iss, peer, peerIss, p);
  }

  lemma ConnectingLinkKeepsInv(l: Link, iss: U16, peer: Link, peerIss: U16, p: CtrlPacket)
    requires LinkInv(Connecting, false, l, iss, peer, peerIss) && Tells(p, l, iss, peer, peerIss)
    ensures var t := ConnectingLink(l, p);
      && LinkInv(Connecting, false, t, iss, peer, peerIss) && Later(l, t, iss, peerIss)
      && (t.synReced && t.synAckReced ==> LinkInv(Established, false, t, iss, peer, peerIss))
  {
    if p.ack.Some? {
      SynAckKeepsInv(l, iss, peer, peerIss, p);
    }
    var acked := if p.ack.Some? then TakeAck(l, p).(synAckReced := true) else l;
    assert Later(l, acked, iss, peerIss) && acked.synReced == l.synReced && acked.theirSeq == l.theirSeq;
    if p.syn && !l.synReced {
      TakeSynKeepsInv(Connecting, acked, iss, peer, peerIss, p);
    } else if !p.syn {
      AckNumberedKeepsInv(Connecting, acked, iss, peer, peerIss, p);
    }
  }

  lemma EstablishedLinkKeepsInv(l: Link, iss: U16, peer: Link, peerIss: U16, p: CtrlPacket)
    requires LinkInv(Established, false, l, iss, peer, peerIss) && Tells(p, l, iss, peer, peerIss)
    ensures var t := TakeFin(TakeAck(l, p), p);
      && LinkInv(Established, false, t, iss, peer, peerIss) && Later(l, t, iss, peerIss)
      && LinkInv(Closing, false, SendFin(t), iss, peer, peerIss) && Later(l, SendFin(t), iss, peerIss)
  {
    TakeAckKeepsInv(Established, l, iss, peer, peerIss, p);
    TakeFinKeepsInv(Established, TakeAck(l, p), iss, peer, peerIss, p);
    CloseKeepsInv(TakeFin(TakeAck(l, p), p), iss, peer, peerIss);
  }

  lemma ClosingLinkKeepsInv(l: Link, iss: U16, peer: Link, peerIss: U16, p: CtrlPacket)
    requires LinkInv(Closing, false, l, iss, peer, peerIss) && Tells(p, l, iss, peer, peerIss)
    ensures var t := ClosingLink(l, p);
      && LinkInv(Closing, false, t, iss, peer, peerIss) && Later(l, t, iss, peerIss)
      && (t.finReced && t.finAckReced ==> LinkInv(Closed, false, t, iss, peer, peerIss))
  {
    TakeAckKeepsInv(Closing, l, iss, peer, peerIss, p);
    var acked := if p.ack.Some? then TakeAck(l, p).(finAckReced := true) else l;
    TakeFinKeepsInv(Closing, acked, iss, peer, peerIss, p);
  }

  lemma PacketKeepsInv(c: Ctrl, iss: U16, peer: Link, peerIss: U16, p: CtrlPacket)
    requires !c.error && LinkInv(c.state, false, c.link, iss, peer, peerIss) && Tells(p, c.link, iss, peer, peerIss)
    ensures var t := HandlePacket(c, p);
      LinkInv(t.state, t.error, t.link, iss, peer, peerIss) && Later(c.link, t.link, iss, peerIss)
  {
    match c.state
    case Closed =>
      if p.syn && !c.link.synReced {
        PassiveOpenKeepsInv(c.link, iss, peer, peerIss, p);
      } else {
        AckNumberedKeepsInv(Closed, c.link, iss, peer, peerIss, p);
      }
    case Connecting => ConnectingLinkKeepsInv(c.link, iss, peer, peerIss, p);
    case Established => EstablishedLinkKeepsInv(c.link, iss, peer, peerIss, p);
    case Closing => ClosingLinkKeepsInv(c.link, iss, peer, peerIss, p);
  }

  // ---------- every step ----------

  lemma CallKeepsInv(s: Side, peer: Side, got: bool)
    requires SideInv(s, peer) && SideEnabled(s, peer, DoHandleCtrl(got))
    ensures var t := HandleCtrl(s.c, got);
      LinkInv(t.state, t.error, t.link, s.iss, peer.c.link, peer.iss) && Later(s.c.link, t.link, s.iss, peer.iss)
  {
    if !s.c.error && s.c.state == Closed && s.c.link.ourSeq == s.iss {
      OpenKeepsInv(s.c.link, s.iss, peer.c.link, peer.iss);
    } else if !s.c.error && s.c.state == Established {
      CloseKeepsInv(s.c.link, s.iss, peer.c.link, peer.iss);
    }
  }

  lemma SideKeepsInv(s: Side, peer: Side, x: Step)
    requires SideInv(s, peer) && SideInv(peer, s) && SideEnabled(s, peer, x)
    ensures var t := SideDo(s, x).c;
      LinkInv(t.state, t.error, t.link, s.iss, peer.c.link, peer.iss) && Later(s.c.link, t.link, s.iss, peer.iss)
  {
    var l := s.c.link;
    match x
    case DoIssue(_) =>
    case DoHandleCtrl(got) => CallKeepsInv(s, peer, got);
    case DoPacket(p) => ArrivalKeepsInv(s, peer, p);
    case DoReset => ErrorKeepsInv(s.c.state, s.c.error, l, s.iss, peer.c.link, peer.iss, l);
    case DoSend => SendKeepsInv(s.c.state, s.c.error, l, s.iss, peer.c.link, peer.iss);
    case DoTimeout(expired) => TimeoutKeepsInv(s, peer, expired);
  }

  lemma ArrivalKeepsInv(s: Side, peer: Side, p: CtrlPacket)
    requires SideInv(s, peer) && SideInv(peer, s) && SideEnabled(s, peer, DoPacket(p))
    ensures var t := SideDo(s, DoPacket(p)).c;
      LinkInv(t.state, t.error, t.link, s.iss, peer.c.link, peer.iss) && Later(s.c.link, t.link, s.iss, peer.iss)
  {
    PacketTells(p, s.c.link, s.iss, peer.c.link, peer.iss, peer.c.state, peer.c.error);
    PacketKeepsInv(s.c, s.iss, peer.c.link, peer.iss, p);
  }

  lemma TimeoutKeepsInv(s: Side, peer: Side, expired: bool)
    requires SideInv(s, peer) && SideEnabled(s, peer, DoTimeout(expired))
    ensures var t := SideDo(s, DoTimeout(expired)).c;
      LinkInv(t.state, t.error, t.link, s.iss, peer.c.link, peer.iss) && Later(s.c.link, t.link, s.iss, peer.iss)
  {
    var l := s.c.link;
    ErrorKeepsInv(s.c.state, s.c.error, l, s.iss, peer.c.link, peer.iss,
      l.(toSend := None, sent := true, rto := CTRL_TIMEOUT));
  }

  lemma SideStepKeepsInv(s: Side, peer: Side, x: Step)
    requires SideInv(s, peer) && SideInv(peer, s) && SideEnabled(s, peer, x)
    ensures SideInv(SideDo(s, x), peer) && SideInv(peer, SideDo(s, x))
  {
    var t := SideDo(s, x);
    SideKeepsInv(s, peer, x);
    PeerKeepsInv(peer.c.state, peer.c.error, peer.c.link, peer.iss, s.c.link, t.c.link, s.iss);
    SendKeepsInv(s.c.state, s.c.error, s.c.link, s.iss, peer.c.link, peer.iss);
    forall p | p in t.out ensures PacketFits(p, t.c.link, s.iss, peer.iss) {
      PacketStaysFit(p, s.c.link, t.c.link, s.iss, peer.iss);
    }
  }

  lemma StepKeepsInv(s: Pair, act: Action)
    requires PairInv(s) && Enabled(s, act)
    ensures PairInv(Do(s, act))
  {
    if act.first {
      SideStepKeepsInv(s.a, s.b, act.x);
    } else {
      SideStepKeepsInv(s.b, s.a, act.x);
    }
  }

  lemma {:induction false} RunKeepsInv(issA: U16, issB: U16, trace: seq<Pair>, i: nat)
    requires Run(issA, issB, trace) && i < |trace|
    ensures PairInv(trace[i])
  {
    if i == 0 {
      StartInv(issA, issB);
    } else {
      RunKeepsInv(issA, issB, trace, i - 1);
      assert Next(trace[i - 1], trace[i]);
      var act :| Enabled(trace[i - 1], act) && trace[i] == Do(trace[i - 1], act);
      StepKeepsInv(trace[i - 1], act);
    }
  }

  // ---------- main results ----------

  /** ESTABLISHED at one end: the peer has processed its SYN, both ends receive data from the
      other's first number on, and what one end will use next is what the other expects or
      one more. */
  predicate Agrees(x: Side, y: Side) {
    && (x.c.state == Established ==> x.c.link.synReced && y.c.link.synReced)
    && (x.c.link.synReced ==> x.c.link.dataBase == y.iss)
    && (y.c.link.synReced ==>
        x.c.link.ourSeq == y.c.link.theirSeq || x.c.link.ourSeq == Wire(y.c.link.theirSeq + 1))
  }

  lemma EstablishedAgrees(issA: U16, issB: U16, trace: seq<Pair>, i: nat)
    requires Run(issA, issB, trace) && i < |trace|
    ensures Agrees(trace[i].a, trace[i].b) && Agrees(trace[i].b, trace[i].a)
  {
    RunKeepsInv(issA, issB, trace, i);
    InvAgrees(trace[i].a, trace[i].b);
    InvAgrees(trace[i].b, trace[i].a);
  }

  lemma InvAgrees(x: Side, y: Side)
    requires SideInv(x, y) && SideInv(y, x)
    ensures Agrees(x, y)
  {
    WireAdd(x.iss + 1, 1);
  }

  /** CLOSED again without an error: the peer's FIN was counted, and the peer has left
      ESTABLISHED. */
  predicate ClosedFits(x: Side, y: Side) {
    x.c.state == Closed && !x.c.error && x.c.link.ourSeq != x.iss ==>
      && x.c.link.finReced && x.c.link.theirSeq == Wire(y.iss + 2)
      && (y.c.state == Closing || y.c.state == Closed) && y.c.link.ourSeq == Wire(y.iss + 2)
  }

  lemma CloseAgrees(issA: U16, issB: U16, trace: seq<Pair>, i: nat)
    requires Run(issA, issB, trace) && i < |trace|
    ensures ClosedFits(trace[i].a, trace[i].b) && ClosedFits(trace[i].b, trace[i].a)
  {
    RunKeepsInv(issA, issB, trace, i);
  }

  /** A control packet that is no longer resent, although no error has occurred, has been
      counted by the peer. */
  lemma ControlPacketArrives(issA: U16, issB: U16, trace: seq<Pair>, i: nat)
    requires Run(issA, issB, trace) && i < |trace|
    ensures var x, y := trace[i].a, trace[i].b;
      && (x.c.link.toSend.None? && !x.c.error && x.c.link.ourSeq != x.iss ==> y.c.link.theirSeq == x.c.link.ourSeq)
      && (y.c.link.toSend.None? && !y.c.error && y.c.link.ourSeq != y.iss ==> x.c.link.theirSeq == y.c.link.ourSeq)
  {
    RunKeepsInv(issA, issB, trace, i);
  }

  // ---------- connect calls ----------

  predicate Connected(u: Calls) {
    exists o :: o in u.done && o.call == Connect && o.ok
  }

  /** A connect call only succeeds when our SYN has been acked. */
  lemma StepConnects(c: Ctrl, x: Step, iss: U16)
    requires StateFits(c.state, c.error, c.link, iss)
    requires Connected(c.calls) ==> c.link.synAckReced
    ensures Connected(ControlModel.Do(c, x).calls) ==> ControlModel.Do(c, x).link.synAckReced
  {
    if x.DoPacket? {
      PacketConnects(c, x.p, iss);
    } else {
      var t := ControlModel.Do(c, x);
      forall o | o in t.calls.done && o.call == Connect && o.ok ensures t.link.synAckReced {
        if o in c.calls.done {
          assert Connected(c.calls);
        }
      }
    }
  }

  lemma PacketConnects(c: Ctrl, p: CtrlPacket, iss: U16)
    requires StateFits(c.state, c.error, c.link, iss)
    requires Connected(c.calls) ==> c.link.synAckReced
    ensures Connected(HandlePacket(c, p).calls) ==> HandlePacket(c, p).link.synAckReced
  {
    var t := HandlePacket(c, p);
    forall o | o in t.calls.done && o.call == Connect && o.ok ensures t.link.synAckReced {
      if o in c.calls.done {
        assert Connected(c.calls);
      }
    }
  }

  predicate SynsAcked(s: Pair) {
    && (Connected(s.a.c.calls) ==> s.a.c.link.synAckReced)
    && (Connected(s.b.c.calls) ==> s.b.c.link.synAckReced)
  }

  lemma ActKeepsSynsAcked(s: Pair, act: Action)
    requires PairInv(s) && SynsAcked(s)
    ensures SynsAcked(Do(s, act))
  {
    if act.first {
      StepConnects(s.a.c, act.x, s.a.iss);
    } else {
      StepConnects(s.b.c, act.x, s.b.iss);
    }
  }

  lemma {:induction false} RunConnects(issA: U16, issB: U16, trace: seq<Pair>, i: nat)
    requires Run(issA, issB, trace) && i < |trace|
    ensures SynsAcked(trace[i])
  {
    if i > 0 {
      RunConnects(issA, issB, trace, i - 1);
      RunKeepsInv(issA, issB, trace, i - 1);
      assert Next(trace[i - 1], trace[i]);
      var act :| Enabled(trace[i - 1], act) && trace[i] == Do(trace[i - 1], act);
      ActKeepsSynsAcked(trace[i - 1], act);
    }
  }

  /** After a connect call has returned TRUE, the peer has processed our SYN and will take
      our data from our first number on. */
  lemma ConnectTrueMeansPeerKnows(issA: U16, issB: U16, trace: seq<Pair>, i: nat)
    requires Run(issA, issB, trace) && i < |trace|
    ensures Connected(trace[i].a.c.calls) ==> trace[i].b.c.link.synReced && trace[i].b.c.link.dataBase == trace[i].a.iss
    ensures Connected(trace[i].b.c.calls) ==> trace[i].a.c.link.synReced && trace[i].a.c.link.dataBase == trace[i].b.iss
  {
    RunKeepsInv(issA, issB, trace, i);
    RunConnects(issA, issB, trace, i);
  }

  // ---------- what closing does not tell ----------

  ghost predicate Reached(issA: U16, issB: U16, s: Pair) {
    exists trace: seq<Pair> :: Run(issA, issB, trace) && trace[|trace| - 1] == s
  }

  lemma StartReached(issA: U16, issB: U16)
    ensures Reached(issA, issB, Start(issA, issB))
  {
    assert Run(issA, issB, [Start(issA, issB)]);
  }

  lemma NextReached(issA: U16, issB: U16, s: Pair, act: Action)
    requires Reached(issA, issB, s) && Enabled(s, act)
    ensures Reached(issA, issB, Do(s, act))
  {
    var trace: seq<Pair> :| Run(issA, issB, trace) && trace[|trace| - 1] == s;
    var longer := trace + [Do(s, act)];
    assert Next(s, Do(s, act));
    assert Run(issA, issB, longer) by {
      forall i | 0 <= i < |longer| - 1 ensures Next(longer[i], longer[i + 1]) {
        if i < |trace| - 1 {
          assert Next(trace[i], trace[i + 1]);
        }
      }
    }
  }

  const SYN := CtrlPacket(true, false, Some(0), None)
  const SYN_ACK := CtrlPacket(true, false, Some(100), Some(1))
  const ACK := CtrlPacket(false, false, None, Some(101))
  const FIN := CtrlPacket(false, true, Some(101), None)

  predicate Opened(s: Pair) {
    && s.a.c == Ctrl(Established, Link(1, 101, 100, None, true, CTRL_TIMEOUT, None, true, true, false, false),
                     Calls(None, false, false, 1, [Outcome(Connect, true, Established)]), false)
    && s.b.c == Ctrl(Established, Link(101, 1, 0, None, true, CTRL_TIMEOUT, None, true, true, false, false),
                     Calls(None, false, false, 0, []), false)
    && s.a.iss == 0 && s.b.iss == 100 && SYN_ACK in s.b.out && forall p :: p in s.a.out ==> !p.fin
  }

  predicate HalfOpened(s: Pair) {
    && s.a.c == Ctrl(Connecting, Link(1, 0, 0, Some(SYN), true, CTRL_TIMEOUT, None, false, false, false, false),
                     Calls(Some(Connect), true, true, 1, []), false)
    && s.b.c == Ctrl(Connecting, Link(101, 1, 0, Some(SYN_ACK), true, CTRL_TIMEOUT, None, true, false, false, false),
                     Calls(None, false, false, 0, []), false)
    && s.a.iss == 0 && s.b.iss == 100 && SYN_ACK in s.b.out && forall p :: p in s.a.out ==> !p.fin
  }

  lemma HalfOpenExample() returns (s: Pair)
    ensures Reached(0, 100, s) && HalfOpened(s)
  {
    s := Start(0, 100);
    StartReached(0, 100);
    s := Act(s, At(true, DoIssue(Connect)));
    s := Act(s, At(true, DoHandleCtrl(true)));
    s := Act(s, At(true, DoSend));
    assert SYN in s.a.out;
    s := Act(s, At(false, DoPacket(SYN)));
    s := Act(s, At(false, DoSend));
  }

  lemma OpenExample() returns (s: Pair)
    ensures Reached(0, 100, s) && Opened(s)
  {
    s := HalfOpenExample();
    s := Act(s, At(true, DoPacket(SYN_ACK)));
    assert s.a.c.calls.done == [Outcome(Connect, true, Established)];
    s := Act(s, At(true, DoSend));
    assert ACK in s.a.out;
    s := Act(s, At(false, DoPacket(ACK)));
  }

  lemma Act(s: Pair, act: Action) returns (t: Pair)
    requires Reached(0, 100, s) && Enabled(s, act)
    ensures Reached(0, 100, t) && t == Do(s, act)
  {
    t := Do(s, act);
    NextReached(0, 100, s, act);
  }

  /** CLOSING takes any ack for the ack of its FIN: both ends close at once, an old ack comes
      again, and one end is CLOSED, with no error, before it has sent its FIN at all. */
  lemma CloseCanForgetFin() returns (s: Pair)
    ensures Reached(0, 100, s)
    ensures s.a.c.state == Closed && !s.a.c.error && s.a.c.link.ourSeq == 2
    ensures forall p :: p in s.a.out ==> !p.fin
    ensures s.b.c.state == Closing && s.b.c.link.theirSeq == 1
  {
    s := OpenExample();
    s := Act(s, At(false, DoIssue(Close)));
    s := Act(s, At(false, DoHandleCtrl(true)));
    s := Act(s, At(false, DoSend));
    assert FIN in s.b.out;
    s := Act(s, At(true, DoIssue(Close)));
    s := Act(s, At(true, DoHandleCtrl(true)));
    assert s.a.c.state == Closing;
    s := Act(s, At(true, DoPacket(SYN_ACK)));
    s := Act(s, At(true, DoPacket(FIN)));
  }
}
