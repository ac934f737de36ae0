/**
  What a control packet brings about: the ack of its number, the change of state, our own SYN or
  FIN and its resending (ump_sock.c:137-170, 611-650, 1023-1503).

  Main results: the pending ack is always the next number expected, and the next packet sent after
  a numbered one carries it (AckGoesOut); exactly when a packet or a call changes the state
  (EstablishedMovesExactly and the like, CallStartsPacket); and a packet goes out at most four times
  (AtMostFourSends).
 */
module ControlPackets {
  import opened Circular
  import opened Message
  import opened ControlModel

  // ---------- acks ----------

  /** The SYN that opens the connection. */
  predicate IsFirstSyn(c: Ctrl, p: CtrlPacket) {
    (c.state == Closed || c.state == Connecting) && p.syn && !c.link.synReced
  }

  /** The SYN that comes again while we are connecting. */
  predicate IsSynAgain(c: Ctrl, p: CtrlPacket) {
    c.state == Connecting && p.syn && c.link.synReced
  }

  /** l has become t: a number is acked by the next number expected, which is the one after it if it
      was expected or opens the connection.  Without a number only another SYN is answered. */
  predicate IsAcked(l: Link, t: Link, p: CtrlPacket, first: bool, again: bool) {
    && (p.num.Some? ==> t.ack == Some(t.theirSeq))
    && (p.num.None? ==> t.ack == (if again then Some(l.theirSeq) else l.ack) && t.theirSeq == l.theirSeq)
    && (p.num.Some? && first ==> t.theirSeq == (p.num.value + 1) % MODULUS && t.dataBase == p.num.value)
    && (p.num.Some? && !first && !again ==>
         t.theirSeq == if p.num.value == l.theirSeq then (l.theirSeq + 1) % MODULUS else l.theirSeq)
    && (again ==> t.theirSeq == l.theirSeq) && (!first ==> t.dataBase == l.dataBase)
  }

  /** In every state the number of a packet is acked that way. */
  lemma NumberIsAcked(c: Ctrl, p: CtrlPacket)
    ensures IsAcked(c.link, HandlePacket(c, p).link, p, IsFirstSyn(c, p), IsSynAgain(c, p))
  {
    match c.state
    case Closed => ClosedIsAcked(c, p);
    case Connecting => ConnectingIsAcked(c, p);
    case Established => EstablishedIsAcked(c, p);
    case Closing => ClosingIsAcked(c, p);
  }

  lemma ClosedIsAcked(c: Ctrl, p: CtrlPacket)
    ensures IsAcked(c.link, ClosedPacket(c, p).link, p, p.syn && !c.link.synReced, false)
  {
    FinIsAcked(c.link, p);
  }

  lemma ConnectingIsAcked(c: Ctrl, p: CtrlPacket)
    ensures IsAcked(c.link, ConnectingPacket(c, p).link, p, p.syn && !c.link.synReced, p.syn && c.link.synReced)
  {
    SynIsAcked(if p.ack.Some? then TakeAck(c.link, p).(synAckReced := true) else c.link, p);
    assert ConnectingPacket(c, p).link == ConnectingLink(c.link, p);
  }

  lemma EstablishedIsAcked(c: Ctrl, p: CtrlPacket)
    ensures IsAcked(c.link, EstablishedPacket(c, p).link, p, false, false)
  {
    FinIsAcked(TakeAck(c.link, p), p);
  }

  lemma ClosingIsAcked(c: Ctrl, p: CtrlPacket)
    ensures IsAcked(c.link, ClosingPacket(c, p).link, p, false, false)
  {
    FinIsAcked(if p.ack.Some? then TakeAck(c.link, p).(finAckReced := true) else c.link, p);
    assert ClosingPacket(c, p).link == ClosingLink(c.link, p);
  }

  lemma SynIsAcked(l: Link, p: CtrlPacket)
    ensures IsAcked(l, SynRead(l, p), p, p.syn && !l.synReced, p.syn && l.synReced)
  {
  }

  lemma FinIsAcked(l: Link, p: CtrlPacket)
    ensures IsAcked(l, TakeFin(l, p), p, false, false)
  {
  }

  /** What goes out carries the pending ack, which is then no longer pending: an unsent control
      packet, otherwise the ack alone, and nothing if there is neither. */
  lemma SendCarriesAck(l: Link)
    ensures SendLink(l).ack == None && SendLink(l).sent == (l.sent || l.toSend.Some?)
    ensures l.ack.Some? ==> Outgoing(l).Some?
    ensures Outgoing(l).Some? ==> Outgoing(l).value.ack == l.ack
    ensures !l.sent && l.toSend.Some? ==>
      Outgoing(l) == Some(CtrlPacket(l.toSend.value.syn, l.toSend.value.fin, l.toSend.value.num, l.ack))
      && SendLink(l).toSend == Outgoing(l)
    ensures l.sent || l.toSend.None? ==>
      && SendLink(l).toSend == l.toSend
      && (Outgoing(l).Some? ==> Outgoing(l) == Some(CtrlPacket(false, false, None, l.ack)))
  {
  }

  /** The calls, errors and timeouts in between keep the pending ack. */
  predicate AckIsNext(l: Link) {
    l.ack.Some? ==> l.ack.value == l.theirSeq
  }

  lemma StepKeepsAck(c: Ctrl, x: Step)
    requires AckIsNext(c.link)
    ensures AckIsNext(Do(c, x).link)
    ensures !x.DoSend? && c.link.ack.Some? ==> Do(c, x).link.ack.Some?
    ensures x.DoPacket? && x.p.num.Some? ==> Do(c, x).link.ack.Some?
    ensures !x.DoPacket? ==> Do(c, x).link.theirSeq == c.link.theirSeq
  {
    match x
    case DoPacket(p) =>
      NumberIsAcked(c, p);
      SynReadsAck(c, p);
    case DoHandleCtrl(got) => CallKeepsAck(c, got);
    case _ =>
  }

  lemma SynReadsAck(c: Ctrl, p: CtrlPacket)
    requires AckIsNext(c.link)
    ensures AckIsNext(HandlePacket(c, p).link)
  {
    NumberIsAcked(c, p);
  }

  lemma CallKeepsAck(c: Ctrl, got: bool)
    ensures HandleCtrl(c, got).link.ack == c.link.ack && HandleCtrl(c, got).link.theirSeq == c.link.theirSeq
  {
  }

  lemma {:induction false} RunKeepsAck(iss: U16, xs: seq<Step>)
    ensures AckIsNext(After(Initial(iss), xs).link)
  {
    if xs != [] {
      RunKeepsAck(iss, xs[..|xs| - 1]);
      StepKeepsAck(After(Initial(iss), xs[..|xs| - 1]), xs[|xs| - 1]);
    }
  }

  /** Nothing is sent in steps i .. j - 1. */
  predicate NoSend(xs: seq<Step>, i: nat, j: nat)
    requires j <= |xs|
  {
    forall k :: i <= k < j ==> !xs[k].DoSend?
  }

  lemma {:induction false} AckWaits(iss: U16, xs: seq<Step>, i: nat, j: nat)
    requires i < j <= |xs| && xs[i].DoPacket? && xs[i].p.num.Some? && NoSend(xs, i, j)
    ensures After(Initial(iss), xs[..j]).link.ack.Some?
    decreases j
  {
    assert xs[..j][..|xs[..j]| - 1] == xs[..j - 1];
    RunKeepsAck(iss, xs[..j - 1]);
    if i < j - 1 {
      AckWaits(iss, xs, i, j - 1);
    }
    StepKeepsAck(After(Initial(iss), xs[..j - 1]), xs[j - 1]);
  }

  /** In every run the first packet sent after a numbered packet has been handled carries an ack,
      and that is the next number expected at that moment. */
  lemma AckGoesOut(iss: U16, xs: seq<Step>, i: nat, j: nat)
    requires i < j < |xs| && xs[i].DoPacket? && xs[i].p.num.Some? && xs[j].DoSend? && NoSend(xs, i, j)
    ensures var l := After(Initial(iss), xs[..j]).link;
      Outgoing(l).Some? && Outgoing(l).value.ack == Some(l.theirSeq)
  {
    AckWaits(iss, xs, i, j);
    RunKeepsAck(iss, xs[..j]);
    SendCarriesAck(After(Initial(iss), xs[..j]).link);
  }

  // ---------- changes of state ----------

  /** The unsent packet of a link: our next number, with all its resendings ahead. */
  predicate Starts(before: Link, after: Link, syn: bool) {
    && after.toSend == Some(CtrlPacket(syn, !syn, Some(before.ourSeq), None)) && !after.sent
    && after.rto == 3000 && after.ourSeq == (before.ourSeq + 1) % MODULUS
  }

  /** CLOSED is left exactly on a first SYN with a number, which is answered with our SYN. */
  lemma ClosedMovesExactly(c: Ctrl, p: CtrlPacket)
    requires c.state == Closed
    ensures var t, opens := HandlePacket(c, p), p.syn && !c.link.synReced && p.num.Some?;
      && t.state == (if opens then Connecting else Closed) && t.link.synReced == (c.link.synReced || opens)
      && (opens ==> Starts(c.link, t.link, true))
  {
  }

  /** CONNECTING is left when SYN and ack have both come, except on a SYN that comes again or has
      no number. */
  lemma ConnectingMovesExactly(c: Ctrl, p: CtrlPacket)
    requires c.state == Connecting
    ensures var t, l, counted := HandlePacket(c, p), c.link, p.syn && !c.link.synReced && p.num.Some?;
      && t.link.synReced == (l.synReced || counted) && t.link.synAckReced == (l.synAckReced || p.ack.Some?)
      && t.state == if t.link.synReced && t.link.synAckReced && (p.syn ==> counted) then Established else Connecting
  {
  }

  /** ESTABLISHED is left exactly on the peer's FIN in its turn, which is acked and answered with
      our FIN. */
  lemma EstablishedMovesExactly(c: Ctrl, p: CtrlPacket)
    requires c.state == Established
    ensures var t, l, fin := HandlePacket(c, p), c.link, p.fin && p.num == Some(c.link.theirSeq);
      && t.state == (if fin then Closing else Established) && t.link.finReced == (l.finReced || fin)
      && (fin ==> Starts(l, t.link, false) && t.link.ack == Some((l.theirSeq + 1) % MODULUS))
  {
    FinIsAcked(TakeAck(c.link, p), p);
    ReadingSendsNothing(TakeAck(c.link, p), p);
  }

  /** CLOSING is left exactly when the peer's FIN and any ack have both come. */
  lemma ClosingMovesExactly(c: Ctrl, p: CtrlPacket)
    requires c.state == Closing
    ensures var t, l, fin := HandlePacket(c, p), c.link, p.fin && p.num == Some(c.link.theirSeq);
      && t.link.finReced == (l.finReced || fin) && t.link.finAckReced == (l.finAckReced || p.ack.Some?)
      && t.state == if t.link.finReced && t.link.finAckReced then Closed else Closing
  {
  }

  /** Our FIN, with the ack of the peer's on it, is what an ESTABLISHED endpoint sends next. */
  lemma FinIsAnswered(c: Ctrl, p: CtrlPacket)
    requires c.state == Established && p.fin && p.num == Some(c.link.theirSeq)
    ensures Outgoing(HandlePacket(c, p).link)
      == Some(CtrlPacket(false, true, Some(c.link.ourSeq), Some((c.link.theirSeq + 1) % MODULUS)))
  {
    EstablishedMovesExactly(c, p);
  }

  /** Except where it starts a packet of ours, a packet stops our resending if and only if it acks
      our last number, and only outside CLOSED; it never starts it again. */
  lemma AckStopsResending(c: Ctrl, p: CtrlPacket)
    requires !(c.state == Closed && IsFirstSyn(c, p)) && !(c.state == Established && IsNextFin(c.link, p))
    ensures var t, stops := HandlePacket(c, p).link, c.state != Closed && p.ack == Some(c.link.ourSeq);
      && t.ourSeq == c.link.ourSeq
      && (stops ==> t.toSend == None && t.sent && t.rto == 3000)
      && (!stops ==> (t.toSend, t.sent, t.rto) == (c.link.toSend, c.link.sent, c.link.rto))
  {
    match c.state
    case Closed =>
    case Connecting => ReadingSendsNothing(if p.ack.Some? then TakeAck(c.link, p).(synAckReced := true) else c.link, p);
    case Established => ReadingSendsNothing(TakeAck(c.link, p), p);
    case Closing => ReadingSendsNothing(if p.ack.Some? then TakeAck(c.link, p).(finAckReced := true) else c.link, p);
  }

  /** Number, SYN and FIN of a packet touch nothing of ours. */
  lemma ReadingSendsNothing(l: Link, p: CtrlPacket)
    ensures var t := TakeFin(l, p); (t.toSend, t.sent, t.rto, t.ourSeq) == (l.toSend, l.sent, l.rto, l.ourSeq)
    ensures var t := SynRead(l, p); (t.toSend, t.sent, t.rto, t.ourSeq) == (l.toSend, l.sent, l.rto, l.ourSeq)
  {
  }

  /** A connect call in CLOSED sends a SYN, a close call in ESTABLISHED a FIN, each with our next
      number and the ack that is pending; no other call sends anything. */
  lemma CallStartsPacket(c: Ctrl)
    requires !c.error && !c.calls.locked && c.calls.para.Some?
    ensures var t, call := HandleCtrl(c, true), c.calls.para.value;
      if c.state == Closed && call == Connect then
        t.state == Connecting && Starts(c.link, t.link, true)
        && Outgoing(t.link) == Some(CtrlPacket(true, false, Some(c.link.ourSeq), c.link.ack))
      else if c.state == Established && call == Close then
        t.state == Closing && Starts(c.link, t.link, false)
        && Outgoing(t.link) == Some(CtrlPacket(false, true, Some(c.link.ourSeq), c.link.ack))
      else t.state == c.state && t.link == c.link
  {
  }

  // ---------- resending ----------

  /** An expired packet is sent again as it was, with the ack that is pending by then, and has twice
      the time; from fifteen seconds on the connection ends. */
  lemma ExpiredIsSentAgain(c: Ctrl)
    requires c.link.toSend.Some? && c.link.sent
    ensures var t, p := Timeout(c, true), c.link.toSend.value;
      if c.link.rto < 15000 then
        && t == c.(link := t.link) && t.link.rto == 2 * c.link.rto
        && Outgoing(t.link) == Some(CtrlPacket(p.syn, p.fin, p.num, c.link.ack))
        && SendLink(t.link).toSend == Outgoing(t.link) && SendLink(t.link).sent
      else t.state == Closed && t.error && t.link.toSend == None
    ensures Timeout(c, false) == c
  {
  }

  lemma NothingToResend(c: Ctrl, expired: bool)
    requires c.link.toSend.None? || !c.link.sent
    ensures Timeout(c, expired) == c
  {
  }

  datatype Turn = Sends | Expires(expired: bool)

  function Take(c: Ctrl, x: Turn): Ctrl {
    match x
    case Sends => c.(link := SendLink(c.link))
    case Expires(expired) => Timeout(c, expired)
  }

  function Taken(c: Ctrl, xs: seq<Turn>): Ctrl {
    if xs == [] then c else Take(Taken(c, xs[..|xs| - 1]), xs[|xs| - 1])
  }

  /** The SYN or FIN goes out. */
  predicate Emits(c: Ctrl, x: Turn) {
    x.Sends? && Outgoing(c.link).Some? && Outgoing(c.link).value.num.Some?
  }

  function SendCount(c: Ctrl, xs: seq<Turn>): nat {
    if xs == [] then 0
    else SendCount(c, xs[..|xs| - 1]) + if Emits(Taken(c, xs[..|xs| - 1]), xs[|xs| - 1]) then 1 else 0
  }

  /** How often the packet may still go out. */
  function SendsLeft(l: Link): nat {
    if l.toSend.None? then 0 else RetriesLeft(l.rto) + if l.sent then 0 else 1
  }

  lemma TurnUsesSend(c: Ctrl, x: Turn)
    requires c.link.rto >= 3000
    ensures Take(c, x).link.rto >= 3000
    ensures SendsLeft(Take(c, x).link) + (if Emits(c, x) then 1 else 0) <= SendsLeft(c.link)
  {
    match x
    case Sends => SendingUses(c.link);
    case Expires(expired) =>
      if c.link.toSend.Some? && c.link.sent && expired {
        ExpiredIsSentAgain(c);
      } else {
        assert Timeout(c, expired) == c;
      }
  }

  lemma SendingUses(l: Link)
    ensures SendLink(l).rto == l.rto
    ensures SendsLeft(SendLink(l)) + (if Outgoing(l).Some? && Outgoing(l).value.num.Some? then 1 else 0) <= SendsLeft(l)
  {
    SendCarriesAck(l);
  }

  lemma {:induction false} SendsAreCounted(c: Ctrl, xs: seq<Turn>)
    requires c.link.rto >= 3000
    ensures Taken(c, xs).link.rto >= 3000 && SendCount(c, xs) + SendsLeft(Taken(c, xs).link) <= SendsLeft(c.link)
  {
    if xs != [] {
      SendsAreCounted(c, xs[..|xs| - 1]);
      TurnUsesSend(Taken(c, xs[..|xs| - 1]), xs[|xs| - 1]);
    }
  }

  /** A SYN or FIN that has just been started goes out at most four times while nothing comes from
      the peer: over any sending and any timeouts. */
  lemma AtMostFourSends(c: Ctrl, before: Link, syn: bool, xs: seq<Turn>)
    requires Starts(before, c.link, syn)
    ensures SendCount(c, xs) <= 4
  {
    SendsAreCounted(c, xs);
  }

  /** All four happen when each timeout expires and is followed by a sending; the next timeout ends
      the connection. */
  lemma FourSendsHappen(c: Ctrl, before: Link, syn: bool)
    requires Starts(before, c.link, syn)
    ensures var xs := [Sends, Expires(true), Sends, Expires(true), Sends, Expires(true), Sends];
      SendCount(c, xs) == 4 && !(Take(Taken(c, xs), Expires(true)).link.toSend.Some?)
  {
    var s1 := [Sends];
    var s2 := s1 + [Expires(true)];
    var s3 := s2 + [Sends];
    var s4 := s3 + [Expires(true)];
    var s5 := s4 + [Sends];
    var s6 := s5 + [Expires(true)];
    var s7 := s6 + [Sends];
    assert s7 == [Sends, Expires(true), Sends, Expires(true), Sends, Expires(true), Sends];
    assert s1[..0] == [] && s2[..1] == s1 && s3[..2] == s2 && s4[..3] == s3;
    assert s5[..4] == s4 && s6[..5] == s5 && s7[..6] == s6;
    assert SendCount(c, s1) == 1 && Taken(c, s1).link.rto == 3000 && Taken(c, s1).link.toSend.Some?;
    assert SendCount(c, s3) == 2 && Taken(c, s3).link.rto == 6000;
    assert SendCount(c, s5) == 3 && Taken(c, s5).link.rto == 12000;
  }
}
