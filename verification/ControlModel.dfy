/**
  The control half of a socket: connection states, stop-and-wait control packets and the
  connect and close calls (ump_sock.c:126-290, 611-650, 893-903, 1023-1559).
 */
module ControlModel {
  import opened Circular
  import opened Message
  import Rto

  const CTRL_TIMEOUT := 3000

  datatype State = Closed | Connecting | Established | Closing

  datatype Call = Connect | Close

  datatype CtrlPacket = CtrlPacket(syn: bool, fin: bool, num: Option<U16>, ack: Option<U16>)

  /** How a completed call ended, and the state of the connection at that moment. */
  datatype Outcome = Outcome(call: Call, ok: bool, state: State)

  /** The control packets and what has been heard from the peer. */
  datatype Link = Link(
    ourSeq: U16,
    theirSeq: U16,
    dataBase: U16,                // their_data_seq_base as the SYN sets it
    toSend: Option<CtrlPacket>,   // the control packet not yet acked
    sent: bool,
    rto: int,
    ack: Option<U16>,             // the control ack to be sent
    synReced: bool,
    synAckReced: bool,
    finReced: bool,
    finAckReced: bool)

  /** The users' calls.  issued and done are history. */
  datatype Calls = Calls(
    para: Option<Call>,           // the call left for the socket thread
    locked: bool,                 // the call is being served
    held: bool,                   // the socket thread holds the calls' mutex
    issued: nat,
    done: seq<Outcome>)

  datatype Ctrl = Ctrl(state: State, link: Link, calls: Calls, error: bool)

  function Initial(iss: U16): Ctrl {
    Ctrl(Closed, Link(iss, 0, 0, None, true, CTRL_TIMEOUT, None, false, false, false, false),
         Calls(None, false, false, 0, []), false)
  }

  // ---------- calls ----------

  /** A user thread leaves its call; possible while the mutex is free. */
  function Issue(u: Calls, call: Call): Calls {
    u.(para := Some(call), issued := u.issued + 1)
  }

  predicate Concerns(kind: Option<Call>, call: Call) {
    kind.None? || kind.value == call
  }

  /** Ends the call being served if it is of that kind; None stands for any kind. */
  function EndCall(u: Calls, state: State, kind: Option<Call>, ok: bool): Calls {
    if u.locked && u.para.Some? && Concerns(kind, u.para.value) then
      Calls(None, false, false, u.issued, u.done + [Outcome(u.para.value, ok, state)])
    else u
  }

  function EndCtrl(c: Ctrl, kind: Option<Call>, ok: bool): (t: Ctrl)
    ensures (t.state, t.link, t.error) == (c.state, c.link, c.error)
  {
    c.(calls := EndCall(c.calls, c.state, kind, ok))
  }

  /** ump_change_state with the enter functions of CLOSED and ESTABLISHED. */
  function ChangeState(c: Ctrl, s: State): (t: Ctrl)
    ensures (t.state, t.link, t.error) == (s, c.link, c.error)
  {
    var t := c.(state := s);
    match s
    case Closed => EndCtrl(t, Some(Close), true)
    case Established => EndCtrl(t, Some(Connect), true)
    case _ => t
  }

  function Send(l: Link, p: CtrlPacket): Link {
    l.(toSend := Some(p), sent := false, rto := CTRL_TIMEOUT, ourSeq := Wire(l.ourSeq + 1))
  }

  function SendSyn(l: Link): Link {
    Send(l, CtrlPacket(true, false, Some(l.ourSeq), None))
  }

  function SendFin(l: Link): Link {
    Send(l, CtrlPacket(false, true, Some(l.ourSeq), None))
  }

  /** The connection machine's answer to a call. */
  function Serve(c: Ctrl, call: Call): Ctrl {
    match (c.state, call)
    case (Closed, Connect) => ChangeState(c.(link := SendSyn(c.link)), Connecting)
    case (Closed, Close) => EndCtrl(c, Some(Close), true)
    case (Connecting, Connect) => c
    case (Connecting, Close) => EndCtrl(c, None, false)
    case (Established, Connect) => EndCtrl(c, Some(Connect), true)
    case (Established, Close) => ChangeState(c.(link := SendFin(c.link)), Closing)
    case (Closing, Connect) => EndCtrl(c, None, false)
    case (Closing, Close) => c
  }

  /** ump_handle_ctrl; `got` says whether the mutex could be taken. */
  function HandleCtrl(c: Ctrl, got: bool): Ctrl {
    if c.calls.locked || !got || c.calls.para.None? then c
    else
      var t := c.(calls := c.calls.(locked := true, held := true));
      if c.error then EndCtrl(t, None, false) else Serve(t, c.calls.para.value)
  }

  /** ump_connection_error_occured */
  function Fail(c: Ctrl): (t: Ctrl)
    ensures (t.state, t.link, t.error) == (Closed, c.link, true)
  {
    EndCtrl(ChangeState(c.(error := true), Closed), None, false)
  }

  // ---------- packets ----------

  /** A numbered packet is acked, and counted if it is the next one. */
  function AckNumbered(l: Link, p: CtrlPacket): Link {
    if p.num.None? then l
    else
      var their := if p.num.value == l.theirSeq then Wire(l.theirSeq + 1) else l.theirSeq;
      l.(theirSeq := their, ack := Some(their))
  }

  /** The peer's SYN: its first data number and the number its next control packet has. */
  function TakeSyn(l: Link, num: U16): Link {
    l.(theirSeq := Wire(num + 1), dataBase := num, ack := Some(Wire(num + 1)), synReced := true)
  }

  /** Our unacked control packet is acked: its resending stops. */
  function TakeAck(l: Link, p: CtrlPacket): Link {
    if p.ack == Some(l.ourSeq) then l.(toSend := None, sent := true, rto := CTRL_TIMEOUT) else l
  }

  predicate IsNextFin(l: Link, p: CtrlPacket) {
    p.fin && p.num == Some(l.theirSeq)
  }

  function TakeFin(l: Link, p: CtrlPacket): Link {
    var acked := AckNumbered(l, p);
    if IsNextFin(l, p) then acked.(finReced := true) else acked
  }

  function ClosedPacket(c: Ctrl, p: CtrlPacket): Ctrl {
    if !c.link.synReced && p.syn then
      if p.num.None? then c else ChangeState(c.(link := SendSyn(TakeSyn(c.link, p.num.value))), Connecting)
    else c.(link := AckNumbered(c.link, p))
  }

  function SynRead(l: Link, p: CtrlPacket): Link {
    if p.syn && l.synReced then l.(ack := Some(l.theirSeq))
    else if p.syn && p.num.None? then l
    else if p.syn then TakeSyn(l, p.num.value)
    else AckNumbered(l, p)
  }

  function ConnectingLink(l: Link, p: CtrlPacket): Link {
    SynRead(if p.ack.Some? then TakeAck(l, p).(synAckReced := true) else l, p)
  }

  /** Another SYN, or one without a number, is answered without looking at the state. */
  predicate StaysConnecting(l: Link, p: CtrlPacket) {
    p.syn && (l.synReced || p.num.None?)
  }

  function ConnectingPacket(c: Ctrl, p: CtrlPacket): Ctrl {
    var t := c.(link := ConnectingLink(c.link, p));
    if !StaysConnecting(c.link, p) && t.link.synReced && t.link.synAckReced then ChangeState(t, Established) else t
  }

  function EstablishedPacket(c: Ctrl, p: CtrlPacket): Ctrl {
    var acked := if p.ack == Some(c.link.ourSeq) then EndCtrl(c.(link := TakeAck(c.link, p)), None, true) else c;
    var t := acked.(link := TakeFin(acked.link, p));
    if IsNextFin(c.link, p) then ChangeState(t.(link := SendFin(t.link)), Closing) else t
  }

  function ClosingLink(l: Link, p: CtrlPacket): Link {
    TakeFin(if p.ack.Some? then TakeAck(l, p).(finAckReced := true) else l, p)
  }

  function ClosingPacket(c: Ctrl, p: CtrlPacket): Ctrl {
    var t := c.(link := ClosingLink(c.link, p));
    if t.link.finReced && t.link.finAckReced then ChangeState(t, Closed) else t
  }

  /** ump_handle_ctrl_packet for a packet without RST. */
  function HandlePacket(c: Ctrl, p: CtrlPacket): Ctrl {
    match c.state
    case Closed => ClosedPacket(c, p)
    case Connecting => ConnectingPacket(c, p)
    case Established => EstablishedPacket(c, p)
    case Closing => ClosingPacket(c, p)
  }

  // ---------- sending ----------

  /** The packet that ump_handle_send_ctrl_packet sends, if any: the unsent control packet
      with the pending ack on it, or the ack alone. */
  function Outgoing(l: Link): Option<CtrlPacket> {
    if !l.sent && l.toSend.Some? then Some(l.toSend.value.(ack := l.ack))
    else if l.ack.Some? then Some(CtrlPacket(false, false, None, l.ack))
    else None
  }

  function SendLink(l: Link): Link {
    if !l.sent && l.toSend.Some? then l.(toSend := Outgoing(l), sent := true, ack := None)
    else l.(ack := None)
  }

  /** ump_handle_ctrl_timeout; `expired` says that the resend time has come. */
  function Timeout(c: Ctrl, expired: bool): Ctrl {
    var l := c.link;
    if l.toSend.None? || !l.sent || !expired then c
    else if l.rto < Rto.TIMEOUT_LIMIT then c.(link := l.(sent := false, rto := 2 * l.rto))
    else Fail(EndCtrl(c.(link := l.(toSend := None, sent := true, rto := CTRL_TIMEOUT)), None, false))
  }

  // ---------- every run ----------

  datatype Step =
    | DoIssue(call: Call)
    | DoHandleCtrl(got: bool)
    | DoPacket(p: CtrlPacket)
    | DoReset
    | DoSend
    | DoTimeout(expired: bool)

  /** After an error no packet is handled any more; the loop may still resend in the iteration
      in which the error occurred (ump_sock.c:57-83).  A call is made while no other one
      waits; what happens otherwise is the matter of IssueLosesACall. */
  predicate Enabled(c: Ctrl, x: Step) {
    match x
    case DoIssue(_) => !c.calls.held && c.calls.para.None?
    case DoPacket(_) => !c.error
    case DoReset => !c.error
    case _ => true
  }

  function Do(c: Ctrl, x: Step): Ctrl {
    match x
    case DoIssue(call) => c.(calls := Issue(c.calls, call))
    case DoHandleCtrl(got) => HandleCtrl(c, got)
    case DoPacket(p) => HandlePacket(c, p)
    case DoReset => Fail(c)
    case DoSend => c.(link := SendLink(c.link))
    case DoTimeout(expired) => Timeout(c, expired)
  }

  predicate OutcomesFit(done: seq<Outcome>) {
    forall o :: o in done && o.ok ==> o.state == if o.call == Connect then Established else Closed
  }

  /** The call being served is one that has to wait for the peer in this state. */
  predicate WaitsFor(call: Option<Call>, state: State) {
    (call == Some(Connect) && state == Connecting) || (call == Some(Close) && state == Closing)
  }

  /** Every call is counted once, as waiting or as completed. */
  predicate Counted(u: Calls) {
    && u.held == u.locked && (u.locked ==> u.para.Some?)
    && |u.done| + (if u.para.Some? then 1 else 0) == u.issued
    && OutcomesFit(u.done)
  }

  predicate Inv(c: Ctrl) {
    && Counted(c.calls)
    && (c.calls.locked ==> WaitsFor(c.calls.para, c.state))
    && (c.error ==> c.state == Closed)
  }

  lemma EndCallKeeps(u: Calls, state: State, kind: Option<Call>, ok: bool)
    requires Counted(u)
    requires ok && u.locked && Concerns(kind, u.para.value) ==>
      state == if u.para == Some(Connect) then Established else Closed
    ensures var t := EndCall(u, state, kind, ok);
      && Counted(t) && u.done <= t.done
      && (t.locked <==> u.locked && !Concerns(kind, u.para.value)) && (t.locked ==> t == u)
  {
  }

  /** A change of state ends exactly the call that was waiting for it. */
  lemma ChangeKeepsInv(c: Ctrl, s: State)
    requires Counted(c.calls) && (c.error ==> s == Closed)
    requires c.calls.locked ==> c.calls.para == Some(if s == Established || s == Connecting then Connect else Close)
    ensures Inv(ChangeState(c, s)) && c.calls.done <= ChangeState(c, s).calls.done
  {
    match s
    case Closed => EndCallKeeps(c.calls, s, Some(Close), true);
    case Established => EndCallKeeps(c.calls, s, Some(Connect), true);
    case _ =>
  }

  lemma FailKeepsInv(c: Ctrl)
    requires Counted(c.calls)
    ensures Inv(Fail(c)) && c.calls.done <= Fail(c).calls.done && !Fail(c).calls.locked
  {
    EndCallKeeps(c.calls, Closed, Some(Close), true);
    var t := ChangeState(c.(error := true), Closed);
    EndCallKeeps(t.calls, Closed, None, false);
  }

  lemma HandleCtrlKeepsInv(c: Ctrl, got: bool)
    requires Inv(c)
    ensures Inv(HandleCtrl(c, got)) && c.calls.done <= HandleCtrl(c, got).calls.done
  {
    if !c.calls.locked && got && c.calls.para.Some? {
      var u := c.calls.(locked := true, held := true);
      EndCallKeeps(u, c.state, None, false);
      match (c.state, c.calls.para.value)
      case (Closed, Close) => EndCallKeeps(u, Closed, Some(Close), true);
      case (Established, Connect) => EndCallKeeps(u, Established, Some(Connect), true);
      case (_, _) =>
    }
  }

  lemma PacketKeepsInv(c: Ctrl, p: CtrlPacket)
    requires Inv(c) && !c.error
    ensures Inv(HandlePacket(c, p)) && c.calls.done <= HandlePacket(c, p).calls.done
  {
    match c.state
    case Closed =>
    case Connecting => ChangeKeepsInv(c.(link := ConnectingLink(c.link, p)), Established);
    case Established => EndCallKeeps(c.calls, Established, None, true);
    case Closing => ChangeKeepsInv(c.(link := ClosingLink(c.link, p)), Closed);
  }

  lemma TimeoutKeepsInv(c: Ctrl, expired: bool)
    requires Inv(c)
    ensures Inv(Timeout(c, expired)) && c.calls.done <= Timeout(c, expired).calls.done
  {
    EndCallKeeps(c.calls, c.state, None, false);
    var l := c.link.(toSend := None, sent := true, rto := CTRL_TIMEOUT);
    FailKeepsInv(EndCtrl(c.(link := l), None, false));
  }

  lemma StepKeepsInv(c: Ctrl, x: Step)
    requires Inv(c) && Enabled(c, x)
    ensures Inv(Do(c, x)) && c.calls.done <= Do(c, x).calls.done
  {
    match x
    case DoIssue(_) =>
    case DoHandleCtrl(got) => HandleCtrlKeepsInv(c, got);
    case DoPacket(p) => PacketKeepsInv(c, p);
    case DoReset => FailKeepsInv(c);
    case DoSend =>
    case DoTimeout(expired) => TimeoutKeepsInv(c, expired);
  }

  function After(c: Ctrl, xs: seq<Step>): Ctrl {
    if xs == [] then c else Do(After(c, xs[..|xs| - 1]), xs[|xs| - 1])
  }

  predicate Possible(c: Ctrl, xs: seq<Step>) {
    xs != [] ==> Possible(c, xs[..|xs| - 1]) && Enabled(After(c, xs[..|xs| - 1]), xs[|xs| - 1])
  }

  /** In every run: a served call is a CONNECT in CONNECTING or a CLOSE in CLOSING, the mutex
      is held exactly while a call is served, each call is completed once, and a CONNECT
      returns TRUE only in ESTABLISHED, a CLOSE only in CLOSED. */
  lemma {:induction false} RunKeepsInv(iss: U16, xs: seq<Step>)
    requires Possible(Initial(iss), xs)
    ensures Inv(After(Initial(iss), xs))
  {
    if xs != [] {
      RunKeepsInv(iss, xs[..|xs| - 1]);
      StepKeepsInv(After(Initial(iss), xs[..|xs| - 1]), xs[|xs| - 1]);
    }
  }

  /** A call made while another one waits for the socket thread replaces it: one of the two
      is never completed.  Only a free place keeps the count. */
  lemma IssueLosesACall(c: Ctrl, call: Call)
    requires Inv(c) && !c.calls.held
    ensures Inv(c.(calls := Issue(c.calls, call))) <==> c.calls.para.None?
  {
  }

  /** An error ends the call being served at once, a CLOSE even with TRUE; later calls end
      with FALSE as soon as they are seen. */
  lemma ErrorEndsCalls(c: Ctrl)
    requires Inv(c)
    ensures c.calls.locked ==>
      Fail(c).calls.para.None?
      && Fail(c).calls.done == c.calls.done + [Outcome(c.calls.para.value, c.calls.para == Some(Close), Closed)]
    ensures c.error && c.calls.para.Some? ==>
      HandleCtrl(c, true).calls
        == Calls(None, false, false, c.calls.issued, c.calls.done + [Outcome(c.calls.para.value, false, Closed)])
  {
  }

  // ---------- what the end of a call means ----------

  /** A packet ends a call only with TRUE: a connect when both SYN and ack have come, a close
      when both FIN and ack have. */
  predicate Promised(call: Call, state: State, l: Link) {
    match call
    case Connect => state == Established && l.synReced && l.synAckReced
    case Close => state == Closed && l.finReced && l.finAckReced
  }

  lemma PacketEndsCall(c: Ctrl, p: CtrlPacket)
    requires Inv(c) && !c.error && c.calls.locked && !HandlePacket(c, p).calls.locked
    ensures var t, call := HandlePacket(c, p), c.calls.para.value;
      Promised(call, t.state, t.link) && t.calls.done == c.calls.done + [Outcome(call, true, t.state)]
  {
  }

  // ---------- giving up ----------

  /** How often a control packet can still time out before the connection is given up. */
  function RetriesLeft(rto: int): nat {
    if rto >= Rto.TIMEOUT_LIMIT then 0 else if 2 * rto >= Rto.TIMEOUT_LIMIT then 1
    else if 4 * rto >= Rto.TIMEOUT_LIMIT then 2 else 3
  }

  /** In every run a control packet is sent at most four times: the timeout starts at three
      seconds, each resending doubles it, and at fifteen the connection is given up. */
  lemma {:induction false} ResendingIsBounded(iss: U16, xs: seq<Step>, expired: bool)
    requires Possible(Initial(iss), xs)
    ensures var c := After(Initial(iss), xs);
      && c.link.rto >= CTRL_TIMEOUT
      && (Timeout(c, expired) != c ==>
           if RetriesLeft(c.link.rto) == 0 then Timeout(c, expired).error
           else RetriesLeft(Timeout(c, expired).link.rto) == RetriesLeft(c.link.rto) - 1)
  {
    if xs != [] {
      ResendingIsBounded(iss, xs[..|xs| - 1], expired);
      StepKeepsRto(After(Initial(iss), xs[..|xs| - 1]), xs[|xs| - 1]);
    }
  }

  lemma StepKeepsRto(c: Ctrl, x: Step)
    requires c.link.rto >= CTRL_TIMEOUT
    ensures Do(c, x).link.rto >= CTRL_TIMEOUT
  {
    if x.DoPacket? {
      PacketKeepsRto(c, x.p);
    }
  }

  lemma PacketKeepsRto(c: Ctrl, p: CtrlPacket)
    requires c.link.rto >= CTRL_TIMEOUT
    ensures HandlePacket(c, p).link.rto >= CTRL_TIMEOUT
  {
    match c.state
    case Closed => ClosedKeepsRto(c, p);
    case Connecting => ConnectingKeepsRto(c.link, p);
    case Established => EstablishedKeepsRto(c, p);
    case Closing => ClosingKeepsRto(c.link, p);
  }

  lemma ReadingKeepsRto(l: Link, p: CtrlPacket)
    ensures AckNumbered(l, p).rto == l.rto && TakeFin(l, p).rto == l.rto
    ensures TakeAck(l, p).rto == l.rto || TakeAck(l, p).rto == CTRL_TIMEOUT
  {
  }

  lemma ClosedKeepsRto(c: Ctrl, p: CtrlPacket)
    requires c.link.rto >= CTRL_TIMEOUT
    ensures ClosedPacket(c, p).link.rto >= CTRL_TIMEOUT
  {
    ReadingKeepsRto(c.link, p);
  }

  lemma ConnectingKeepsRto(l: Link, p: CtrlPacket)
    requires l.rto >= CTRL_TIMEOUT
    ensures ConnectingLink(l, p).rto >= CTRL_TIMEOUT
  {
    ReadingKeepsRto(l, p);
    SynReadKeepsRto(if p.ack.Some? then TakeAck(l, p).(synAckReced := true) else l, p);
  }

  lemma SynReadKeepsRto(l: Link, p: CtrlPacket)
    ensures SynRead(l, p).rto == l.rto
  {
  }

  lemma EstablishedKeepsRto(c: Ctrl, p: CtrlPacket)
    requires c.link.rto >= CTRL_TIMEOUT
    ensures EstablishedPacket(c, p).link.rto >= CTRL_TIMEOUT
  {
    var acked := if p.ack == Some(c.link.ourSeq) then EndCtrl(c.(link := TakeAck(c.link, p)), None, true) else c;
    assert acked.link.rto >= CTRL_TIMEOUT;
    ReadingKeepsRto(acked.link, p);
    SendingKeepsRto(acked.(link := TakeFin(acked.link, p)));
  }

  lemma SendingKeepsRto(c: Ctrl)
    requires c.link.rto >= CTRL_TIMEOUT
    ensures ChangeState(c.(link := SendFin(c.link)), Closing).link.rto >= CTRL_TIMEOUT
  {
  }

  lemma ClosingKeepsRto(l: Link, p: CtrlPacket)
    requires l.rto >= CTRL_TIMEOUT
    ensures ClosingLink(l, p).rto >= CTRL_TIMEOUT
  {
    ReadingKeepsRto(l, p);
    ReadingKeepsRto(TakeAck(l, p).(finAckReced := true), p);
  }
}
