/**
  The sending half of a socket over unbounded packet numbers: numbering, sliding
  window, cumulative acks, go-back-N, congestion window and message completion
  (ump_sock.c:320-475, 672-822, 905-929).

  A packet's number counts all packets of the connection, starting at the initial
  sequence number; on the wire it travels modulo 65536.  Module Sender holds the
  16-bit fields and shows that every handler there computes the function given here.
 */
module SenderModel {
  import opened Circular
  import opened Message
  import Rto

  const RTT_MIN_MS := 50
  const INITIAL_SSTHRESH := 512 // MAX_CWND

  /** Only this many packets of a message have a position that 16 bits hold. */
  const LARGEST_MESSAGE := HALF

  /** Aborted: the connection is being closed and the call has failed, old packets may still
      be acked.  Failed: an error ended the connection, no packet is handled any more. */
  datatype Mode = Idle | Active | Aborted | Failed

  datatype Stamp = Stamp(fire: int, reg: int)

  datatype Snd = Snd(
    iss: int,             // number of the first packet of the connection
    mode: Mode,
    msg: seq<seq<Byte>>,  // payloads of the message being sent
    start: int,           // number of its first packet
    last: int,            // number of the last packet of the latest message
    base: int,            // all packets below base are acked
    dataPos: int,         // next packet to send, relative to start
    wndPos: int,          // first packet outside the window, relative to start
    edge: int,            // the same limit in packet numbers, without the message's end
    sent: int,            // our_data_sent: the highest number believed sent
    next: int,            // the first number never sent
    theirWnd: U16,
    cwnd: U16,
    ssthresh: U16,
    rep: int,
    fast: bool,
    back: U16,
    refreshed: int,
    stamps: seq<Stamp>,   // timers of the packets base, base + 1, ...
    est: Rto.Estimate)

  /** The socket starts with our_data_sent == 0, whatever the initial sequence number. */
  function InitiallySent(iss: int): int {
    Reading(iss, 0)
  }

  function Initial(iss: int, theirWnd: U16): Snd {
    Snd(iss, Idle, [], iss, iss - 1, iss, 0, 0, iss, InitiallySent(iss), iss,
        theirWnd, 1, INITIAL_SSTHRESH, 0, false, 0, 0, [], Rto.Initial())
  }

  // ---------- window ----------

  function Window(s: Snd): int {
    Min(s.theirWnd, s.cwnd)
  }

  /** Relative window limit: past the 16-bit half circle it comes out a whole lap low. */
  function WndPos(count: int, acked: int, window: int): int {
    Min(count, if acked + window <= HALF then acked + window else acked + window - MODULUS)
  }

  /** The position of the base in the message, as 16 bits give it. */
  function BasePos(s: Snd): int {
    if s.base - s.start <= HALF then s.base - s.start else s.base - s.start - MODULUS
  }

  function RefreshWindow(s: Snd): Snd {
    s.(wndPos := WndPos(|s.msg|, s.base - s.start, Window(s)), edge := s.base + Window(s))
  }

  function RaiseBackPoint(s: Snd, x: U16): Snd {
    if CmpInBase(Wire(s.base), s.back, x) < 0 then s.(back := x) else s
  }

  /** Go back to the first packet not acked. */
  function Rewind(s: Snd): Snd {
    RaiseBackPoint(s, Wire(s.start + s.dataPos)).(dataPos := BasePos(s), rep := 0, stamps := [],
      est := Rto.Backoff(s.est))
  }

  // ---------- send calls ----------

  function Begin(s: Snd, pieces: seq<seq<Byte>>): Snd {
    RefreshWindow(s.(mode := Active, msg := pieces, last := s.start + |pieces| - 1, dataPos := 0))
  }

  function Complete(s: Snd): Snd {
    if s.mode == Active then s.(mode := Idle, start := s.start + |s.msg|, msg := []) else s
  }

  /** The send call ends with FALSE because the connection is closed. */
  function Abort(s: Snd): Snd {
    if s.mode == Active then s.(mode := Aborted, msg := []) else s
  }

  function Fail(s: Snd): Snd {
    s.(mode := Failed, msg := [])
  }

  // ---------- sending a packet ----------

  predicate CanTransmit(s: Snd) {
    s.mode == Active && s.dataPos < s.wndPos
  }

  function TransmittedNumber(s: Snd): int {
    s.start + s.dataPos
  }

  function TransmittedChunk(s: Snd): Chunk
    requires 0 <= s.dataPos < |s.msg|
  {
    Chunk(s.dataPos == |s.msg| - 1, s.msg[s.dataPos])
  }

  function Transmit(s: Snd, now: int): Snd {
    var n := TransmittedNumber(s);
    var patience := Rto.Millis(s.est) * Max(1, s.start + s.wndPos - s.base + 1);
    s.(stamps := s.stamps + [Stamp(now + patience, now)],
       sent := Max(s.sent, n), next := Max(s.next, n + 1), dataPos := s.dataPos + 1)
  }

  // ---------- timeouts ----------

  predicate Fires(s: Snd, now: int) {
    s.stamps != [] && s.stamps[0].fire <= now
  }

  predicate GivesUp(s: Snd) {
    Rto.Millis(s.est) >= Rto.TIMEOUT_LIMIT
  }

  function Timeout(s: Snd, now: int): Snd {
    if !Fires(s, now) then s
    else if GivesUp(s) then Fail(s.(stamps := []))
    else
      RefreshWindow(Rewind(s.(ssthresh := Max(s.cwnd / 2, 2), cwnd := 1)).(fast := false))
  }

  // ---------- acks ----------

  predicate Accepts(s: Snd, a: int) {
    s.base <= a <= s.sent + 1
  }

  function FastRetransmit(s: Snd): Snd {
    Rewind(s).(cwnd := Wire(Max(s.ssthresh + 3, 1)), fast := true)
  }

  /** Counting repeated acks and the fast retransmission they lead to. */
  function NoteRepeated(s: Snd, a: int): Snd {
    var counted := if a == s.base && s.base > s.sent then s.(rep := s.rep + 1) else s;
    if counted.rep > 1 then FastRetransmit(counted) else counted
  }

  /** The packets below a are acked; their timers are settled later. */
  function Advance(s: Snd, a: int): Snd {
    if a > s.base then
      RaiseBackPoint(s.(base := a, rep := 0), Wire(a))
    else s
  }

  function Notify(s: Snd, wnd: Option<U16>): Snd {
    if wnd.Some? then RefreshWindow(s.(theirWnd := wnd.value)) else s
  }

  predicate Grows(s: Snd, now: int) {
    !s.fast && (s.cwnd < s.ssthresh || now - s.refreshed >= s.est.a.Floor)
  }

  /** Slow start, congestion avoidance and the end of fast recovery; 16 bits wide. */
  function Congest(s: Snd, now: int): Snd {
    if s.fast then s.(fast := false, cwnd := Max(s.ssthresh, 1))
    else if Grows(s, now) then s.(cwnd := Wire(s.cwnd + 1), refreshed := now)
    else s
  }

  function AckStamps(stamps: seq<Stamp>, k: nat): seq<Stamp> {
    if k <= |stamps| then stamps[k..] else []
  }

  function RoundTrip(stamps: seq<Stamp>, k: nat, now: int): int {
    if 1 <= k <= |stamps| then now - stamps[k - 1].reg else -1
  }

  /** Removes the timers of the k newly acked packets and takes the sample they give. */
  function Settle(s: Snd, a: int, k: nat, now: int): Snd {
    var rtt := RoundTrip(s.stamps, k, now);
    s.(dataPos := Max(s.dataPos, BasePos(s)),
       stamps := AckStamps(s.stamps, k),
       est := if rtt >= 0 && Wire(a) >= s.back then
         Rto.Sample(s.est, (if rtt == 0 then RTT_MIN_MS else rtt) as real) else s.est)
  }

  /** The new base is past the message's last packet, as 16 bits compare the two. */
  predicate EndsCall(last: int, a: int) {
    Reading(a, Wire(last)) < a
  }

  function OnNewAck(s: Snd, a: int, wnd: Option<U16>, now: int): Snd {
    var settled := Settle(Congest(Notify(Advance(s, a), wnd), now), a, Max(a - s.base, 0), now);
    if EndsCall(s.last, a) then Complete(settled) else settled
  }

  /** ump_handle_data_ack for a packet with the given ack and window fields. */
  function OnAck(s: Snd, ack: Option<int>, wnd: Option<U16>, now: int): Snd {
    if ack.None? then Notify(s, wnd)
    else
      var a := ack.value;
      var noted := NoteRepeated(s, a);
      if !Accepts(noted, a) then noted
      else if a == s.base then Notify(noted, wnd)
      else OnNewAck(noted, a, wnd, now)
  }

  // ---------- what every step keeps ----------

  ghost predicate Inv(s: Snd) {
    && Ordered(s)
    && SentInv(s)
    && (s.mode == Idle ==> s.msg == [] && s.start == s.base == s.next && s.stamps == [] && s.last == s.start - 1)
    && (s.mode == Active ==> ActiveInv(s))
    && (s.mode == Failed ==> s.msg == [])
    && (s.mode == Aborted ==> s.msg == [] && InFlight(s))
  }

  ghost predicate Ordered(s: Snd) {
    && s.iss <= s.start <= s.base <= s.next <= s.start + LARGEST_MESSAGE
    && s.next <= s.last + 1
    && 0 <= s.dataPos <= LARGEST_MESSAGE
    && 0 <= s.rep <= 1
    && s.est.rto >= Rto.RTO_MIN
  }

  /** our_data_sent is the highest packet sent, once that is above its initial value. */
  ghost predicate SentInv(s: Snd) {
    s.sent == if s.next == s.iss then InitiallySent(s.iss) else Max(InitiallySent(s.iss), s.next - 1)
  }

  ghost predicate InFlight(s: Snd) {
    && s.base <= s.start + s.dataPos <= s.next
    && |s.stamps| == s.start + s.dataPos - s.base
  }

  ghost predicate ActiveInv(s: Snd) {
    && s.msg != []
    && s.last == s.start + |s.msg| - 1
    && s.base <= s.last && s.next <= s.last + 1
    && InFlight(s)
    && s.wndPos <= |s.msg| && s.wndPos <= LARGEST_MESSAGE
    && s.start + s.wndPos <= s.edge
  }

  /** A new ack ends the call although the message's last packet is not acked. */
  predicate EndsTooEarly(s: Snd, a: int) {
    s.mode == Active && Accepts(s, a) && s.base < a <= s.last && EndsCall(s.last, a)
  }

  /** An ack that passes the socket's range check does not cover a packet never sent. */
  predicate Honest(s: Snd, a: int) {
    Accepts(s, a) ==> a <= s.next
  }

  lemma InitialInv(iss: int, theirWnd: U16)
    ensures Inv(Initial(iss, theirWnd))
  {
  }

  /** The numbers a handler compares lie inside the half window of the base. */
  lemma NumbersAreNear(s: Snd)
    requires Inv(s)
    ensures Near(s.base, s.sent)
    ensures Near(s.start, s.base)
    ensures Near(s.base, s.start + s.dataPos) || s.mode == Idle || s.mode == Failed
  {
    assert Near(s.iss, InitiallySent(s.iss));
  }

  /** While a message is being sent: the base, the send position, what has been sent and the
      message's end are in this order, also as the 16-bit code computes them; and
      our_data_sent is the last packet sent unless its initial zero reads as one ahead. */
  lemma PositionsInOrder(s: Snd)
    requires Inv(s) && s.mode == Active
    ensures 0 <= SeqToRelative(Wire(s.start), Wire(s.base)) <= s.dataPos <= s.next - s.start <= |s.msg|
    ensures s.next > s.iss ==> (s.sent == s.next - 1 <==> InitiallySent(s.iss) < s.next)
  {
    RelativeRefinesIntegers(s.start, s.base);
  }

  /** A message of any length is started; module MessageSize says what becomes of it. */
  lemma BeginKeepsInv(s: Snd, pieces: seq<seq<Byte>>)
    requires Inv(s) && s.mode == Idle && pieces != []
    ensures Inv(Begin(s, pieces))
  {
  }

  lemma AbortKeepsInv(s: Snd)
    requires Inv(s)
    ensures Inv(Abort(s))
    ensures Abort(s).mode != Active
  {
  }

  /** Only packets of the current message inside the window are sent, and each one is the
      packet its number stands for. */
  lemma TransmitKeepsInv(s: Snd, now: int)
    requires Inv(s) && CanTransmit(s)
    ensures 0 <= s.dataPos < |s.msg|
    ensures s.base <= TransmittedNumber(s) <= s.next
    ensures TransmittedNumber(s) < s.edge && TransmittedNumber(s) <= s.last
    ensures Inv(Transmit(s, now))
  {
  }

  /** A timeout keeps the invariant; either the sender gives up or the next packet it can send
      is the first one not acked. */
  lemma TimeoutKeepsInv(s: Snd, now: int)
    requires Inv(s) && s.mode != Failed
    ensures Inv(Timeout(s, now))
    ensures Timeout(s, now).base == s.base && Timeout(s, now).next == s.next
    ensures Timeout(s, now) == s || Timeout(s, now).mode == Failed || TransmittedNumber(Timeout(s, now)) == s.base
  {
    if Fires(s, now) && !GivesUp(s) {
      var slow := s.(ssthresh := Max(s.cwnd / 2, 2), cwnd := 1);
      RewindKeepsInv(slow);
      RefreshKeepsInv(Rewind(slow).(fast := false));
    }
  }

  /** Going back to the base; repeated acks may have been counted. */
  lemma RewindKeepsInv(s: Snd)
    requires Inv(s.(rep := 0)) && s.mode != Failed
    ensures Inv(Rewind(s)) && Rewind(s).start + Rewind(s).dataPos == s.base
    ensures var t := Rewind(s);
      t == s.(back := t.back, dataPos := t.dataPos, rep := 0, stamps := [], est := t.est)
  {
  }

  lemma RefreshKeepsInv(s: Snd)
    requires Inv(s)
    ensures Inv(RefreshWindow(s))
    ensures RefreshWindow(s) == s.(wndPos := RefreshWindow(s).wndPos, edge := RefreshWindow(s).edge)
  {
  }

  /** A timeout or an ack changes neither the packets nor which of them have been sent. */
  predicate SameMessage(s: Snd, t: Snd) {
    && (t.iss, t.last, t.next) == (s.iss, s.last, s.next)
    && s.start <= t.start
    && (t.mode == Active ==> s.mode == Active && (t.msg, t.start) == (s.msg, s.start))
  }

  lemma TimeoutSameMessage(s: Snd, now: int)
    ensures SameMessage(s, Timeout(s, now))
  {
  }

  lemma AckSameMessage(s: Snd, ack: Option<int>, wnd: Option<U16>, now: int)
    ensures SameMessage(s, OnAck(s, ack, wnd, now))
  {
    if ack.Some? {
      var noted := NoteRepeated(s, ack.value);
      assert SameMessage(s, noted) && noted.start == s.start && noted.mode == s.mode;
      if ack.value > s.base {
        NewAckStages(noted, ack.value, wnd, now);
      }
    }
  }

  lemma NoteRepeatedKeeps(s: Snd, a: int)
    requires Inv(s) && s.mode != Failed
    ensures Inv(NoteRepeated(s, a))
    ensures NoteRepeated(s, a).base == s.base && NoteRepeated(s, a).next == s.next
    ensures NoteRepeated(s, a).sent == s.sent && NoteRepeated(s, a).mode == s.mode
    ensures NoteRepeated(s, a).start == s.start && NoteRepeated(s, a).last == s.last
    ensures NoteRepeated(s, a).msg == s.msg && NoteRepeated(s, a).iss == s.iss
    ensures NoteRepeated(s, a) == s.(rep := NoteRepeated(s, a).rep) || TransmittedNumber(NoteRepeated(s, a)) == s.base
  {
    var counted := if a == s.base && s.base > s.sent then s.(rep := s.rep + 1) else s;
    if counted.rep > 1 {
      RewindKeepsInv(counted);
    }
  }

  /** What the early stages of a new ack leave to the later ones. */
  lemma NewAckStages(s: Snd, a: int, wnd: Option<U16>, now: int)
    requires s.base < a
    ensures var t := Congest(Notify(Advance(s, a), wnd), now);
      && t.base == a && t.rep == 0 && t.est == s.est
      && (t.iss, t.mode, t.msg, t.start, t.last) == (s.iss, s.mode, s.msg, s.start, s.last)
      && (t.dataPos, t.sent, t.next, t.stamps) == (s.dataPos, s.sent, s.next, s.stamps)
      && (s.wndPos <= |s.msg| && s.wndPos <= HALF && s.start + s.wndPos <= s.edge && a - s.start <= HALF + 1 ==>
          t.wndPos <= |s.msg| && t.wndPos <= HALF && t.start + t.wndPos <= t.edge)
  {
  }

  lemma NewAckKeepsInv(s: Snd, a: int, wnd: Option<U16>, now: int)
    requires Inv(s) && s.mode != Failed
    requires s.base < a <= s.next && !EndsTooEarly(s, a)
    ensures Inv(OnNewAck(s, a, wnd, now))
    ensures OnNewAck(s, a, wnd, now).base == a && OnNewAck(s, a, wnd, now).next == s.next
    ensures s.mode == Active ==> (OnNewAck(s, a, wnd, now).mode == Idle <==> a == s.last + 1)
    ensures OnNewAck(s, a, wnd, now).mode == Idle ==> OnNewAck(s, a, wnd, now).start == a
  {
    NewAckStages(s, a, wnd, now);
    var t := Congest(Notify(Advance(s, a), wnd), now);
    SettleKeeps(t, a, a - s.base, now, s.base);
    AllAckedIsSeen(a);
  }

  lemma AllAckedIsSeen(a: int)
    ensures EndsCall(a - 1, a)
  {
    NearOffset(a, a - 1);
  }

  lemma SettleKeeps(t: Snd, a: int, k: nat, now: int, oldBase: int)
    requires t.base == a == oldBase + k && k > 0
    requires t.mode == Active || t.mode == Aborted
    requires t.start <= oldBase <= t.start + t.dataPos && a <= t.start + HALF
    requires |t.stamps| == t.start + t.dataPos - oldBase
    requires t.est.rto >= Rto.RTO_MIN
    ensures var u := Settle(t, a, k, now);
      && u.start + u.dataPos == Max(t.start + t.dataPos, a)
      && |u.stamps| == u.start + u.dataPos - a
      && u.est.rto >= Rto.RTO_MIN
      && u == t.(dataPos := u.dataPos, stamps := u.stamps, est := u.est)
  {
  }

  lemma NotifyKeepsInv(s: Snd, wnd: Option<U16>)
    requires Inv(s)
    ensures Inv(Notify(s, wnd))
  {
  }

  /** An ack keeps the invariant exactly when it does not cover a packet never sent and does
      not end the call before all packets are acked. */
  lemma AckKeepsInv(s: Snd, ack: Option<int>, wnd: Option<U16>, now: int)
    requires Inv(s) && s.mode != Failed
    ensures Inv(OnAck(s, ack, wnd, now)) <==> (ack.Some? ==> Honest(s, ack.value) && !EndsTooEarly(s, ack.value))
    ensures OnAck(s, ack, wnd, now).next == s.next
    ensures OnAck(s, ack, wnd, now).base
         == if ack.Some? && Accepts(s, ack.value) then ack.value else s.base
  {
    if ack.None? {
      NotifyKeepsInv(s, wnd);
    } else {
      NoteRepeatedKeeps(s, ack.value);
      var noted := NoteRepeated(s, ack.value);
      if Accepts(noted, ack.value) {
        if ack.value == s.base {
          NotifyKeepsInv(noted, wnd);
        } else {
          NewAckStages(noted, ack.value, wnd, now);
          if ack.value <= s.next && !EndsTooEarly(s, ack.value) {
            NewAckKeepsInv(noted, ack.value, wnd, now);
          } else {
            BadAckBreaksInv(noted, ack.value, wnd, now);
          }
        }
      }
    }
  }

  lemma BadAckBreaksInv(s: Snd, a: int, wnd: Option<U16>, now: int)
    requires Inv(s) && Accepts(s, a) && s.base < a && (a > s.next || EndsTooEarly(s, a))
    ensures !Inv(OnNewAck(s, a, wnd, now))
    ensures OnNewAck(s, a, wnd, now).base == a && OnNewAck(s, a, wnd, now).next == s.next
  {
    NewAckStages(s, a, wnd, now);
  }

  /** The range check protects the sender from every false ack exactly when the initial
      our_data_sent of zero does not read as a packet still to be sent. */
  lemma RangeCheckProtects(s: Snd)
    requires Inv(s)
    ensures (forall a :: Honest(s, a)) <==> InitiallySent(s.iss) < s.next
  {
    if InitiallySent(s.iss) >= s.next {
      assert !Honest(s, s.sent + 1);
    }
  }

  /** For a fresh socket these are the initial sequence numbers 1 .. 32768. */
  lemma FreshSocketIsProtected(iss: int, theirWnd: U16)
    ensures (forall a :: Honest(Initial(iss, theirWnd), a)) <==> 1 <= Wire(iss) <= HALF + 1
  {
    InitialInv(iss, theirWnd);
    RangeCheckProtects(Initial(iss, theirWnd));
  }

  /** Outside that range a false ack moves the base past everything ever sent. */
  lemma FalseAckIsBelieved()
    ensures !Inv(OnAck(Initial(40000, 100), Some(50000), None, 0))
  {
    var s := Initial(40000, 100);
    assert InitiallySent(40000) == MODULUS;
    assert Accepts(s, 50000);
    InitialInv(40000, 100);
    AckKeepsInv(s, Some(50000), None, 0);
  }

  // ---------- send window ----------

  /** edge was just computed: from the base, and the smaller of the peer's window and the
      congestion window as it is after the step or was before it. */
  predicate EdgeRefreshed(s: Snd, t: Snd) {
    t.edge == t.base + Min(t.theirWnd, t.cwnd) || t.edge == t.base + Min(t.theirWnd, s.cwnd)
  }

  /** Every step leaves the send window's edge alone or computes it anew. */
  lemma EdgeIsBasePlusWindow(s: Snd, pieces: seq<seq<Byte>>, ack: Option<int>, wnd: Option<U16>, now: int)
    requires Inv(s)
    ensures EdgeRefreshed(s, Begin(s, pieces))
    ensures Transmit(s, now).edge == s.edge
    ensures Timeout(s, now).edge == s.edge || EdgeRefreshed(s, Timeout(s, now))
    ensures OnAck(s, ack, wnd, now).edge == s.edge || EdgeRefreshed(s, OnAck(s, ack, wnd, now))
  {
    if ack.Some? {
      AckEdge(s, ack.value, wnd, now);
    }
  }

  lemma AckEdge(s: Snd, a: int, wnd: Option<U16>, now: int)
    requires Inv(s)
    ensures var t := OnAck(s, Some(a), wnd, now);
      t.edge == s.edge || EdgeRefreshed(s, t)
  {
    if a > s.base {
      assert NoteRepeated(s, a) == s;
      NewAckEdge(s, a, wnd, now);
    } else {
      var t := OnAck(s, Some(a), wnd, now);
      var noted := NoteRepeated(s, a);
      assert t == noted || t == Notify(noted, wnd);
      NotedEdge(s, a);
      assert Notify(noted, wnd).base == noted.base && Notify(noted, wnd).cwnd == noted.cwnd;
    }
  }

  lemma NotedEdge(s: Snd, a: int)
    ensures NoteRepeated(s, a).edge == s.edge
  {
  }

  lemma NewAckEdge(s: Snd, a: int, wnd: Option<U16>, now: int)
    ensures OnNewAck(s, a, wnd, now).edge == s.edge || EdgeRefreshed(s, OnNewAck(s, a, wnd, now))
  {
    var t := Notify(Advance(s, a), wnd);
    assert t.cwnd == s.cwnd && (wnd.None? ==> t.edge == s.edge);
    var c := Congest(t, now);
    assert (c.edge, c.base, c.theirWnd) == (t.edge, t.base, t.theirWnd);
  }

  // ---------- congestion window ----------

  predicate WindowOpen(s: Snd) {
    s.cwnd >= 1 && 2 <= s.ssthresh <= HALF
  }

  lemma InitialWindowOpen(iss: int, theirWnd: U16)
    ensures WindowOpen(Initial(iss, theirWnd))
  {
  }

  lemma TimeoutKeepsWindowOpen(s: Snd, now: int)
    requires WindowOpen(s)
    ensures WindowOpen(Timeout(s, now))
    ensures Fires(s, now) && !GivesUp(s) ==> Timeout(s, now).cwnd == 1 && 2 * Timeout(s, now).ssthresh >= s.cwnd - 1
  {
  }

  /** The congestion window stays open unless the 16-bit increment overflows. */
  lemma AckKeepsWindowOpen(s: Snd, ack: Option<int>, wnd: Option<U16>, now: int)
    requires Inv(s) && WindowOpen(s)
    ensures WindowOpen(OnAck(s, ack, wnd, now))
      <==> !(ack.Some? && s.base < ack.value <= s.sent + 1 && Grows(s, now) && s.cwnd == MODULUS - 1)
  {
    if ack.Some? {
      if s.base < ack.value <= s.sent + 1 {
        GoodAckKeepsWindowOpen(s, ack.value, wnd, now);
      } else {
        OldAckKeepsWindowOpen(s, ack.value, wnd, now);
      }
    }
  }

  lemma GoodAckKeepsWindowOpen(s: Snd, a: int, wnd: Option<U16>, now: int)
    requires Inv(s) && WindowOpen(s) && s.base < a <= s.sent + 1
    ensures WindowOpen(OnAck(s, Some(a), wnd, now)) <==> !(Grows(s, now) && s.cwnd == MODULUS - 1)
  {
    assert NoteRepeated(s, a) == s;
    assert OnAck(s, Some(a), wnd, now) == OnNewAck(s, a, wnd, now);
    NewAckWindow(s, a, wnd, now);
    CongestOpens(s, now);
  }

  lemma CongestOpens(s: Snd, now: int)
    requires WindowOpen(s)
    ensures Congest(s, now).cwnd >= 1 <==> !(Grows(s, now) && s.cwnd == MODULUS - 1)
  {
  }

  lemma OldAckKeepsWindowOpen(s: Snd, a: int, wnd: Option<U16>, now: int)
    requires WindowOpen(s) && !(s.base < a <= s.sent + 1)
    ensures WindowOpen(OnAck(s, Some(a), wnd, now))
  {
    RepeatedWindow(s, a);
    var noted := NoteRepeated(s, a);
    assert OnAck(s, Some(a), wnd, now) == if Accepts(noted, a) then Notify(noted, wnd) else noted;
  }

  lemma RepeatedWindow(s: Snd, a: int)
    requires WindowOpen(s)
    ensures WindowOpen(NoteRepeated(s, a))
    ensures (NoteRepeated(s, a).base, NoteRepeated(s, a).sent) == (s.base, s.sent)
  {
    var counted := if a == s.base && s.base > s.sent then s.(rep := s.rep + 1) else s;
    var back := Rewind(counted);
    assert (back.cwnd, back.ssthresh, back.base, back.sent) == (s.cwnd, s.ssthresh, s.base, s.sent);
  }

  lemma NewAckWindow(s: Snd, a: int, wnd: Option<U16>, now: int)
    ensures OnNewAck(s, a, wnd, now).cwnd == Congest(s, now).cwnd
    ensures OnNewAck(s, a, wnd, now).ssthresh == s.ssthresh
  {
    var t := Notify(Advance(s, a), wnd);
    assert (t.cwnd, t.ssthresh, t.fast, t.refreshed, t.est) == (s.cwnd, s.ssthresh, s.fast, s.refreshed, s.est);
    var c := Congest(t, now);
    assert c.cwnd == Congest(s, now).cwnd && c.ssthresh == s.ssthresh;
  }

  /** An ack opens the window by at most one packet; the one that ends fast recovery sets it
      to the threshold. */
  lemma CongestGrowsByOne(s: Snd, now: int)
    requires WindowOpen(s) && s.cwnd < MODULUS - 1
    ensures !s.fast ==> s.cwnd <= Congest(s, now).cwnd <= s.cwnd + 1
    ensures s.fast ==> Congest(s, now).cwnd == s.ssthresh
    ensures !Congest(s, now).fast
  {
  }
}
