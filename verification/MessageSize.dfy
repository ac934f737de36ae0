/**
  What the size of a message does to its sender.  A message of any length is started, but the
  16-bit code compares numbers and computes positions within half the circle of 65536
  (ump_sock.c:818, 905-911).  Two things go wrong with a large message: an ack of its first
  packets can read as an ack of its last one, and the limit up to which packets may be sent can
  come out a whole lap too low.

  Main results: which lengths let no ack end the call too early (LengthDecides), and that a
  message stops for good with its last packets unsent when everything sent is acked and the
  window reaches past position 32767 (CanSendNext, StallLasts, StopAndWaitStalls).  With a
  peer's window of at most 50 packets that takes a message of more than 32718 (SizeDecides).
 */
module MessageSize {
  import opened Circular
  import opened Message
  import opened SenderModel
  import Rto

  // ---------- calls that end too early ----------

  /** No ack of a message of n packets reads as one of its last packet when it is not. */
  predicate EndIsAlwaysRead(n: int) {
    n <= HALF + 2 || Wire(n) == HALF + 1 || Wire(n) == HALF + 2
  }

  /** An ack reads as past the last packet exactly when it is behind by more than half the
      circle, laps not counted. */
  lemma EndsCallWhen(last: int, a: int)
    ensures EndsCall(last, a) <==> Wire(last - a) > HALF
  {
    var d: int := Wire(last - a);
    OffsetUnique(Wire(a), Wire(last), if d <= HALF then d else d - MODULUS);
  }

  /** No ack that a sender can get of a message start..last ends the call too early. */
  ghost predicate EndsInTime(start: int, last: int) {
    forall a :: start < a <= last && a <= start + LARGEST_MESSAGE ==> !EndsCall(last, a)
  }

  /** Of the acks that a sender can get, one ends the call too early exactly when the message
      has more than 32769 packets and its length modulo 65536 is not 32768 or 32769. */
  lemma LengthDecides(start: int, n: int)
    requires n >= 1
    ensures EndsInTime(start, start + n - 1) <==> EndIsAlwaysRead(n)
  {
    var last := start + n - 1;
    if EndIsAlwaysRead(n) {
      forall a | start < a <= last && a <= start + LARGEST_MESSAGE ensures !EndsCall(last, a) {
        EndsCallWhen(last, a);
        AcksOfReadLength(n, a - start);
      }
    } else {
      var k := FirstMisread(n);
      var a := start + k;
      EndsCallWhen(last, a);
      assert last - a == n - 1 - k;
      assert start < a <= last && a <= start + LARGEST_MESSAGE;
      assert EndsCall(last, a);
    }
  }

  lemma AcksOfReadLength(n: int, k: int)
    requires EndIsAlwaysRead(n) && 1 <= k < n && k <= HALF
    ensures Wire(n - 1 - k) <= HALF
  {
    if n > HALF + 2 {
      var r: int := Wire(n);
      assert n - 1 - k == n / MODULUS * MODULUS + (r - 1 - k);
      assert 0 <= r - 1 - k <= HALF;
      WireUnique(n - 1 - k, n / MODULUS, r - 1 - k);
    }
  }

  lemma WireUnique(n: int, q: int, r: int)
    requires n == q * MODULUS + r && 0 <= r < MODULUS
    ensures Wire(n) == r
  {
  }

  lemma FirstMisread(n: int) returns (k: int)
    requires !EndIsAlwaysRead(n)
    ensures 1 <= k < n && k <= HALF && Wire(n - 1 - k) > HALF
  {
    var r: int := Wire(n - 2);
    k := if r > HALF then 1 else r + 2;
    if r <= HALF {
      assert n - 2 == (n - 2) / MODULUS * MODULUS + r;
      WireUnique(n - 1 - k, (n - 2) / MODULUS - 1, MODULUS - 1);
      assert r < HALF - 1 by {
        WireUnique(n, (n - 2) / MODULUS, r + 2);
      }
    }
  }

  /** A message of more than 32767 packets is never sent in full; when a send call for one ends
      with TRUE, that is too early. */
  lemma LongMessageNeverSucceeds(s: Snd, a: int, wnd: Option<U16>, now: int)
    requires Inv(s) && s.mode == Active && |s.msg| > LARGEST_MESSAGE && a <= s.next
    ensures s.next <= s.last
    ensures OnAck(s, Some(a), wnd, now).mode == Idle ==> EndsTooEarly(s, a)
  {
    NoteRepeatedKeeps(s, a);
    if Accepts(s, a) && a > s.base {
      NewAckStages(NoteRepeated(s, a), a, wnd, now);
    }
  }

  /** In a reached state no ack of what has been sent ends the call too early, for a length at
      which the end is read. */
  lemma ReadLengthEndsRight(s: Snd, a: int)
    requires Inv(s) && (s.mode == Active ==> EndIsAlwaysRead(|s.msg|)) && a <= s.next
    ensures !EndsTooEarly(s, a)
  {
    if s.mode == Active {
      LengthDecides(s.start, |s.msg|);
    }
  }

  /** The ack of its first packet ends the call for a message of 32770 packets up to a lap. */
  lemma FirstAckEndsCall(s: Snd, wnd: Option<U16>, now: int)
    requires Inv(s) && s.mode == Active && s.base == s.start && s.next > s.start
    requires HALF + 2 < |s.msg| <= MODULUS + 1
    ensures var t := OnAck(s, Some(s.start + 1), wnd, now);
      t.mode == Idle && t.base < s.last && !Inv(t)
  {
    EndsCallWhen(s.last, s.start + 1);
    AckKeepsInv(s, Some(s.start + 1), wnd, now);
    NewAckStages(s, s.start + 1, wnd, now);
  }

  // ---------- messages that stop ----------

  /** Everything sent is acked, the window is refreshed and not closed: the next packet can be
      sent exactly when the window does not reach past position 32767. */
  lemma CanSendNext(s: Snd)
    requires Inv(s) && s.mode == Active && s.stamps == []
    requires s == RefreshWindow(s) && Window(s) >= 1
    ensures CanTransmit(s) <==> s.base - s.start + Window(s) <= HALF
  {
  }

  /** The sender when all packets below b are acked and no other is in flight. */
  function AckedBelow(s: Snd, b: int): Snd {
    RefreshWindow(s.(base := b, dataPos := b - s.start, stamps := []))
  }

  /** The message never stops under a window exactly when it leaves room for the window below
      position 32768: 32718 packets for a window of 50. */
  lemma SizeDecides(s: Snd)
    requires Inv(s) && s.mode == Active && Window(s) >= 1
    ensures (forall b :: s.start <= b <= s.last ==> CanTransmit(AckedBelow(s, b)))
      <==> |s.msg| + Window(s) <= HALF + 1
  {
    assert CanTransmit(AckedBelow(s, s.last)) ==> |s.msg| + Window(s) <= HALF + 1;
  }

  /** Nothing is in flight, no packet may be sent, and that stays so whichever of the windows
      the sender may have from here on. */
  predicate Stalled(s: Snd) {
    && s.mode == Active && s.base == s.next && s.stamps == []
    && s.base - s.start == s.dataPos <= HALF && s.wndPos <= s.dataPos && s.rep <= 1
    && s.dataPos + s.theirWnd > HALF && s.dataPos + s.cwnd > HALF
    && s.dataPos + s.ssthresh > HALF && s.ssthresh <= HALF
  }

  datatype Signal = Timer(now: int) | Ack(ack: Option<int>, wnd: Option<U16>, at: int)

  function Handle(s: Snd, x: Signal): Snd {
    match x
    case Timer(now) => Timeout(s, now)
    case Ack(ack, wnd, now) => OnAck(s, ack, wnd, now)
  }

  function After(s: Snd, xs: seq<Signal>): Snd {
    if xs == [] then s else Handle(After(s, xs[..|xs| - 1]), xs[|xs| - 1])
  }

  /** The signal comes from a peer that has received no more than was sent and does not take
      back its window below pos. */
  predicate Fair(x: Signal, next: int, pos: int) {
    x.Ack? ==> (x.ack.Some? ==> x.ack.value <= next) && (x.wnd.Some? ==> pos + x.wnd.value > HALF)
  }

  lemma StallStays(s: Snd, x: Signal)
    requires Stalled(s) && Fair(x, s.next, s.dataPos)
    ensures Stalled(Handle(s, x)) && SamePlace(s, Handle(s, x))
  {
    if x.Ack? && x.ack.Some? {
      RepeatStays(s, x.ack.value);
      var noted := NoteRepeated(s, x.ack.value);
      if Accepts(noted, x.ack.value) {
        WindowStays(noted, x.wnd);
      }
    } else if x.Ack? {
      WindowStays(s, x.wnd);
    }
  }

  predicate SamePlace(s: Snd, t: Snd) {
    (t.start, t.base, t.next, t.dataPos, t.msg) == (s.start, s.base, s.next, s.dataPos, s.msg)
  }

  lemma RepeatStays(s: Snd, a: int)
    requires Stalled(s)
    ensures Stalled(NoteRepeated(s, a)) && SamePlace(s, NoteRepeated(s, a))
  {
  }

  lemma WindowStays(s: Snd, wnd: Option<U16>)
    requires Stalled(s) && (wnd.Some? ==> s.dataPos + wnd.value > HALF)
    ensures Stalled(Notify(s, wnd)) && SamePlace(s, Notify(s, wnd))
  {
  }

  /** No timeout and no ack gets a stalled sender going again: the rest of the message is never
      sent, and no error is reported. */
  lemma {:induction false} StallLasts(s: Snd, xs: seq<Signal>)
    requires Stalled(s) && forall i :: 0 <= i < |xs| ==> Fair(xs[i], s.next, s.dataPos)
    ensures Stalled(After(s, xs)) && SamePlace(s, After(s, xs)) && !CanTransmit(After(s, xs))
  {
    if xs != [] {
      StallLasts(s, xs[..|xs| - 1]);
      StallStays(After(s, xs[..|xs| - 1]), xs[|xs| - 1]);
    }
  }

  /** The last 17 packets of a message of 32767 wait for a window of 50 to get smaller. */
  lemma SeventeenPacketsStay(msg: seq<seq<Byte>>) returns (s: Snd)
    requires |msg| == LARGEST_MESSAGE
    ensures Inv(s) && Stalled(s) && s.msg == msg && s == RefreshWindow(s) && !CanTransmit(s)
    ensures s.base == s.next == s.last - 16 && Window(s) == 50
  {
    s := RefreshWindow(Initial(1, 50).(mode := Active, msg := msg, last := 32767, base := 32751, dataPos := 32750,
      sent := 32750, next := 32751, cwnd := 100));
    NearOffset(1, 0);
  }

  // ---------- a run that stops ----------

  /** The packet at the base is acked with the window w. */
  function FirstIsAcked(s: Snd, w: U16): Snd {
    OnAck(s, Some(s.base + 1), Some(w), 0)
  }

  /** One packet is sent, and its ack comes at once. */
  function Round(s: Snd, w: U16): Snd {
    FirstIsAcked(Transmit(s, 0), w)
  }

  function Rounds(s: Snd, w: U16, k: nat): Snd {
    if k == 0 then s else Round(Rounds(s, w, k - 1), w)
  }

  /** After k rounds of a message of n packets, the first of them being number start. */
  ghost predicate Going(s: Snd, start: int, n: int, w: U16, k: nat) {
    && Inv(s) && s.mode == Active && s.start == start && |s.msg| == n
    && s.base == s.next == start + k && s.stamps == [] && s.theirWnd == w && !s.fast
    && s.ssthresh == INITIAL_SSTHRESH && Min(k + 1, INITIAL_SSTHRESH) <= s.cwnd <= k + 1
    && (k + w <= HALF ==> k < s.wndPos)
    && (k >= w ==> s.wndPos == WndPos(n, k, w))
  }

  lemma RoundGoesOn(s: Snd, start: int, n: int, w: U16, k: nat)
    requires 1 <= w <= INITIAL_SSTHRESH && k + w <= HALF && k + 1 < n <= HALF + 2
    requires Going(s, start, n, w, k)
    ensures Going(Round(s, w), start, n, w, k + 1)
  {
    RoundStarts(s, start, n, w, k);
    AckGoesOn(s, Transmit(s, 0), start, n, w, k);
  }

  /** t is the sender s after its next packet. */
  ghost predicate OneInFlight(s: Snd, t: Snd, start: int, k: nat) {
    && Inv(t) && |t.stamps| == 1 && t.next == start + k + 1
    && t == s.(stamps := t.stamps, sent := t.sent, next := t.next, dataPos := t.dataPos)
  }

  lemma AckGoesOn(s: Snd, t: Snd, start: int, n: int, w: U16, k: nat)
    requires 1 <= w <= INITIAL_SSTHRESH && k + w <= HALF && k + 1 < n <= HALF + 2
    requires Going(s, start, n, w, k) && OneInFlight(s, t, start, k)
    ensures Going(FirstIsAcked(t, w), start, n, w, k + 1)
  {
    AckOfRound(t, w);
    GoingAfter(s, t, FirstIsAcked(t, w), start, n, w, k);
  }

  lemma RoundStarts(s: Snd, start: int, n: int, w: U16, k: nat)
    requires k + w <= HALF && Going(s, start, n, w, k)
    ensures CanTransmit(s)
    ensures OneInFlight(s, Transmit(s, 0), start, k)
  {
    TransmitKeepsInv(s, 0);
  }

  /** The one packet in flight is acked. */
  predicate RoundEnded(t: Snd, u: Snd, w: U16) {
    && (u.mode, u.start, u.msg, u.base, u.next) == (t.mode, t.start, t.msg, t.next, t.next)
    && u.stamps == [] && u.theirWnd == w && !u.fast && u.ssthresh == t.ssthresh
    && u.wndPos == WndPos(|t.msg|, t.next - t.start, Min(w, t.cwnd))
    && t.cwnd <= u.cwnd <= t.cwnd + 1 && (t.cwnd < t.ssthresh ==> u.cwnd == t.cwnd + 1)
  }

  lemma AckOfRound(t: Snd, w: U16)
    requires Inv(t) && t.mode == Active && t.base + 1 == t.next <= t.last && |t.msg| <= HALF + 2
    requires !t.fast && 1 <= t.cwnd <= HALF && |t.stamps| == 1
    ensures Inv(FirstIsAcked(t, w)) && RoundEnded(t, FirstIsAcked(t, w), w)
  {
    var a := t.base + 1;
    ReadLengthEndsRight(t, a);
    AckKeepsInv(t, Some(a), Some(w), 0);
    assert NoteRepeated(t, a) == t;
    assert Accepts(t, a) && !EndsCall(t.last, a);
    RoundEnds(t, a, w);
  }

  lemma RoundEnds(t: Snd, a: int, w: U16)
    requires t.mode == Active && a == t.base + 1 == t.next && 0 < a - t.start <= HALF && !EndsCall(t.last, a)
    requires !t.fast && 1 <= t.cwnd <= HALF && |t.stamps| == 1
    ensures RoundEnded(t, OnNewAck(t, a, Some(w), 0), w)
  {
    NewAckStages(t, a, Some(w), 0);
    var n := Notify(Advance(t, a), Some(w));
    assert n.wndPos == WndPos(|t.msg|, a - t.start, Min(w, t.cwnd)) && n.theirWnd == w;
    assert (n.cwnd, n.ssthresh, n.fast) == (t.cwnd, t.ssthresh, t.fast);
    var c := Congest(n, 0);
    assert (c.wndPos, c.theirWnd, c.ssthresh) == (n.wndPos, n.theirWnd, n.ssthresh) && !c.fast;
  }

  lemma GoingAfter(s: Snd, t: Snd, u: Snd, start: int, n: int, w: U16, k: nat)
    requires 1 <= w <= INITIAL_SSTHRESH && k + w <= HALF && k + 1 < n
    requires Going(s, start, n, w, k) && OneInFlight(s, t, start, k) && Inv(u) && RoundEnded(t, u, w)
    ensures Going(u, start, n, w, k + 1)
  {
  }

  lemma {:induction false} RoundsGoOn(s: Snd, start: int, n: int, w: U16, k: nat)
    requires 1 <= w <= INITIAL_SSTHRESH && k + w <= HALF + 1 && k < n <= HALF + 2
    requires Going(s, start, n, w, 0)
    ensures Going(Rounds(s, w, k), start, n, w, k)
  {
    if k > 0 {
      RoundsGoOn(s, start, n, w, k - 1);
      RoundGoesOn(Rounds(s, w, k - 1), start, n, w, k - 1);
    }
  }

  lemma GoingOrStalled(s: Snd, start: int, n: int, w: U16, k: nat)
    requires 1 <= w <= INITIAL_SSTHRESH && k < n && Going(s, start, n, w, k)
    ensures k + w <= HALF ==> CanTransmit(s)
    ensures k + w == HALF + 1 ==> Stalled(s)
  {
  }

  lemma FirstRound(iss: int, w: U16, pieces: seq<seq<Byte>>)
    requires 1 <= w && pieces != []
    ensures Going(Begin(Initial(iss, w), pieces), iss, |pieces|, w, 0)
  {
    InitialInv(iss, w);
    BeginKeepsInv(Initial(iss, w), pieces);
  }

  /** A fresh sender under a window of w, one packet and its ack at a time: after 32768 - w
      packets it has stopped, if the message has more. */
  lemma StopAndWaitStalls(iss: int, w: U16, pieces: seq<seq<Byte>>)
    requires 1 <= w <= INITIAL_SSTHRESH && HALF + 1 < |pieces| + w && |pieces| <= HALF + 2
    ensures var first, k := Begin(Initial(iss, w), pieces), HALF + 1 - w;
      && (forall j :: 0 <= j < k ==> CanTransmit(Rounds(first, w, j)))
      && Inv(Rounds(first, w, k)) && Stalled(Rounds(first, w, k)) && Rounds(first, w, k).base <= iss + |pieces| - 1
  {
    var first, n := Begin(Initial(iss, w), pieces), |pieces|;
    FirstRound(iss, w, pieces);
    forall j | 0 <= j <= HALF + 1 - w ensures Going(Rounds(first, w, j), iss, n, w, j) {
      RoundsGoOn(first, iss, n, w, j);
    }
    forall j | 0 <= j < HALF + 1 - w ensures CanTransmit(Rounds(first, w, j)) {
      GoingOrStalled(Rounds(first, w, j), iss, n, w, j);
    }
    GoingOrStalled(Rounds(first, w, HALF + 1 - w), iss, n, w, HALF + 1 - w);
  }
}
