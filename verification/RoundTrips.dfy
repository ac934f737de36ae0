/**
  Which acks give the timeout estimator a round-trip sample (ump_sock.c:672-704, 748-817).  A
  packet that has been sent twice tells nothing about the round trip, and the back point is there
  to keep its ack from being measured.

  Main results: in every run a packet that was sent once is measured, by the time since it was
  sent (SentOnceIsMeasured), and exactly which acks of packets sent again are measured too
  (MeasuredExactly): always that of the last one, and others by a comparison of raw numbers.
 */
module RoundTrips {
  import opened Circular
  import opened Message
  import opened SenderModel
  import CC = CongestionControl
  import Rto

  // ---------- one ack ----------

  /** The last packet that the ack covers still has its timer, registered no later than now. */
  predicate IsTimed(s: Snd, a: int, now: int) {
    s.base < a <= s.base + |s.stamps| && s.stamps[a - s.base - 1].reg <= now
  }

  /** The ack reads as no lower than the back point, around itself or as a raw number. */
  predicate PassesBackPoint(s: Snd, a: int) {
    Reading(a, s.back) <= a || s.back <= Wire(a)
  }

  /** The estimator of section 2 of RFC 6298 after a sample of m milliseconds. */
  predicate SampleTaken(e: Rto.Estimate, t: Rto.Estimate, m: int) {
    && 8.0 * t.a == 7.0 * e.a + m as real
    && 4.0 * t.d == 3.0 * e.d + (if m as real >= e.a then m as real - e.a else e.a - m as real)
    && t.rto == if t.a + 4.0 * t.d >= 16.0 then t.a + 4.0 * t.d else 16.0
  }

  /** The round trip of the last packet covered; 50 ms stand for none. */
  function RoundTripOf(s: Snd, a: int, now: int): int
    requires IsTimed(s, a, now)
  {
    var ms := now - s.stamps[a - s.base - 1].reg;
    if ms == 0 then 50 else ms
  }

  lemma NewAckMeasures(s: Snd, a: int, wnd: Option<U16>, now: int)
    requires Inv(s) && CC.IsNew(s, a)
    ensures var t := OnAck(s, Some(a), wnd, now);
      && (IsTimed(s, a, now) && PassesBackPoint(s, a) ==> SampleTaken(s.est, t.est, RoundTripOf(s, a, now)))
      && (!(IsTimed(s, a, now) && PassesBackPoint(s, a)) ==> t.est == s.est)
      && t.back == if Reading(a, s.back) < a then Wire(a) else s.back
  {
    CC.NewAckIs(s, a, wnd, now);
    MeasuredByNewAck(s, a, wnd, now);
    if IsTimed(s, a, now) {
      Rto.SampleIsRfc6298(s.est, RoundTripOf(s, a, now) as real);
    }
  }

  lemma MeasuredByNewAck(s: Snd, a: int, wnd: Option<U16>, now: int)
    requires s.base < a
    ensures var t := OnNewAck(s, a, wnd, now);
      && t.back == (if Reading(a, s.back) < a then Wire(a) else s.back)
      && t.est == if IsTimed(s, a, now) && PassesBackPoint(s, a)
                  then Rto.Sample(s.est, RoundTripOf(s, a, now) as real) else s.est
  {
    var b := Advance(s, a);
    AdvanceRaises(s, a);
    var c := Congest(Notify(b, wnd), now);
    assert (c.back, c.est, c.stamps) == (b.back, s.est, s.stamps);
  }

  lemma AdvanceRaises(s: Snd, a: int)
    requires s.base < a
    ensures Advance(s, a).back == (if Reading(a, s.back) < a then Wire(a) else s.back)
    ensures Advance(s, a).est == s.est && Advance(s, a).stamps == s.stamps
    ensures Wire(a) >= Advance(s, a).back <==> PassesBackPoint(s, a)
  {
    RaisesWhen(s.(base := a, rep := 0), a);
    if Reading(a, s.back) == a {
      ReadingIsNear(a, s.back);
    }
  }

  /** The back point is raised to packet x exactly when it reads as lower around the base. */
  lemma RaisesWhen(s: Snd, x: int)
    requires Near(s.base, x)
    ensures RaiseBackPoint(s, Wire(x)) == s.(back := if Reading(s.base, s.back) < x then Wire(x) else s.back)
  {
    CmpIsOffsetDifference(Wire(s.base), s.back, Wire(x));
    NearOffset(s.base, x);
  }

  // ---------- every run of a sender ----------

  /** log: the packets sent, each with its time.  again: history, all packets below it had been
      sent when the sender last went back. */
  datatype Sending = Sending(s: Snd, log: seq<(int, int)>, again: int)

  datatype Event =
    | Starts(pieces: seq<seq<Byte>>)
    | Sends(now: int)
    | TimerRuns(now: int)
    | Hears(ack: Option<int>, wnd: Option<U16>, at: int)
    | Closes

  function First(iss: int, wnd: U16): Sending {
    Sending(SenderModel.Initial(iss, wnd), [], iss)
  }

  /** The second of the repeated acks that count; it makes the sender go back. */
  predicate IsSecondRepeat(s: Snd, a: int) {
    a == s.base && s.sent < s.base && s.rep == 1
  }

  /** The peer acks what was sent, the message's end is read (module MessageSize), and no second
      repeated ack comes while no message is being sent: IdleAcksSpoil is about that. */
  predicate Possible(h: Sending, e: Event) {
    && h.s.mode != SenderModel.Failed
    && match e
       case Starts(pieces) => h.s.mode == Idle && pieces != []
       case Sends(_) => CanTransmit(h.s)
       case TimerRuns(_) => true
       case Hears(ack, _, _) => ack.Some? ==>
         && Honest(h.s, ack.value) && !EndsTooEarly(h.s, ack.value)
         && (h.s.mode == Idle ==> !IsSecondRepeat(h.s, ack.value))
       case Closes => true
  }

  /** The next packet to be sent. */
  function Position(s: Snd): int {
    if s.mode == Idle then s.base else s.start + s.dataPos
  }

  function GoneBack(h: Sending, t: Snd): Sending {
    h.(s := t, again := if Position(t) < Position(h.s) then Max(h.again, Position(h.s)) else h.again)
  }

  function Do(h: Sending, e: Event): Sending {
    match e
    case Starts(pieces) => h.(s := Begin(h.s, pieces))
    case Sends(now) => h.(s := Transmit(h.s, now), log := h.log + [(TransmittedNumber(h.s), now)])
    case TimerRuns(now) => GoneBack(h, Timeout(h.s, now))
    case Hears(ack, wnd, now) => GoneBack(h, OnAck(h.s, ack, wnd, now))
    case Closes => h.(s := Abort(h.s))
  }

  function After(h: Sending, es: seq<Event>): Sending {
    if es == [] then h else Do(After(h, es[..|es| - 1]), es[|es| - 1])
  }

  predicate Runs(h: Sending, es: seq<Event>) {
    es != [] ==> Runs(h, es[..|es| - 1]) && Possible(After(h, es[..|es| - 1]), es[|es| - 1])
  }

  /** How often packet n has been sent. */
  function Times(log: seq<(int, int)>, n: int): nat {
    if log == [] then 0 else Times(log[..|log| - 1], n) + if log[|log| - 1].0 == n then 1 else 0
  }

  lemma OneMoreSent(log: seq<(int, int)>, x: (int, int), n: int)
    ensures Times(log + [x], n) == Times(log, n) + if x.0 == n then 1 else 0
  {
    assert (log + [x])[..|log|] == log;
  }

  // ---------- what every run keeps ----------

  /** Packets from `again` on have been sent at most once, and those that have been sent again at
      least twice. */
  ghost predicate LogFits(log: seq<(int, int)>, iss: int, base: int, position: int, again: int, next: int) {
    && base <= position && again <= next && next == Max(again, position)
    && (forall n :: n >= next ==> Times(log, n) == 0)
    && (forall n :: iss <= n < next ==> Times(log, n) >= 1)
    && (forall n :: again <= n < next ==> Times(log, n) == 1)
    && (forall n :: base <= n < position && n < again ==> Times(log, n) >= 2)
  }

  ghost predicate TimersFit(log: seq<(int, int)>, base: int, stamps: seq<Stamp>) {
    forall i :: 0 <= i < |stamps| ==> (base + i, stamps[i].reg) in log
  }

  /** The back point is the end of what may have been sent again; or it is still the zero it starts
      as, and nothing has been sent again or that reads as further ahead. */
  predicate BackFits(back: U16, base: int, again: int) {
    || Reading(base, back) == Max(again, base)
    || (back == 0 && (again <= base || Reading(base, back) > Max(again, base)))
  }

  ghost predicate Fits(h: Sending) {
    h.s.mode != SenderModel.Failed ==>
      && Inv(h.s) && h.again >= h.s.iss
      && LogFits(h.log, h.s.iss, h.s.base, Position(h.s), h.again, h.s.next)
      && TimersFit(h.log, h.s.base, h.s.stamps)
      && BackFits(h.s.back, h.s.base, h.again)
  }

  lemma FirstFits(iss: int, wnd: U16)
    ensures Fits(First(iss, wnd))
  {
    InitialInv(iss, wnd);
  }

  // ---------- the log ----------

  lemma SendingKeepsLog(log: seq<(int, int)>, iss: int, base: int, position: int, again: int, next: int, now: int)
    requires LogFits(log, iss, base, position, again, next) && iss <= base
    ensures LogFits(log + [(position, now)], iss, base, position + 1, again, Max(next, position + 1))
  {
    forall n ensures Times(log + [(position, now)], n) == Times(log, n) + if n == position then 1 else 0 {
      OneMoreSent(log, (position, now), n);
    }
  }

  lemma GoingBackKeepsLog(log: seq<(int, int)>, iss: int, base: int, position: int, again: int, next: int)
    requires LogFits(log, iss, base, position, again, next)
    ensures LogFits(log, iss, base, base, if base < position then Max(again, position) else again, next)
  {
  }

  lemma MovingOnKeepsLog(log: seq<(int, int)>, iss: int, base: int, position: int, again: int, next: int, a: int)
    requires LogFits(log, iss, base, position, again, next) && base <= a <= next
    ensures LogFits(log, iss, a, Max(position, a), again, next)
  {
  }

  // ---------- the back point ----------

  lemma RaisingFits(back: U16, base: int, again: int, x: int)
    requires BackFits(back, base, again) && base <= x <= base + HALF
    ensures BackFits(if Reading(base, back) < x then Wire(x) else back, base,
                     if base < x then Max(again, x) else again)
  {
    NearOffset(base, x);
  }

  lemma AdvancingFits(back: U16, base: int, again: int, a: int)
    requires BackFits(back, base, again) && base < a <= base + HALF
    ensures BackFits(if Reading(a, back) < a then Wire(a) else back, a, again)
    ensures back == 0 || Reading(a, back) == Max(again, base)
  {
    NearOffset(a, a);
    ReadingIsNear(base, back);
    if Near(a, Reading(base, back)) {
      NearOffset(a, Reading(base, back));
    }
  }

  // ---------- the steps ----------

  lemma StartsKeepsFits(h: Sending, pieces: seq<seq<Byte>>)
    requires Fits(h) && Possible(h, Starts(pieces))
    ensures Fits(Do(h, Starts(pieces)))
  {
    BeginKeepsInv(h.s, pieces);
  }

  lemma SendsKeepsFits(h: Sending, now: int)
    requires Fits(h) && Possible(h, Sends(now))
    ensures Fits(Do(h, Sends(now)))
  {
    TransmitKeepsInv(h.s, now);
    OneMoreSentFits(h, Transmit(h.s, now), Transmit(h.s, now).stamps[|h.s.stamps|], now);
  }

  lemma OneMoreSentFits(h: Sending, t: Snd, x: Stamp, now: int)
    requires Fits(h) && h.s.mode == Active && Inv(t) && x.reg == now
    requires (t.mode, t.iss, t.base, t.back) == (Active, h.s.iss, h.s.base, h.s.back)
    requires t.next == Max(h.s.next, Position(h.s) + 1) && Position(t) == Position(h.s) + 1
    requires t.stamps == h.s.stamps + [x]
    ensures Fits(h.(s := t, log := h.log + [(Position(h.s), now)]))
  {
    SendingKeepsLog(h.log, t.iss, t.base, Position(h.s), h.again, h.s.next, now);
    TimerIsLogged(h.log, t.base, h.s.stamps, x, now);
  }

  lemma TimerIsLogged(log: seq<(int, int)>, base: int, stamps: seq<Stamp>, x: Stamp, now: int)
    requires TimersFit(log, base, stamps) && x.reg == now
    ensures TimersFit(log + [(base + |stamps|, now)], base, stamps + [x])
  {
    var longer := log + [(base + |stamps|, now)];
    assert longer[|log|] == (base + |stamps|, now);
  }

  /** The sender goes back to the base without any timer. */
  lemma WentBack(h: Sending, t: Snd)
    requires Fits(h) && h.s.mode != SenderModel.Failed && h.s.mode != Idle && Inv(t)
    requires (t.mode, t.iss, t.base, t.next) == (h.s.mode, h.s.iss, h.s.base, h.s.next)
    requires t.stamps == [] && Position(t) == t.base
    requires t.back == if Reading(t.base, h.s.back) < Position(h.s) then Wire(Position(h.s)) else h.s.back
    ensures Fits(GoneBack(h, t))
  {
    GoingBackKeepsLog(h.log, t.iss, t.base, Position(h.s), h.again, t.next);
    RaisingFits(h.s.back, t.base, h.again, Position(h.s));
  }

  lemma RewindRaises(s: Snd)
    requires Inv(s.(rep := 0)) && (s.mode == Active || s.mode == Aborted)
    ensures var x := s.start + s.dataPos;
      Rewind(s).back == if Reading(s.base, s.back) < x then Wire(x) else s.back
  {
    RaisesWhen(s, s.start + s.dataPos);
  }

  lemma TimerKeepsFits(h: Sending, now: int)
    requires Fits(h) && Possible(h, TimerRuns(now))
    ensures Fits(Do(h, TimerRuns(now)))
  {
    var s, t := h.s, Timeout(h.s, now);
    TimeoutKeepsInv(s, now);
    TimeoutSameMessage(s, now);
    if Fires(s, now) && !GivesUp(s) {
      var slow := s.(ssthresh := Max(s.cwnd / 2, 2), cwnd := 1);
      RewindKeepsInv(slow);
      RewindRaises(slow);
      WentBack(h, t);
    }
  }

  /** An ack that is not new: it changes nothing here, or makes the sender go back. */
  lemma OldAckKeepsFits(h: Sending, a: int, wnd: Option<U16>, now: int)
    requires Fits(h) && Possible(h, Hears(Some(a), wnd, now)) && !CC.IsNew(h.s, a)
    ensures Fits(Do(h, Hears(Some(a), wnd, now)))
  {
    var s, t := h.s, OnAck(h.s, Some(a), wnd, now);
    AckKeepsInv(s, Some(a), wnd, now);
    AckSameMessage(s, Some(a), wnd, now);
    CC.RepeatedAckExactly(s, a, wnd, now);
    if IsSecondRepeat(s, a) {
      SecondRepeatRaises(s, wnd, now);
      WentBack(h, t);
    }
  }

  lemma SecondRepeatRaises(s: Snd, wnd: Option<U16>, now: int)
    requires Inv(s) && s.mode != SenderModel.Failed && s.mode != Idle && IsSecondRepeat(s, s.base)
    ensures var x := s.start + s.dataPos;
      OnAck(s, Some(s.base), wnd, now).back == if Reading(s.base, s.back) < x then Wire(x) else s.back
  {
    RewindRaises(s.(rep := 2));
    var noted := NoteRepeated(s, s.base);
    assert noted == FastRetransmit(s.(rep := 2));
    assert OnAck(s, Some(s.base), wnd, now) == noted || OnAck(s, Some(s.base), wnd, now) == Notify(noted, wnd);
  }

  lemma NewAckKeepsFits(h: Sending, a: int, wnd: Option<U16>, now: int)
    requires Fits(h) && Possible(h, Hears(Some(a), wnd, now)) && CC.IsNew(h.s, a)
    ensures Fits(Do(h, Hears(Some(a), wnd, now)))
  {
    var s, t := h.s, OnAck(h.s, Some(a), wnd, now);
    AckKeepsInv(s, Some(a), wnd, now);
    CC.NewAckMovesWindow(s, a, wnd, now);
    NewAckMeasures(s, a, wnd, now);
    NewAckPosition(s, a, wnd, now);
    MovingOnKeepsLog(h.log, s.iss, s.base, Position(s), h.again, s.next, a);
    AdvancingFits(s.back, s.base, h.again, a);
    TimersMove(h.log, s.base, s.stamps, a, t.stamps);
  }

  lemma TimersMove(log: seq<(int, int)>, base: int, stamps: seq<Stamp>, a: int, stamps': seq<Stamp>)
    requires TimersFit(log, base, stamps) && base < a
    requires stamps' == if a - base <= |stamps| then stamps[a - base..] else []
    ensures TimersFit(log, a, stamps')
  {
    forall i | 0 <= i < |stamps'| ensures (a + i, stamps'[i].reg) in log {
      assert stamps'[i] == stamps[a - base + i];
    }
  }

  lemma NewAckPosition(s: Snd, a: int, wnd: Option<U16>, now: int)
    requires Inv(s) && s.mode != SenderModel.Failed && CC.IsNew(s, a) && Honest(s, a) && !EndsTooEarly(s, a)
    ensures Position(OnAck(s, Some(a), wnd, now)) == Max(Position(s), a)
    ensures OnAck(s, Some(a), wnd, now).mode != SenderModel.Failed
  {
    CC.NewAckIs(s, a, wnd, now);
    NewAckStages(s, a, wnd, now);
    NewAckKeepsInv(s, a, wnd, now);
    AckKeepsInv(s, Some(a), wnd, now);
  }

  lemma StepKeepsFits(h: Sending, e: Event)
    requires Fits(h) && Possible(h, e)
    ensures Fits(Do(h, e))
  {
    match e
    case Starts(pieces) => StartsKeepsFits(h, pieces);
    case Sends(now) => SendsKeepsFits(h, now);
    case TimerRuns(now) => TimerKeepsFits(h, now);
    case Hears(ack, wnd, now) =>
      if ack.None? {
        WindowKeepsFits(h, wnd, now);
      } else if CC.IsNew(h.s, ack.value) {
        NewAckKeepsFits(h, ack.value, wnd, now);
      } else {
        OldAckKeepsFits(h, ack.value, wnd, now);
      }
    case Closes => ClosesKeepsFits(h);
  }

  lemma WindowKeepsFits(h: Sending, wnd: Option<U16>, now: int)
    requires Fits(h) && Possible(h, Hears(None, wnd, now))
    ensures Fits(Do(h, Hears(None, wnd, now)))
  {
    NotifyKeepsInv(h.s, wnd);
    var t := Notify(h.s, wnd);
    assert t == h.s.(theirWnd := t.theirWnd, wndPos := t.wndPos, edge := t.edge);
  }

  lemma ClosesKeepsFits(h: Sending)
    requires Fits(h) && Possible(h, Closes)
    ensures Fits(Do(h, Closes))
  {
    AbortKeepsInv(h.s);
  }

  lemma {:induction false} RunKeepsFits(iss: int, wnd: U16, es: seq<Event>)
    requires Runs(First(iss, wnd), es)
    ensures Fits(After(First(iss, wnd), es))
  {
    if es == [] {
      FirstFits(iss, wnd);
    } else {
      RunKeepsFits(iss, wnd, es[..|es| - 1]);
      StepKeepsFits(After(First(iss, wnd), es[..|es| - 1]), es[|es| - 1]);
    }
  }

  // ---------- main results ----------

  /** An ack of what was sent, which the sender can still take. */
  predicate CanHear(s: Snd, a: int) {
    s.mode != SenderModel.Failed && CC.IsNew(s, a) && Honest(s, a)
  }

  /** In every run, when the last packet that a new ack covers still has its timer: the estimator
      takes the sample if and only if the ack is not below `again`, or is not below it as a raw
      number, or the back point is still zero.  So the ack of the last packet that was sent again
      is measured, and so are others when the numbers wrap in between. */
  lemma MeasuredExactly(iss: int, wnd: U16, es: seq<Event>, a: int, w: Option<U16>, now: int)
    requires Runs(First(iss, wnd), es)
    requires CanHear(After(First(iss, wnd), es).s, a) && IsTimed(After(First(iss, wnd), es).s, a, now)
    ensures var h := After(First(iss, wnd), es);
      var t := OnAck(h.s, Some(a), w, now);
      if a >= h.again || Wire(a) >= Wire(h.again) || h.s.back == 0 then
        SampleTaken(h.s.est, t.est, RoundTripOf(h.s, a, now))
      else t.est == h.s.est
  {
    RunKeepsFits(iss, wnd, es);
    Measured(After(First(iss, wnd), es), a, w, now);
  }

  lemma Measured(h: Sending, a: int, w: Option<U16>, now: int)
    requires Fits(h) && CanHear(h.s, a) && IsTimed(h.s, a, now)
    ensures var t := OnAck(h.s, Some(a), w, now);
      if a >= h.again || Wire(a) >= Wire(h.again) || h.s.back == 0 then
        SampleTaken(h.s.est, t.est, RoundTripOf(h.s, a, now))
      else t.est == h.s.est
  {
    NewAckMeasures(h.s, a, w, now);
    PassesExactly(h.s, a, h.again);
  }

  lemma PassesExactly(s: Snd, a: int, again: int)
    requires Inv(s) && s.base < a <= s.next && BackFits(s.back, s.base, again)
    ensures PassesBackPoint(s, a) <==> a >= again || Wire(a) >= Wire(again) || s.back == 0
  {
    AdvancingFits(s.back, s.base, again, a);
    ReadingIsNear(a, s.back);
  }

  /** Packet a - 1 has been sent just once, at that time, and its timer is running. */
  ghost predicate SentOnce(h: Sending, a: int, sentAt: int) {
    && h.s.base < a <= h.s.base + |h.s.stamps|
    && Times(h.log, a - 1) == 1 && (a - 1, sentAt) in h.log
  }

  /** In every run the ack of a packet that was sent just once gives the estimator the time since
      then, if its timer is running. */
  lemma SentOnceIsMeasured(iss: int, wnd: U16, es: seq<Event>, a: int, w: Option<U16>, sentAt: int, now: int)
    requires Runs(First(iss, wnd), es) && CanHear(After(First(iss, wnd), es).s, a)
    requires SentOnce(After(First(iss, wnd), es), a, sentAt) && sentAt <= now
    ensures var h := After(First(iss, wnd), es);
      SampleTaken(h.s.est, OnAck(h.s, Some(a), w, now).est, if now == sentAt then 50 else now - sentAt)
  {
    RunKeepsFits(iss, wnd, es);
    SentOnceMeasured(After(First(iss, wnd), es), a, w, sentAt, now);
  }

  lemma SentOnceMeasured(h: Sending, a: int, w: Option<U16>, sentAt: int, now: int)
    requires Fits(h) && CanHear(h.s, a) && SentOnce(h, a, sentAt) && sentAt <= now
    ensures SampleTaken(h.s.est, OnAck(h.s, Some(a), w, now).est, if now == sentAt then 50 else now - sentAt)
  {
    TimerSaysWhen(h, a, sentAt);
    TimerMeasures(h, a, w, sentAt, now);
  }

  lemma TimerMeasures(h: Sending, a: int, w: Option<U16>, sentAt: int, now: int)
    requires Fits(h) && CanHear(h.s, a) && a >= h.again
    requires a - h.s.base <= |h.s.stamps| && h.s.stamps[a - h.s.base - 1].reg == sentAt <= now
    ensures SampleTaken(h.s.est, OnAck(h.s, Some(a), w, now).est, if now == sentAt then 50 else now - sentAt)
  {
    assert IsTimed(h.s, a, now);
    Measured(h, a, w, now);
  }

  lemma TimerSaysWhen(h: Sending, a: int, sentAt: int)
    requires Fits(h) && h.s.mode != SenderModel.Failed && SentOnce(h, a, sentAt)
    ensures h.s.stamps[a - h.s.base - 1].reg == sentAt && a > h.again
  {
    var i := a - h.s.base - 1;
    assert (h.s.base + i, h.s.stamps[i].reg) in h.log;
    OnlyOnce(h.log, a - 1, sentAt, h.s.stamps[i].reg);
  }

  lemma {:induction false} OnlyOnce(log: seq<(int, int)>, n: int, x: int, y: int)
    requires Times(log, n) == 1 && (n, x) in log && (n, y) in log
    ensures x == y
  {
    var front, last := log[..|log| - 1], log[|log| - 1];
    assert log == front + [last];
    if last.0 == n {
      NotSent(front, n);
    } else {
      OnlyOnce(front, n, x, y);
    }
  }

  lemma {:induction false} NotSent(log: seq<(int, int)>, n: int)
    requires Times(log, n) == 0
    ensures forall x :: (n, x) !in log
  {
    if log != [] {
      NotSent(log[..|log| - 1], n);
      assert log == log[..|log| - 1] + [log[|log| - 1]];
    }
  }

  // ---------- repeated acks between messages ----------

  /** Two repeated acks that come while no message is being sent raise the back point as far ahead
      as the last message's position reaches, past packets that have never been sent. */
  lemma IdleAcksSpoil(s: Snd, wnd: Option<U16>, now: int)
    requires Inv(s) && s.mode == Idle && IsSecondRepeat(s, s.base) && s.dataPos > 0
    requires Reading(s.base, s.back) < s.base + s.dataPos
    ensures Reading(s.base, OnAck(s, Some(s.base), wnd, now).back) == s.next + s.dataPos
  {
    var x := s.base + s.dataPos;
    RaisesWhen(s.(rep := 2), x);
    NearOffset(s.base, x);
    var noted := NoteRepeated(s, s.base);
    assert noted == FastRetransmit(s.(rep := 2)) && noted.back == Wire(x);
    assert OnAck(s, Some(s.base), wnd, now) == noted || OnAck(s, Some(s.base), wnd, now) == Notify(noted, wnd);
  }
}
