/**
  Retransmission timers of the sender (ump_sock.c:438-456, 672-704): how long a packet's timer
  runs, what a due timer does, and how often.

  Main results: without an ack at most ten due timeouts are retried, from any state
  (AtMostTenRetries), and in every run of a connection no timer is due in the first 32 ms after
  its packet was sent (NoTimerIsEarly).
 */
module Retransmission {
  import opened Circular
  import opened Message
  import opened SenderModel
  import opened Transfer
  import Rto
  import RL = ReceiverLinks

  // ---------- a due timer ----------

  /** The first timer has run out. */
  predicate Due(s: Snd, now: int) {
    s.mode != SenderModel.Failed && s.stamps != [] && s.stamps[0].fire <= now
  }

  /** Below fifteen seconds a due timer doubles the timeout, up to ninety seconds, and leaves mean
      and deviation; the window shrinks to one packet, the threshold to half of what it was, and
      all packets not acked are sent again. */
  lemma DueTimeoutDoubles(s: Snd, now: int)
    requires SenderModel.Inv(s) && Due(s, now) && s.est.rto < 15000.0
    ensures var t := Timeout(s, now);
      && (t.est.a, t.est.d) == (s.est.a, s.est.d)
      && t.est.rto == (if s.est.rto <= 45000.0 then s.est.rto * 2.0 else 90000.0)
      && t.cwnd == 1 && t.ssthresh == (if s.cwnd < 4 then 2 else s.cwnd / 2) && !t.fast && t.rep == 0
      && (t.mode, t.msg, t.base, t.start, t.theirWnd, t.refreshed)
        == (s.mode, s.msg, s.base, s.start, s.theirWnd, s.refreshed)
      && t.stamps == [] && t.start + t.dataPos == s.base
      && (CanTransmit(t) <==> s.mode == Active && s.theirWnd >= 1 && s.base - s.start < HALF)
  {
    TimeoutKeepsInv(s, now);
    var slow := s.(ssthresh := Max(s.cwnd / 2, 2), cwnd := 1);
    RewindKeepsInv(slow);
  }

  /** From fifteen seconds on it ends the connection and the send call. */
  lemma DueTimeoutGivesUp(s: Snd, now: int)
    requires Due(s, now) && s.est.rto >= 15000.0
    ensures Timeout(s, now).mode == SenderModel.Failed && Timeout(s, now).msg == [] && Timeout(s, now).stamps == []
  {
  }

  lemma NotDueChangesNothing(s: Snd, now: int)
    requires !Due(s, now) && s.mode != SenderModel.Failed
    ensures Timeout(s, now) == s
  {
  }

  // ---------- runs without an ack ----------

  datatype Event = Sends(now: int) | TimerRuns(now: int)

  function Serve(s: Snd, e: Event): Snd {
    match e
    case Sends(now) => if CanTransmit(s) then Transmit(s, now) else s
    case TimerRuns(now) => if s.mode == SenderModel.Failed then s else Timeout(s, now)
  }

  function Served(s: Snd, es: seq<Event>): Snd {
    if es == [] then s else Serve(Served(s, es[..|es| - 1]), es[|es| - 1])
  }

  /** A due timer after which the sender goes on. */
  predicate Retries(s: Snd, e: Event) {
    e.TimerRuns? && Due(s, e.now) && Serve(s, e).mode != SenderModel.Failed
  }

  function RetryCount(s: Snd, es: seq<Event>): nat {
    if es == [] then 0
    else RetryCount(s, es[..|es| - 1]) + if Retries(Served(s, es[..|es| - 1]), es[|es| - 1]) then 1 else 0
  }

  lemma ServeKeepsInv(s: Snd, e: Event)
    requires SenderModel.Inv(s)
    ensures SenderModel.Inv(Serve(s, e)) && (s.est.rto <= Serve(s, e).est.rto || s.est.rto > 90000.0)
    ensures !Retries(s, e) ==> Serve(s, e).est == s.est
  {
    match e
    case Sends(now) =>
      if CanTransmit(s) {
        TransmitKeepsInv(s, now);
      }
    case TimerRuns(now) =>
      if s.mode != SenderModel.Failed {
        TimeoutKeepsInv(s, now);
        TimerKeepsEstimate(s, now);
      }
  }

  lemma TimerKeepsEstimate(s: Snd, now: int)
    requires SenderModel.Inv(s) && s.mode != SenderModel.Failed
    ensures s.est.rto <= Timeout(s, now).est.rto || s.est.rto > 90000.0
    ensures !Retries(s, TimerRuns(now)) ==> Timeout(s, now).est == s.est
  {
    if !Due(s, now) {
      NotDueChangesNothing(s, now);
    } else if s.est.rto < 15000.0 {
      DueTimeoutDoubles(s, now);
    }
  }

  /** k retries have doubled the least timeout of 16 ms k times. */
  lemma {:induction false} RetriesDouble(s: Snd, es: seq<Event>)
    requires SenderModel.Inv(s)
    ensures SenderModel.Inv(Served(s, es)) && RetryCount(s, es) <= 10
    ensures Served(s, es).est.rto >= 16.0 * Rto.Pow(2.0, RetryCount(s, es))
  {
    if es != [] {
      var front, e := es[..|es| - 1], es[|es| - 1];
      RetriesDouble(s, front);
      ServeKeepsInv(Served(s, front), e);
      RetryDoubles(Served(s, front), e, RetryCount(s, front));
    }
  }

  lemma RetryDoubles(s: Snd, e: Event, k: nat)
    requires SenderModel.Inv(s) && k <= 10 && s.est.rto >= 16.0 * Rto.Pow(2.0, k)
    ensures Retries(s, e) ==> k < 10 && Serve(s, e).est.rto >= 16.0 * Rto.Pow(2.0, k + 1)
    ensures !Retries(s, e) ==> Serve(s, e).est == s.est
  {
    ServeKeepsInv(s, e);
    Rto.PowerOfTwoAtMost1024(k);
    if Retries(s, e) {
      RetryIsBelowLimit(s, e.now);
      DueTimeoutDoubles(s, e.now);
      Rto.PowerOfTwoAtMost1024(k + 1);
    }
  }

  lemma RetryIsBelowLimit(s: Snd, now: int)
    requires Retries(s, TimerRuns(now))
    ensures s.est.rto < 15000.0
  {
    if s.est.rto >= 15000.0 {
      DueTimeoutGivesUp(s, now);
    }
  }

  /** From any state, over any sending and any timers, at most ten due timeouts are retried while
      no ack comes; once ten have been, the next one ends the connection. */
  lemma AtMostTenRetries(s: Snd, es: seq<Event>, now: int)
    requires SenderModel.Inv(s)
    ensures RetryCount(s, es) <= 10
    ensures RetryCount(s, es) == 10 && Due(Served(s, es), now) ==>
      Timeout(Served(s, es), now).mode == SenderModel.Failed
  {
    RetriesDouble(s, es);
    if RetryCount(s, es) == 10 && Due(Served(s, es), now) {
      Rto.PowerOfTwoAtMost1024(10);
      DueTimeoutGivesUp(Served(s, es), now);
    }
  }

  /** A fresh connection, whose timeout is six seconds, gives up at the third due timer. */
  lemma FreshSenderRetriesTwice(s: Snd, es: seq<Event>)
    requires SenderModel.Inv(s) && s.est == Rto.Initial()
    ensures RetryCount(s, es) <= 2
    ensures Served(s, es).est.rto == [6000.0, 12000.0, 24000.0][RetryCount(s, es)]
  {
    FreshTimeout(s, es);
  }

  lemma {:induction false} FreshTimeout(s: Snd, es: seq<Event>)
    requires SenderModel.Inv(s) && s.est.rto == 6000.0
    ensures SenderModel.Inv(Served(s, es)) && RetryCount(s, es) <= 2
    ensures Served(s, es).est.rto == [6000.0, 12000.0, 24000.0][RetryCount(s, es)]
  {
    if es != [] {
      var front, e := es[..|es| - 1], es[|es| - 1];
      FreshTimeout(s, front);
      ServeKeepsInv(Served(s, front), e);
      if Retries(Served(s, front), e) {
        RetryIsBelowLimit(Served(s, front), e.now);
        DueTimeoutDoubles(Served(s, front), e.now);
      }
    }
  }

  // ---------- how long a timer runs ----------

  /** A packet's timer is registered when it is sent, and runs for one timeout for each packet
      from the base to the end of the window, and one more. */
  lemma TimerOfSentPacket(s: Snd, now: int)
    requires SenderModel.Inv(s) && CanTransmit(s)
    ensures var t, k, window := Transmit(s, now), |s.stamps|, s.start + s.wndPos - s.base;
      && window >= 1
      && |t.stamps| == k + 1 && t.stamps[..k] == s.stamps
      && t.stamps[k].reg == now && t.stamps[k].fire == now + s.est.rto.Floor * (window + 1)
      && t.est == s.est
  {
  }

  /** The first packet of a fresh connection has twelve seconds. */
  lemma FirstTimer(iss: int, wnd: U16, pieces: seq<seq<Byte>>, now: int)
    requires pieces != [] && wnd >= 1
    ensures var s := Begin(SenderModel.Initial(iss, wnd), pieces);
      CanTransmit(s) && Transmit(s, now).stamps == [Stamp(now + 12000, now)]
  {
  }

  ghost predicate Patient(stamps: seq<Stamp>) {
    forall x :: x in stamps ==> x.fire >= x.reg + 32
  }

  lemma TransmitIsPatient(s: Snd, now: int)
    requires SenderModel.Inv(s) && CanTransmit(s) && Patient(s.stamps)
    ensures Patient(Transmit(s, now).stamps)
  {
    TimerOfSentPacket(s, now);
    var window := s.start + s.wndPos - s.base;
    AtLeastTwice(s.est.rto.Floor, window);
    var last := Transmit(s, now).stamps[|s.stamps|];
    assert Transmit(s, now).stamps == s.stamps + [last];
  }

  lemma AtLeastTwice(ms: int, window: int)
    requires ms >= 16 && window >= 1
    ensures ms * (window + 1) >= 32
  {
    assert ms * (window - 1) >= 0;
    assert ms * (window + 1) == ms * (window - 1) + 2 * ms;
  }

  /** Acks and timeouts start no timer. */
  lemma NoNewTimers(s: Snd, ack: Option<int>, wnd: Option<U16>, now: int)
    ensures forall x :: x in OnAck(s, ack, wnd, now).stamps ==> x in s.stamps
    ensures forall x :: x in Timeout(s, now).stamps ==> x in s.stamps
  {
    if ack.Some? {
      var noted := NoteRepeated(s, ack.value);
      assert noted.stamps == s.stamps || noted.stamps == [];
      if ack.value > s.base {
        NewAckStages(noted, ack.value, wnd, now);
      }
    }
  }

  lemma StepIsPatient(s: Sys, x: Action)
    requires SysInv(s) && Enabled(s, x) && Patient(s.snd.stamps)
    ensures Patient(Do(s, x).snd.stamps)
  {
    match x
    case SendPacket(now) => TransmitIsPatient(s.snd, now);
    case SenderTimer(now) => NoNewTimers(s.snd, None, None, now);
    case DeliverAck(a, w, now) => NoNewTimers(s.snd, Some(Reading(s.snd.base, Wire(a))), Some(w), now);
    case _ =>
  }

  lemma NextIsPatient(s: Sys, t: Sys)
    requires SysInv(s) && Next(s, t) && Patient(s.snd.stamps)
    ensures Patient(t.snd.stamps)
  {
    var x :| Enabled(s, x) && t == Do(s, x);
    StepIsPatient(s, x);
  }

  lemma StartIsPatient(iss: int, wnd: U16)
    ensures Patient(Start(iss, wnd).snd.stamps)
  {
  }

  lemma {:induction false} RunIsPatient(iss: int, wnd: U16, trace: seq<Sys>, i: nat)
    requires Run(iss, wnd, trace) && i < |trace|
    ensures Patient(trace[i].snd.stamps)
  {
    if i == 0 {
      StartIsPatient(iss, wnd);
    } else {
      RunIsPatient(iss, wnd, trace, i - 1);
      RunKeepsInv(iss, wnd, trace, i - 1);
      assert Next(trace[i - 1], trace[i]);
      NextIsPatient(trace[i - 1], trace[i]);
    }
  }

  /** In every state of every run: a timer is due at the earliest 32 ms after its packet was sent,
      and until the first one is, the timeout handler does nothing. */
  lemma NoTimerIsEarly(iss: int, wnd: U16, trace: seq<Sys>, i: nat, now: int)
    requires Run(iss, wnd, trace) && i < |trace|
    ensures forall x :: x in trace[i].snd.stamps ==> x.fire >= x.reg + 32
    ensures trace[i].snd.stamps != [] && now < trace[i].snd.stamps[0].reg + 32 ==>
      Timeout(trace[i].snd, now) == trace[i].snd
  {
    RunIsPatient(iss, wnd, trace, i);
  }
}
