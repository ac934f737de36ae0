/**
  The sending half of UMPSocket with its 16-bit fields.  `g` is the unbounded state of
  module SenderModel; Valid() says that every field is the wire form of its part of `g`
  and that the timer list holds one timer for each packet in flight.  Each handler is
  proved to compute the model's function.
 */
module Sender {
  import opened Circular
  import opened Message
  import opened Packets
  import opened SenderModel
  import opened Timers
  import CongestionControl
  import Retransmission
  import Rto

  class SendHalf {
    var theirWnd: U16
    var ourDataStartSeq: U16
    var ourDataSeqBase: U16
    var ourBackPoint: U16
    var ourDataPos: int
    var ourDataSent: U16
    var ourWndPos: int
    var ourCwnd: U16
    var ourSsthresh: U16
    var ourMsgLastSeq: U16
    var lastRefreshCwnd: int
    var fastRetran: bool
    var ackRepCount: int
    var sndLocked: bool
    var sndPackets: seq<DataPacket>
    var sndPacketsCount: int
    var sndOk: bool
    const rto: Rto.RtoComputer
    const tm: TimerList
    ghost var g: Snd

    /** The 16-bit fields are the wire forms of the unbounded ones. */
    ghost predicate Tied()
      reads this, rto
    {
      && theirWnd == g.theirWnd
      && ourDataStartSeq == Wire(g.start)
      && ourDataSeqBase == Wire(g.base)
      && ourBackPoint == g.back
      && ourDataPos == g.dataPos
      && ourDataSent == Wire(g.sent)
      && ourWndPos == g.wndPos
      && ourCwnd == g.cwnd
      && ourSsthresh == g.ssthresh
      && lastRefreshCwnd == g.refreshed
      && fastRetran == g.fast
      && ackRepCount == g.rep
      && rto.View() == g.est
      && CallTied()
    }

    ghost predicate CallTied()
      reads this
    {
      && sndLocked == (g.mode == Active)
      && sndPacketsCount == |g.msg|
      && (g.mode == Active || g.mode == Aborted ==> ourMsgLastSeq == Wire(g.last))
      && (g.mode == Active ==> Numbered(sndPackets, g.msg, g.start))
    }

    /** One timer for each packet from `from` on, in order. */
    ghost predicate TimersTied(from: int)
      reads this, tm
    {
      && |tm.entries| == |g.stamps|
      && forall i :: 0 <= i < |g.stamps| ==>
        tm.entries[i] == TmEntry(Wire(from + i), g.stamps[i].fire, g.stamps[i].reg)
    }

    ghost predicate Valid()
      reads this, rto, tm
    {
      Tied() && TimersTied(g.base) && Inv(g)
    }

    constructor (iss: U16, wnd: U16)
      ensures Valid() && fresh(rto) && fresh(tm)
      ensures g == Initial(iss, wnd)
    {
      theirWnd := wnd;
      ourDataStartSeq := iss;
      ourDataSeqBase := iss;
      ourBackPoint := 0;
      ourDataPos := 0;
      ourDataSent := 0;
      ourWndPos := 0;
      ourCwnd := 1;
      ourSsthresh := INITIAL_SSTHRESH;
      ourMsgLastSeq := 0;
      lastRefreshCwnd := 0;
      fastRetran := false;
      ackRepCount := 0;
      sndLocked := false;
      sndPackets := [];
      sndPacketsCount := 0;
      sndOk := false;
      rto := new Rto.RtoComputer();
      tm := new TimerList();
      g := Initial(iss, wnd);
      new;
      InitialInv(iss, wnd);
    }

    /** The timers are those of the packets in flight: one for each number from the base up to
        the packet before the send position, in order. */
    lemma TimersAreInFlight()
      requires Valid() && (g.mode == Active || g.mode == Aborted)
      ensures Consecutive(tm.entries, g.base)
      ensures |tm.entries| == g.start + g.dataPos - g.base
      ensures g.mode == Active ==> |tm.entries| == ourDataPos - SeqToRelative(ourDataStartSeq, ourDataSeqBase)
    {
      RelativeRefinesIntegers(g.start, g.base);
    }

    // ---------- helpers ----------

    /** ump_refresh_snd_wnd_pos */
    method RefreshWndPos()
      requires Tied() && 0 <= g.base - g.start <= HALF + 1
      modifies this
      ensures g == RefreshWindow(old(g)) && Tied()
      ensures sndPackets == old(sndPackets)
    {
      var edge := Wire(ourDataSeqBase + Min(theirWnd, ourCwnd));
      WindowLimit(g.start, g.base, Min(theirWnd, ourCwnd));
      ourWndPos := Min(sndPacketsCount, SeqToRelative(ourDataStartSeq, edge));
      g := RefreshWindow(g);
    }

    /** ump_refresh_back_point */
    method RefreshBackPoint(backPoint: U16)
      requires Tied()
      modifies this`ourBackPoint, this`g
      ensures g == RaiseBackPoint(old(g), backPoint) && Tied()
    {
      if CmpInBase(ourDataSeqBase, ourBackPoint, backPoint) < 0 {
        ourBackPoint := backPoint;
      }
      g := RaiseBackPoint(g, backPoint);
    }

    /** ump_refresh_data_sent */
    method RefreshDataSent(ghost n: int, num: U16)
      requires Tied() && Near(g.base, g.sent) && Near(g.base, n) && num == Wire(n)
      modifies this`ourDataSent, this`g
      ensures g == old(g).(sent := Max(old(g).sent, n)) && Tied()
    {
      CmpRefinesIntegers(g.base, g.sent, n);
      if CmpInBase(ourDataSeqBase, ourDataSent, num) < 0 {
        ourDataSent := num;
      }
      g := g.(sent := Max(g.sent, n));
    }

    /** ump_end_send: only a locked call is ended. */
    method EndSend(result: bool)
      requires Tied()
      modifies this
      ensures Tied()
      ensures g == if result then Complete(old(g)) else Abort(old(g))
      ensures old(sndLocked) ==> sndOk == result
    {
      if !sndLocked {
        return;
      }
      sndLocked := false;
      sndOk := result;
      if result {
        WireAdd(g.start, sndPacketsCount);
        ourDataStartSeq := Wire(ourDataStartSeq + sndPacketsCount);
      }
      sndPackets := [];
      sndPacketsCount := 0;
      g := if result then Complete(g) else Abort(g);
    }

    /** A blocked send call ends with FALSE when the user closes the connection
        (ump_established_handle_ctrl) or an error ends it (ump_connection_error_occured). */
    method CloseSend(failed: bool)
      requires Valid()
      modifies this
      ensures Valid()
      ensures g == if failed then Fail(old(g)) else Abort(old(g))
      ensures !sndLocked && (old(sndLocked) ==> !sndOk)
    {
      AbortKeepsInv(g);
      ghost var before := g;
      EndSend(false);
      if failed {
        g := Fail(before);
      }
    }

    // ---------- a send call ----------

    /** ump_sndunlocked_handle_snd, ump_sndlocked_handle_snd; `posted` is what a user thread
        has left for the socket thread, `established` says that the connection is up.  A
        message of any length is started. */
    method HandleSnd(posted: Option<seq<seq<Byte>>>, established: bool)
      requires Valid()
      requires established ==> g.mode == Idle || g.mode == Active
      modifies this
      ensures Valid()
      ensures g == if !old(sndLocked) && posted.Some? && established && posted.value != []
                   then Begin(old(g), posted.value) else old(g)
      ensures !old(sndLocked) && posted.Some? && g == old(g) ==> !sndOk
    {
      if sndLocked || posted.None? {
        return;
      }
      if |posted.value| < 1 || !established {
        sndOk := false;
        return;
      }
      BeginKeepsInv(g, posted.value);
      StartMessage(posted.value);
    }

    method StartMessage(pieces: seq<seq<Byte>>)
      requires Tied() && pieces != [] && g.base == g.start
      modifies this
      ensures Tied() && g == Begin(old(g), pieces)
    {
      sndPacketsCount := |pieces|;
      sndLocked := true;
      sndPackets, ourMsgLastSeq := NumberPackets(pieces, ourDataStartSeq, g.start);
      ourDataPos := 0;
      g := g.(mode := Active, msg := pieces, last := g.start + |pieces| - 1, dataPos := 0);
      RefreshWndPos();
    }

    // ---------- sending ----------

    /** The time a packet's timer runs: the timeout for each packet of the window. */
    method Patience() returns (ms: int)
      requires Tied() && Near(g.base, g.start + g.wndPos) && g.wndPos >= 0
      ensures ms == Rto.Millis(g.est) * Max(1, g.start + g.wndPos - g.base + 1)
    {
      var limit := RelativeToSeq(ourDataStartSeq, ourWndPos);
      WireAdd(g.start, ourWndPos);
      CmpRefinesIntegers(g.base, g.start + g.wndPos, g.base);
      var wndTrue := Max(1, CmpInBase(ourDataSeqBase, limit, ourDataSeqBase) + 1);
      var timeout := rto.GetRto();
      ms := timeout * wndTrue;
    }

    /** ump_sndlocked_handle_send_data, ump_sndunlocked_handle_send_data: the next packet of
        the window with the pending ack on it, or the ack alone, or nothing. */
    method HandleSendData(ack: Option<AckInfo>, now: int) returns (out: Option<DataPacket>)
      requires Valid()
      modifies this, tm
      ensures Valid()
      ensures CanTransmit(old(g)) ==>
        && g == Transmit(old(g), now) && 0 <= old(g).dataPos < |old(g).msg|
        && out == Some(DataPacket(Some(Wire(TransmittedNumber(old(g)))), TransmittedChunk(old(g)), ack))
      ensures !CanTransmit(old(g)) ==>
        g == old(g) && out == (if ack.Some? then Some(AckAlone(ack.value)) else None)
      ensures CanTransmit(old(g)) ==>
        tm.entries == old(tm.entries) + [TmEntry(Wire(TransmittedNumber(old(g))),
          now + old(rto.rto).Floor * (old(g).start + old(ourWndPos) - old(g).base + 1), now)]
    {
      if sndLocked && ourDataPos < ourWndPos {
        TransmitKeepsInv(g, now);
        Retransmission.TimerOfSentPacket(g, now);
        NumbersAreNear(g);
        var p := SendNext(ack, now);
        out := Some(p);
      } else {
        out := if ack.Some? then Some(AckAlone(ack.value)) else None;
      }
    }

    method SendNext(ack: Option<AckInfo>, now: int) returns (p: DataPacket)
      requires Tied() && TimersTied(g.base) && g.mode == Active
      requires 0 <= g.dataPos < |g.msg| && g.dataPos < g.wndPos
      requires Near(g.base, g.sent) && Near(g.base, g.start + g.dataPos) && Near(g.base, g.start + g.wndPos)
      requires |g.stamps| == g.start + g.dataPos - g.base
      modifies this, tm
      ensures Tied() && TimersTied(g.base) && g == Transmit(old(g), now)
      ensures p == DataPacket(Some(Wire(TransmittedNumber(old(g)))), TransmittedChunk(old(g)), ack)
    {
      ghost var before := g;
      sndPackets := sndPackets[ourDataPos := sndPackets[ourDataPos].(ack := ack)];
      p := sndPackets[ourDataPos];
      var patience := Patience();
      tm.RegisterPacket(p.num.value, patience, now);
      RefreshDataSent(TransmittedNumber(before), p.num.value);
      ourDataPos := ourDataPos + 1;
      g := Transmit(before, now);
    }

    // ---------- timeouts ----------

    /** The steps that a timeout and a fast retransmission share (ump_sock.c:695-699,
        758-764), the timers apart. */
    method GoBack()
      requires Tied() && 0 <= g.base - g.start <= HALF + 1 && g.dataPos >= 0
      modifies this`ourBackPoint, this`ourDataPos, this`ackRepCount, this`g, rto
      ensures Tied() && g == Rewind(old(g))
    {
      ghost var before := g;
      WireAdd(g.start, g.dataPos);
      RefreshBackPoint(RelativeToSeq(ourDataStartSeq, ourDataPos));
      BasePosition(g);
      ourDataPos := SeqToRelative(ourDataStartSeq, ourDataSeqBase);
      ackRepCount := 0;
      rto.TimeoutOccurred();
      g := Rewind(before);
    }

    /** ump_handle_data_timeout; `gaveUp` means that the connection is to be dropped. */
    method HandleDataTimeout(now: int) returns (gaveUp: bool)
      requires Valid() && g.mode != Failed
      modifies this, tm, rto
      ensures Valid()
      ensures g == Timeout(old(g), now)
      ensures gaveUp <==> Fires(old(g), now) && GivesUp(old(g))
      ensures Retransmission.Due(old(g), now) && !gaveUp ==>
        rto.rto == (if old(rto.rto) <= 45000.0 then old(rto.rto) * 2.0 else 90000.0)
        && (rto.a, rto.d) == old((rto.a, rto.d)) && tm.entries == []
      ensures gaveUp ==> !sndLocked && (old(sndLocked) ==> !sndOk)
    {
      TimeoutKeepsInv(g, now);
      if Retransmission.Due(g, now) && !GivesUp(g) {
        Retransmission.DueTimeoutDoubles(g, now);
      }
      NumbersAreNear(g);
      var fired, num := tm.GetNextTimeout(now);
      if !fired {
        return false;
      }
      var ms := rto.GetRto();
      if ms >= Rto.TIMEOUT_LIMIT {
        ghost var before := g;
        EndSend(false);
        g := Fail(before.(stamps := []));
        return true;
      }
      Retreat();
      return false;
    }

    method Retreat()
      requires Tied() && 0 <= g.base - g.start <= HALF + 1 && g.dataPos >= 0 && tm.entries == []
      modifies this, rto
      ensures Tied() && TimersTied(g.base)
      ensures g == RefreshWindow(Rewind(old(g).(ssthresh := Max(old(g).cwnd / 2, 2), cwnd := 1)).(fast := false))
    {
      ourSsthresh := Max(ourCwnd / 2, 2);
      ourCwnd := 1;
      g := g.(ssthresh := ourSsthresh, cwnd := 1);
      GoBack();
      fastRetran := false;
      g := g.(fast := false);
      RefreshWndPos();
    }

    // ---------- acks ----------

    /** Counting repeated acks, and the fast retransmission (ump_sock.c:748-766). */
    method NoteRepeatedAck(ackSeq: U16, ghost a: int)
      requires Tied() && TimersTied(g.base) && a == Reading(g.base, ackSeq)
      requires Near(g.base, g.sent) && 0 <= g.base - g.start <= HALF + 1 && g.dataPos >= 0
      modifies this, tm, rto
      ensures Tied() && TimersTied(g.base) && g == NoteRepeated(old(g), a)
    {
      CmpRefinesIntegers(g.base, g.base, g.sent);
      SameNumber(g.base, ackSeq);
      if ackSeq == ourDataSeqBase && CmpInBase(ourDataSeqBase, ourDataSeqBase, ourDataSent) > 0 {
        ackRepCount := ackRepCount + 1;
        g := g.(rep := ackRepCount);
      }
      if ackRepCount > 1 {
        RetransmitFast();
      }
    }

    method RetransmitFast()
      requires Tied() && 0 <= g.base - g.start <= HALF + 1 && g.dataPos >= 0
      modifies this, tm, rto
      ensures Tied() && TimersTied(g.base) && g == FastRetransmit(old(g))
    {
      GoBack();
      ourCwnd := Wire(Max(ourSsthresh + 3, 1));
      fastRetran := true;
      tm.Clear();
      g := g.(cwnd := ourCwnd, fast := true);
    }

    /** ump_sock.c:774-777; the timers below the new base are left for SettleTimers. */
    method AdvanceBase(ackSeq: U16, ghost a: int)
      requires Tied() && a == Reading(g.base, ackSeq) && a > g.base
      modifies this
      ensures Tied() && g == Advance(old(g), a)
    {
      ourDataSeqBase := ackSeq;
      ackRepCount := 0;
      g := g.(base := a, rep := 0);
      RefreshBackPoint(ourDataSeqBase);
    }

    /** ump_handle_wnd_notify */
    method HandleWndNotify(wnd: Option<U16>)
      requires Tied() && 0 <= g.base - g.start <= HALF + 1
      modifies this
      ensures Tied() && g == Notify(old(g), wnd)
    {
      if wnd.Some? {
        theirWnd := wnd.value;
        g := g.(theirWnd := wnd.value);
        RefreshWndPos();
      }
    }

    /** Fast recovery, slow start, congestion avoidance (ump_sock.c:788-805). */
    method AdjustCwnd(now: int)
      requires Tied()
      modifies this
      ensures Tied() && g == Congest(old(g), now)
    {
      ghost var before := g;
      if fastRetran {
        fastRetran := false;
        ourCwnd := Max(ourSsthresh, 1);
      } else if ourCwnd < ourSsthresh {
        ourCwnd := Wire(Max(ourCwnd + 1, ourCwnd));
        lastRefreshCwnd := now;
      } else {
        var estRtt := rto.GetEstimatedRtt();
        if now - lastRefreshCwnd >= estRtt {
          ourCwnd := Wire(Max(ourCwnd + 1, ourCwnd));
          lastRefreshCwnd := now;
        }
      }
      g := Congest(before, now);
    }

    /** The send position, the timers and the round-trip sample (ump_sock.c:807-817). */
    method SettleTimers(ackSeq: U16, ghost a: int, ghost k: nat, now: int)
      requires Tied() && TimersTied(a - k) && ackSeq == Wire(a)
      requires a == g.base && k > 0 && 0 <= a - g.start <= HALF + 1 && |g.stamps| <= HALF && k <= HALF
      requires g.stamps != [] ==> a - k <= g.sent < a - k + MODULUS - 1 && a <= g.sent + 1
      modifies this, tm, rto
      ensures Tied() && TimersTied(g.base) && g == Settle(old(g), a, k, now)
    {
      ghost var before := g;
      BasePosition(g);
      if ourDataPos < SeqToRelative(ourDataStartSeq, ourDataSeqBase) {
        ourDataPos := SeqToRelative(ourDataStartSeq, ourDataSeqBase);
      }
      g := g.(dataPos := ourDataPos);
      var rtt := AckTimers(ackSeq, a, k, now);
      if rtt >= 0 {
        if ackSeq >= ourBackPoint {
          rto.RefreshRtt(if rtt == 0 then RTT_MIN_MS else rtt);
        }
      }
      g := Settle(before, a, k, now);
    }

    method AckTimers(ackSeq: U16, ghost a: int, ghost k: nat, now: int) returns (rtt: int)
      requires TimersTied(a - k) && ackSeq == Wire(a) && ourDataSent == Wire(g.sent)
      requires k > 0 && |g.stamps| <= HALF && k <= HALF
      requires g.stamps != [] ==> a - k <= g.sent < a - k + MODULUS - 1 && a <= g.sent + 1
      modifies this`g, tm
      ensures g == old(g).(stamps := AckStamps(old(g).stamps, k)) && TimersTied(a)
      ensures rtt == RoundTrip(old(g).stamps, k, now)
    {
      if g.stamps != [] {
        InRangeIsInterval(a - k, g.sent, a);
        AckedPosition(tm.entries, a - k, a);
      }
      rtt := tm.AckPacket(ackSeq, ourDataSent, now);
      g := g.(stamps := AckStamps(g.stamps, k));
    }

    /** ump_handle_data_ack.  The field is read relative to the base.  The sender stays valid
        exactly when the ack does not cover a packet that was never sent, see
        RangeCheckProtects, and does not end the call too early, see module MessageSize. */
    method HandleDataAck(ackField: Option<U16>, wnd: Option<U16>, now: int)
      requires Valid() && g.mode != Failed
      modifies this, tm, rto
      ensures Tied() && TimersTied(g.base)
      ensures Valid() <==> (ackField.Some? ==>
        var a := Reading(old(g).base, ackField.value);
        Honest(old(g), a) && !EndsTooEarly(old(g), a))
      ensures g == OnAck(old(g), if ackField.None? then None else Some(Reading(old(g).base, ackField.value)), wnd, now)
      ensures old(g).mode == Active && g.mode == Idle ==> sndOk
      ensures ackField.Some? && CongestionControl.IsNew(old(g), Reading(old(g).base, ackField.value)) ==>
        CongestionControl.OpensExactly(old(g), g, now)
    {
      ghost var ack := if ackField.None? then None else Some(Reading(g.base, ackField.value));
      AckKeepsInv(g, ack, wnd, now);
      CongestionControl.AckOpensExactly(g, ack, wnd, now);
      NumbersAreNear(g);
      if ackField.None? {
        HandleWndNotify(wnd);
        return;
      }
      var ackSeq := ackField.value;
      ghost var a := ack.value;
      NoteRepeatedKeeps(g, a);
      NoteRepeatedAck(ackSeq, a);
      NumbersAreNear(g);
      HandleAckInRange(ackSeq, a, wnd, now);
    }

    /** The range check and what follows it (ump_sock.c:768-784). */
    method HandleAckInRange(ackSeq: U16, ghost a: int, wnd: Option<U16>, now: int)
      requires Valid() && g.mode != Failed && a == Reading(g.base, ackSeq)
      requires Near(g.base, g.sent) && Near(g.start, g.base)
      modifies this, tm, rto
      ensures Tied() && TimersTied(g.base)
      ensures g == if !Accepts(old(g), a) then old(g)
                   else if a == old(g).base then Notify(old(g), wnd) else OnNewAck(old(g), a, wnd, now)
      ensures old(g).mode == Active && g.mode == Idle ==> sndOk
    {
      var accepted, ackDiff := CheckRange(ackSeq, a);
      if !accepted {
        return;
      }
      if ackDiff == 0 {
        HandleWndNotify(wnd);
      } else {
        ReadingIsNear(g.base, ackSeq);
        NewAckFacts(g, a);
        HandleNewAck(ackSeq, a, wnd, now);
      }
    }

    method CheckRange(ackSeq: U16, ghost a: int) returns (accepted: bool, ackDiff: int)
      requires Tied() && a == Reading(g.base, ackSeq) && Near(g.base, g.sent)
      ensures accepted <==> Accepts(g, a)
      ensures ackDiff == a - g.base
    {
      ReadingIsNear(g.base, ackSeq);
      CmpRefinesIntegers(g.base, a, g.base);
      CmpRefinesIntegers(g.base, a, g.sent);
      ackDiff := CmpInBase(ourDataSeqBase, ackSeq, ourDataSeqBase);
      accepted := !(ackDiff < 0 || CmpInBase(ourDataSeqBase, ackSeq, ourDataSent) > 1);
    }

    /** ump_sock.c:772-820 */
    method HandleNewAck(ackSeq: U16, ghost a: int, wnd: Option<U16>, now: int)
      requires Tied() && TimersTied(g.base) && a == Reading(g.base, ackSeq) && NewAckReady(g, a)
      modifies this, tm, rto
      ensures Tied() && TimersTied(g.base) && g == OnNewAck(old(g), a, wnd, now)
      ensures old(g).mode == Active && g.mode == Idle ==> sndOk
    {
      ghost var before := g;
      ReadingIsNear(g.base, ackSeq);
      NewAckStages(g, a, wnd, now);
      MoveWindow(ackSeq, a, wnd, now);
      SettleAndComplete(ackSeq, a, a - before.base, now);
    }

    /** ump_sock.c:806-820 */
    method SettleAndComplete(ackSeq: U16, ghost a: int, ghost k: nat, now: int)
      requires Tied() && TimersTied(a - k) && ackSeq == Wire(a)
      requires a == g.base && k > 0 && 0 <= a - g.start <= HALF + 1 && |g.stamps| <= HALF && k <= HALF
      requires g.stamps != [] ==> a - k <= g.sent < a - k + MODULUS - 1 && a <= g.sent + 1
      requires g.mode != Failed
      modifies this, tm, rto
      ensures Tied() && TimersTied(g.base)
      ensures g == if EndsCall(old(g).last, a) then Complete(Settle(old(g), a, k, now)) else Settle(old(g), a, k, now)
      ensures old(g).mode == Active && g.mode == Idle ==> sndOk
    {
      SettleTimers(ackSeq, a, k, now);
      CompleteIfLast(ackSeq, a);
    }

    /** ump_sock.c:774-805 */
    method MoveWindow(ackSeq: U16, ghost a: int, wnd: Option<U16>, now: int)
      requires Tied() && a == Reading(g.base, ackSeq) && a > g.base
      requires 0 <= a - g.start <= HALF + 1
      modifies this
      ensures Tied() && g == Congest(Notify(Advance(old(g), a), wnd), now)
    {
      AdvanceBase(ackSeq, a);
      HandleWndNotify(wnd);
      AdjustCwnd(now);
    }

    /** The message's last packet is acked (ump_sock.c:818-820). */
    method CompleteIfLast(ackSeq: U16, ghost a: int)
      requires Tied() && a == g.base && ackSeq == Wire(a)
      requires g.mode != Failed
      modifies this
      ensures Tied() && g == if EndsCall(old(g).last, a) then Complete(old(g)) else old(g)
      ensures old(g).mode == Active && g.mode == Idle ==> sndOk
    {
      ReadingIsNear(a, Wire(g.last));
      CmpRefinesIntegers(a, a, Reading(a, Wire(g.last)));
      if CmpInBase(ourDataSeqBase, ackSeq, ourMsgLastSeq) > 0 {
        EndSend(true);
      }
    }
  }

  /** What the handling of a new ack relies on. */
  ghost predicate NewAckReady(s: Snd, a: int) {
    && s.base < a <= s.base + HALF
    && 0 <= a - s.start <= HALF + 1
    && s.mode != Failed
    && |s.stamps| <= HALF
    && s.base <= s.sent < s.base + MODULUS - 1 && a <= s.sent + 1
  }

  lemma NewAckFacts(s: Snd, a: int)
    requires Inv(s) && s.mode != Failed && Accepts(s, a) && a != s.base && a <= s.base + HALF
    ensures NewAckReady(s, a)
  {
    NumbersAreNear(s);
  }

  lemma BasePosition(s: Snd)
    requires 0 <= s.base - s.start <= HALF + 1
    ensures SeqToRelative(Wire(s.start), Wire(s.base)) == BasePos(s)
  {
    if s.base - s.start <= HALF {
      RelativeRefinesIntegers(s.start, s.base);
    } else {
      WireLap(s.base);
      RelativeRefinesIntegers(s.start, s.base - MODULUS);
    }
  }

  /** A number reads as the base exactly when it is the base's own wire form. */
  lemma SameNumber(base: int, x: U16)
    ensures Reading(base, x) == base <==> x == Wire(base)
  {
    if x == Wire(base) {
      NearOffset(base, base);
    }
  }

  predicate Numbered(packets: seq<DataPacket>, msg: seq<seq<Byte>>, start: int) {
    && |packets| == |msg|
    && forall i :: 0 <= i < |msg| ==>
      packets[i].num == Some(Wire(start + i)) && packets[i].chunk == Chunk(i == |msg| - 1, msg[i])
  }

  /** Numbers a message's packets in sending order and marks the last one (ump_sock.c:349-359). */
  method NumberPackets(pieces: seq<seq<Byte>>, startSeq: U16, ghost start: int)
    returns (packets: seq<DataPacket>, lastSeq: U16)
    requires pieces != [] && startSeq == Wire(start)
    ensures Numbered(packets, pieces, start)
    ensures lastSeq == Wire(start + |pieces| - 1)
  {
    var count := |pieces|;
    packets := seq(count, i requires 0 <= i < count => DataPacket(None, Chunk(false, pieces[i]), None));
    var num: int := startSeq;
    var i := 0;
    while i < count
      invariant 0 <= i <= count == |packets|
      invariant num == Wire(start + i)
      invariant forall j :: 0 <= j < i ==> packets[j].num == Some(Wire(start + j))
      invariant forall j :: 0 <= j < count ==> packets[j].chunk == Chunk(false, pieces[j])
    {
      packets := packets[i := packets[i].(num := Some(num))];
      WireSucc(start + i);
      num := Wire(num + 1);
      i := i + 1;
    }
    var end := packets[count - 1];
    packets := packets[count - 1 := end.(chunk := Chunk(true, end.chunk.data))];
    WireAdd(start + count, -1);
    lastSeq := Wire(num - 1);
  }

  /** The 16-bit window limit is the model's, for every window and every position. */
  lemma WindowLimit(start: int, base: int, window: int)
    requires 0 <= base - start <= HALF + 1 && 0 <= window < MODULUS
    ensures var acked := base - start;
      SeqToRelative(Wire(start), Wire(Wire(base) + window))
        == if acked + window <= HALF then acked + window else acked + window - MODULUS
  {
    var r := base - start + window;
    WireAdd(base, window);
    if r <= HALF {
      RelativeRefinesIntegers(start, base + window);
    } else {
      WireLap(base + window);
      RelativeRefinesIntegers(start, base + window - MODULUS);
    }
  }
}
