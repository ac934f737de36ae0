/**
  The control half of UMPSocket as the socket thread runs it: the tables of state functions
  and of lock functions (ump_sock.c:126-290, 611-650, 1009-1559).  View() is the value of
  module ControlModel; each handler is proved to compute the model's function, and says
  what it means for the user's call that it ends.
 */
module Control {
  import opened Circular
  import opened Message
  import opened ControlModel
  import ControlPackets
  import Rto

  class ControlHalf {
    var state: State
    var ourCtrlSeq: U16
    var theirCtrlSeq: U16
    var theirDataSeqBase: U16
    var ctrlPacketToSend: Option<CtrlPacket>
    var ctrlPacketSent: bool
    var ctrlRto: int
    var ctrlAckSet: bool
    var ctrlAckData: U16
    var synReced: bool
    var synAckReced: bool
    var finReced: bool
    var finAckReced: bool
    var errorOccured: bool
    var ctrlPara: Option<Call>
    var ctrlLocked: bool
    var ctrlParaLockHeld: bool
    var ctrlOk: bool
    ghost var issued: nat
    ghost var done: seq<Outcome>

    ghost function View(): Ctrl
      reads this
    {
      Ctrl(state, LinkView(), CallsView(), errorOccured)
    }

    ghost function LinkView(): Link
      reads this
    {
      Link(ourCtrlSeq, theirCtrlSeq, theirDataSeqBase, ctrlPacketToSend, ctrlPacketSent, ctrlRto,
           if ctrlAckSet then Some(ctrlAckData) else None, synReced, synAckReced, finReced, finAckReced)
    }

    ghost function CallsView(): Calls
      reads this
    {
      Calls(ctrlPara, ctrlLocked, ctrlParaLockHeld, issued, done)
    }

    ghost predicate Valid()
      reads this
    {
      ControlModel.Inv(View())
    }

    constructor (iss: U16)
      ensures Valid() && View() == Initial(iss)
    {
      state := Closed;
      ourCtrlSeq, theirCtrlSeq, theirDataSeqBase := iss, 0, 0;
      ctrlPacketToSend, ctrlPacketSent, ctrlRto := None, true, CTRL_TIMEOUT;
      ctrlAckSet, ctrlAckData := false, 0;
      synReced, synAckReced, finReced, finAckReced := false, false, false, false;
      errorOccured := false;
      ctrlPara, ctrlLocked, ctrlParaLockHeld, ctrlOk := None, false, false, false;
      issued, done := 0, [];
    }

    // ---------- calls ----------

    /** ump_sock_control_call up to the wait, in the user's thread. */
    method ControlCall(call: Call)
      requires Valid() && !ctrlParaLockHeld
      modifies this`ctrlPara, this`issued
      ensures View() == old(View()).(calls := Issue(old(CallsView()), call))
    {
      ctrlPara := Some(call);
      issued := issued + 1;
    }

    /** ump_ctrllocked_end_ctrl; the unlocked one changes nothing here. */
    method EndCtrl(kind: Option<Call>, result: bool)
      requires ctrlLocked ==> ctrlPara.Some?
      modifies this`ctrlPara, this`ctrlLocked, this`ctrlParaLockHeld, this`ctrlOk, this`done
      ensures View() == ControlModel.EndCtrl(old(View()), kind, result)
      ensures old(ctrlLocked) && !ctrlLocked ==> ctrlOk == result
      ensures old(ctrlLocked) == ctrlLocked ==> ctrlOk == old(ctrlOk)
    {
      if !ctrlLocked || (kind.Some? && ctrlPara.value != kind.value) {
        return;
      }
      done := done + [Outcome(ctrlPara.value, result, state)];
      ctrlOk := result;
      ctrlPara := None;
      ctrlLocked := false;
      ctrlParaLockHeld := false;
    }

    /** ump_change_state with ump_closed_enter_state and ump_established_enter_state */
    method ChangeTo(newState: State)
      requires ctrlLocked ==> ctrlPara.Some?
      modifies this`state, this`ctrlPara, this`ctrlLocked, this`ctrlParaLockHeld, this`ctrlOk, this`done
      ensures View() == ChangeState(old(View()), newState)
      ensures old(ctrlLocked) && !ctrlLocked ==> ctrlOk
      ensures old(ctrlLocked) == ctrlLocked ==> ctrlOk == old(ctrlOk)
    {
      state := newState;
      if newState == Closed {
        EndCtrl(Some(Close), true);
      } else if newState == Established {
        EndCtrl(Some(Connect), true);
      }
    }

    /** ump_closed_connect, ump_established_close: the packet replaces an unacked one. */
    method StartPacket(syn: bool)
      modifies this`ctrlPacketToSend, this`ctrlPacketSent, this`ctrlRto, this`ourCtrlSeq
      ensures View() == old(View()).(link := if syn then SendSyn(old(LinkView())) else SendFin(old(LinkView())))
    {
      ctrlPacketToSend := Some(CtrlPacket(syn, !syn, Some(ourCtrlSeq), None));
      ctrlPacketSent := false;
      ctrlRto := CTRL_TIMEOUT;
      ourCtrlSeq := Wire(ourCtrlSeq + 1);
    }

    /** ump_ctrlunlocked_handle_ctrl, ump_ctrlocked_handle_ctrl; `got` is what trylock returns. */
    method HandleCtrl(got: bool)
      requires Valid()
      modifies this
      ensures Valid() && View() == ControlModel.HandleCtrl(old(View()), got)
      ensures got && old(ctrlPara).Some? && !old(ctrlLocked) ==>
        && (ctrlLocked ==> WaitsFor(old(ctrlPara), state) && ctrlPara == old(ctrlPara))
        && (!ctrlLocked ==> ctrlPara.None? && done == old(done) + [Outcome(old(ctrlPara).value, ctrlOk, state)])
        && (!ctrlLocked ==>
             (ctrlOk <==> !errorOccured && state == if old(ctrlPara) == Some(Connect) then Established else Closed))
    {
      HandleCtrlKeepsInv(View(), got);
      if ctrlLocked || !got || ctrlPara.None? {
        return;
      }
      ctrlParaLockHeld := true;
      ctrlLocked := true;
      if errorOccured {
        EndCtrl(None, false);
      } else {
        ServeCall();
      }
    }

    /** The four handle_ctrl functions of the connection machine. */
    method ServeCall()
      requires ctrlLocked && ctrlPara.Some?
      modifies this
      ensures View() == Serve(old(View()), old(ctrlPara.value))
      ensures !ctrlLocked ==> (ctrlOk <==> state == if old(ctrlPara) == Some(Connect) then Established else Closed)
    {
      var call := ctrlPara.value;
      match state {
        case Closed =>
          if call == Connect {
            StartPacket(true);
            ChangeTo(Connecting);
          } else {
            EndCtrl(Some(Close), true);
          }
        case Connecting =>
          if call != Connect {
            EndCtrl(None, false);
          }
        case Established =>
          if call == Close {
            StartPacket(false);
            ChangeTo(Closing);
          } else {
            EndCtrl(Some(Connect), true);
          }
        case Closing =>
          if call != Close {
            EndCtrl(None, false);
          }
      }
    }

    /** ump_connection_error_occured */
    method ConnectionErrorOccured()
      requires Valid()
      modifies this
      ensures Valid() && View() == Fail(old(View()))
      ensures !ctrlLocked && (old(ctrlLocked) ==> (ctrlOk <==> old(ctrlPara) == Some(Close)))
      ensures !old(ctrlLocked) ==> ctrlOk == old(ctrlOk) && done == old(done)
    {
      FailKeepsInv(View());
      errorOccured := true;
      ChangeTo(Closed);
      EndCtrl(None, false);
    }

    // ---------- packets ----------

    method NoteNumber(p: CtrlPacket)
      modifies this`theirCtrlSeq, this`ctrlAckSet, this`ctrlAckData
      ensures View() == old(View()).(link := AckNumbered(old(LinkView()), p))
    {
      if p.num.Some? {
        if p.num.value == theirCtrlSeq {
          theirCtrlSeq := Wire(theirCtrlSeq + 1);
        }
        ctrlAckSet := true;
        ctrlAckData := theirCtrlSeq;
      }
    }

    /** The number of a packet, and whether it is the peer's FIN in its turn. */
    method NoteFin(p: CtrlPacket) returns (next: bool)
      modifies this`theirCtrlSeq, this`ctrlAckSet, this`ctrlAckData, this`finReced
      ensures next == IsNextFin(old(LinkView()), p)
      ensures View() == old(View()).(link := TakeFin(old(LinkView()), p))
    {
      next := p.fin && p.num.Some? && p.num.value == theirCtrlSeq;
      NoteNumber(p);
      if next {
        finReced := true;
      }
    }

    method NoteAck(ackNum: U16)
      modifies this`ctrlPacketToSend, this`ctrlPacketSent, this`ctrlRto
      ensures forall p: CtrlPacket :: p.ack == Some(ackNum) ==>
        View() == old(View()).(link := TakeAck(old(LinkView()), p))
    {
      if ourCtrlSeq == ackNum {
        ctrlPacketToSend := None;
        ctrlPacketSent := true;
        ctrlRto := CTRL_TIMEOUT;
      }
    }

    method NoteSyn(num: U16)
      modifies this`theirCtrlSeq, this`theirDataSeqBase, this`ctrlAckSet, this`ctrlAckData, this`synReced
      ensures View() == old(View()).(link := TakeSyn(old(LinkView()), num))
    {
      theirCtrlSeq := Wire(num + 1);
      theirDataSeqBase := num;
      ctrlAckSet := true;
      ctrlAckData := theirCtrlSeq;
      synReced := true;
    }

    /** ump_handle_ctrl_packet for one packet; a reset ends the connection. */
    method HandleCtrlPacket(p: CtrlPacket, rst: bool)
      requires Valid() && !errorOccured
      modifies this
      ensures Valid()
      ensures View() == if rst then Fail(old(View())) else HandlePacket(old(View()), p)
      ensures !rst && old(ctrlLocked) && !ctrlLocked ==>
        ctrlOk && Promised(old(ctrlPara).value, state, LinkView())
      ensures !rst && p.num.Some? ==> ctrlAckSet && ctrlAckData == theirCtrlSeq
      ensures !rst && p.num.None? && !p.syn ==> LinkView().ack == old(LinkView().ack)
    {
      if rst {
        ConnectionErrorOccured();
        return;
      }
      PacketKeepsInv(View(), p);
      ControlPackets.NumberIsAcked(View(), p);
      if ctrlLocked && !HandlePacket(View(), p).calls.locked {
        PacketEndsCall(View(), p);
      }
      match state {
        case Closed => HandleInClosed(p);
        case Connecting => HandleInConnecting(p);
        case Established => HandleInEstablished(p);
        case Closing => HandleInClosing(p);
      }
    }

    method HandleInClosed(p: CtrlPacket)
      requires !ctrlLocked
      modifies this
      ensures View() == ClosedPacket(old(View()), p)
    {
      if !synReced && p.syn {
        if p.num.None? {
          return;
        }
        NoteSyn(p.num.value);
        StartPacket(true);
        ChangeTo(Connecting);
      } else {
        NoteNumber(p);
      }
    }

    method HandleInConnecting(p: CtrlPacket)
      requires ctrlLocked ==> ctrlPara.Some?
      modifies this
      ensures View() == ConnectingPacket(old(View()), p)
      ensures old(ctrlLocked) && !ctrlLocked ==> ctrlOk
    {
      var stays := ReadInConnecting(p);
      if !stays && synReced && synAckReced {
        ChangeTo(Established);
      }
    }

    /** What the packet says, the change of state apart (ump_sock.c:1180-1223). */
    method ReadInConnecting(p: CtrlPacket) returns (stays: bool)
      modifies this
      ensures stays == StaysConnecting(old(LinkView()), p)
      ensures View() == old(View()).(link := ConnectingLink(old(LinkView()), p))
      ensures (ctrlLocked, ctrlPara, ctrlOk) == old((ctrlLocked, ctrlPara, ctrlOk))
    {
      if p.ack.Some? {
        NoteAck(p.ack.value);
        synAckReced := true;
      }
      stays := ReadSyn(p);
    }

    /** The SYN, or the packet's number; `stays` says that the state is not looked at
        (ump_sock.c:1193-1223). */
    method ReadSyn(p: CtrlPacket) returns (stays: bool)
      modifies this`theirCtrlSeq, this`theirDataSeqBase, this`ctrlAckSet, this`ctrlAckData, this`synReced
      ensures stays == StaysConnecting(old(LinkView()), p)
      ensures View() == old(View()).(link := SynRead(old(LinkView()), p))
    {
      if p.syn {
        if synReced {
          ctrlAckSet := true;
          ctrlAckData := theirCtrlSeq;
          return true;
        }
        if p.num.None? {
          return true;
        }
        NoteSyn(p.num.value);
      } else {
        NoteNumber(p);
      }
      return false;
    }

    method HandleInEstablished(p: CtrlPacket)
      requires ctrlLocked ==> ctrlPara.Some?
      modifies this
      ensures View() == EstablishedPacket(old(View()), p)
      ensures old(ctrlLocked) && !ctrlLocked ==> ctrlOk
    {
      if p.ack.Some? && ourCtrlSeq == p.ack.value {
        NoteAck(p.ack.value);
        EndCtrl(None, true);
      }
      var next := NoteFin(p);
      if next {
        StartPacket(false);
        ChangeTo(Closing);
      }
    }

    method HandleInClosing(p: CtrlPacket)
      requires ctrlLocked ==> ctrlPara.Some?
      modifies this
      ensures View() == ClosingPacket(old(View()), p)
      ensures old(ctrlLocked) && !ctrlLocked ==> ctrlOk
    {
      NoteClosing(p);
      if finReced && finAckReced {
        ChangeTo(Closed);
      }
    }

    method NoteClosing(p: CtrlPacket)
      modifies this`ctrlPacketToSend, this`ctrlPacketSent, this`ctrlRto, this`theirCtrlSeq, this`ctrlAckSet,
        this`ctrlAckData, this`finReced, this`finAckReced
      ensures View() == old(View()).(link := ClosingLink(old(LinkView()), p))
    {
      if p.ack.Some? {
        NoteAck(p.ack.value);
        finAckReced := true;
      }
      var _ := NoteFin(p);
    }

    // ---------- sending ----------

    /** ump_handle_send_ctrl_packet */
    method HandleSendCtrlPacket() returns (out: Option<CtrlPacket>)
      requires Valid()
      modifies this
      ensures Valid() && View() == old(View()).(link := SendLink(old(LinkView())))
      ensures out == Outgoing(old(LinkView()))
      ensures !ctrlAckSet && (old(ctrlAckSet) ==> out.Some? && out.value.ack == Some(old(ctrlAckData)))
    {
      var ack := if ctrlAckSet then Some(ctrlAckData) else None;
      if !ctrlPacketSent && ctrlPacketToSend.Some? {
        ctrlPacketToSend := Some(ctrlPacketToSend.value.(ack := ack));
        ctrlAckSet := false;
        ctrlPacketSent := true;
        out := ctrlPacketToSend;
      } else if ctrlAckSet {
        ctrlAckSet := false;
        out := Some(CtrlPacket(false, false, None, ack));
      } else {
        out := None;
      }
    }

    /** ump_handle_ctrl_timeout */
    method HandleCtrlTimeout(expired: bool)
      requires Valid()
      modifies this
      ensures Valid() && View() == Timeout(old(View()), expired)
      ensures old(ctrlLocked) && !ctrlLocked ==> !ctrlOk && errorOccured
      ensures old(ctrlPacketToSend).Some? && old(ctrlPacketSent) && expired ==>
        if old(ctrlRto) < 15000 then
          ctrlPacketToSend == old(ctrlPacketToSend) && !ctrlPacketSent && ctrlRto == 2 * old(ctrlRto)
        else errorOccured && state == Closed && ctrlPacketToSend == None
    {
      TimeoutKeepsInv(View(), expired);
      if ctrlPacketToSend.None? || !ctrlPacketSent || !expired {
        return;
      }
      if ctrlRto < Rto.TIMEOUT_LIMIT {
        ctrlPacketSent := false;
        ctrlRto := 2 * ctrlRto;
        return;
      }
      ctrlPacketToSend := None;
      ctrlPacketSent := true;
      ctrlRto := CTRL_TIMEOUT;
      EndCtrl(None, false);
      ConnectionErrorOccured();
    }
  }
}
