/**
  The packets that the protocol modules exchange, as the bytes the codec makes of them: what
  the peer decodes is the packet that was sent.
 */
module OnTheWire {
  import opened Circular
  import opened Message
  import opened Packets
  import opened Codec
  import opened ControlModel

  function When(present: bool, mask: Byte): Byte {
    if present then mask else 0
  }

  /** ump_sock.c:349-359, 382-398, 992-1007: the flags of a data packet. */
  function DataFlags(p: DataPacket): Byte {
    96 + When(p.chunk.bdr, 8) + When(p.num.Some?, 4) + When(p.ack.Some?, 3)
  }

  function DataContent(p: DataPacket): Content {
    Content(DataHead(DataFlags(p)), p.num, if p.ack.Some? then Some(p.ack.value.num) else None, None,
            if p.ack.Some? then Some(p.ack.value.wnd) else None, p.chunk.data)
  }

  function ReadData(c: Content): DataPacket
    requires c.head.DataHead?
  {
    DataPacket(c.seqNum, Chunk(Has(c.head.flags, BDR), c.payload),
               if c.ackNum.Some? && c.wndNum.Some? then Some(AckInfo(c.ackNum.value, c.wndNum.value)) else None)
  }

  /** Number, end mark, ack, window and bytes of a data packet arrive as they were sent. */
  lemma DataPacketArrives(p: DataPacket, beyond: Byte)
    ensures var c := Decode(Encode(DataContent(p)), beyond);
      c.Some? && c.value.head.DataHead? && ReadData(c.value) == p
  {
    DataFlagsFit(p.chunk.bdr, p.num.Some?, p.ack.Some?);
    DecodeEncode(DataContent(p), beyond);
  }

  lemma DataFlagsFit(bdr: bool, num: bool, ack: bool)
    ensures var flags: Byte := 96 + When(bdr, 8) + When(num, 4) + When(ack, 3);
      IsData(flags) && Has(flags, Codec.BDR) == bdr && Has(flags, DATA_SEQ) == num
      && Has(flags, DATA_ACK) == ack && Has(flags, DATA_WND) == ack
  {
  }

  /** ump_sock.c:137-170, 1092-1114, 1403-1421: a SYN also carries packet size and window. */
  function CtrlContent(p: CtrlPacket, mss: U16, wnd: U16): Content {
    Content(ControlHead(64 + When(p.syn, 8) + When(p.fin, 4),
                        When(p.num.Some?, 128) + When(p.ack.Some?, 64) + When(p.syn, 48)),
            p.num, p.ack, if p.syn then Some(mss) else None, if p.syn then Some(wnd) else None, [])
  }

  function ReadCtrl(c: Content): CtrlPacket
    requires c.head.ControlHead?
  {
    CtrlPacket(Has(c.head.flags1, SYN), Has(c.head.flags1, FIN), c.seqNum, c.ackNum)
  }

  /** A control packet arrives as it was sent, and never as a reset. */
  lemma CtrlPacketArrives(p: CtrlPacket, mss: U16, wnd: U16, beyond: Byte)
    ensures var c := Decode(Encode(CtrlContent(p, mss, wnd)), beyond);
      c.Some? && c.value.head.ControlHead? && ReadCtrl(c.value) == p && !Has(c.value.head.flags1, RST)
  {
    CtrlFlagsFit(p.syn, p.fin, p.num.Some?, p.ack.Some?);
    DecodeEncode(CtrlContent(p, mss, wnd), beyond);
  }

  lemma CtrlFlagsFit(syn: bool, fin: bool, num: bool, ack: bool)
    ensures var flags1: Byte := 64 + When(syn, 8) + When(fin, 4);
      IsControl(flags1) && Has(flags1, SYN) == syn && Has(flags1, FIN) == fin && !Has(flags1, RST)
    ensures var flags2: Byte := When(num, 128) + When(ack, 64) + When(syn, 48);
      Has(flags2, CTRL_SEQ) == num && Has(flags2, CTRL_ACK) == ack
      && Has(flags2, CTRL_MSS) == syn && Has(flags2, CTRL_WND) == syn
  {
  }
}
