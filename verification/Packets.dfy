/** Data packets as the socket code sees them (upacket_private.h), without their bytes. */
module Packets {
  import opened Circular
  import opened Message

  /** The acknowledgement and window fields, which travel together (ump_sock.c:992-1000). */
  datatype AckInfo = AckInfo(num: U16, wnd: U16)

  datatype DataPacket = DataPacket(num: Option<U16>, chunk: Chunk, ack: Option<AckInfo>)

  function AckAlone(ack: AckInfo): DataPacket {
    DataPacket(None, Chunk(false, []), Some(ack))
  }
}
