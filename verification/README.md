# UMP: a verified model of the User Message Protocol

UMP is a reliable, message-oriented transport over UDP. Each socket is driven by one
thread that loops over a fixed list of handlers (`user_message_protocol/ump_sock.c:46-104`).
This project models those handlers, the packet codec, the timer list and the timeout
estimator, and proves what they keep, alone and for two endpoints joined by a network that
loses, duplicates and reorders packets.

`dafny verify dfyconfig.toml` checks everything.

## How the model is built

Code that changes a socket step by step is modelled twice. A class holds the fields of the
C structure with their 16-bit widths, and its methods follow the C handlers branch by
branch, loops included. A specification over unbounded packet numbers says what each handler
computes; every method is proved to compute it, and the protocol properties are proved about
it. The link between the two is `Circular`: a 16-bit number on the wire is read relative to
a base, and the reading is the number meant exactly when that lies within half the circle.

| file | what it holds |
|---|---|
| `Circular.dfy` | 16-bit circular comparison and conversion |
| `Message.dfy` | cutting a message into packets; a stream of packets as a list of messages |
| `Packets.dfy` | data packets as the socket code sees them |
| `Codec.dfy`, `PacketObject.dfy`, `OnTheWire.dfy` | bytes of a packet; the packet object with its cache; the protocol's packets as bytes |
| `Rto.dfy`, `TimerList.dfy` | timeout estimator; retransmission timers |
| `SenderModel.dfy`, `Sender.dfy` | sending half: specification and class |
| `MessageSize.dfy` | what the size of a message does to its sender |
| `Retransmission.dfy`, `RoundTrips.dfy` | timers and retries of the sender; which acks are measured |
| `CongestionControl.dfy` | what an ack does to the windows, and what becomes of them over many acks |
| `ReceiverModel.dfy`, `ReceiverExact.dfy` | receiving half as it is meant to be; when message boundaries are right |
| `ReceiverLinks.dfy`, `Receiver.dfy` | receiving half as it is, with the `prev` link that harvesting leaves; class |
| `Transfer.dfy`, `TransferResults.dfy` | one direction of a connection: sender, network, receiver; what holds in every run |
| `WrongBytes.dfy`, `StrandedRun.dfy` | which receive calls return bytes that were not sent; a run in which one does |
| `BlockedCalls.dfy` | when a receive call blocks or fails, and what ends it |
| `AdvertisedEdge.dfy` | the window kept by both ends in every run |
| `Window.dfy` | the window a receiver advertises |
| `ControlModel.dfy`, `Control.dfy` | connection states, control packets, connect and close calls: specification and class |
| `ControlPackets.dfy` | acks, changes of state and resending of control packets |
| `Handshake.dfy` | two endpoints that open and close a connection |

## Main results

- What the receive calls return is, in every state of every careful run, a prefix of what the
  send calls were given: in order, each once, byte for byte (`TransferResults.EndToEnd`).
  Careful means that no receive call is made in one situation that is described below; in any
  run the same holds until freed memory is used (`TransferResults.DeliveredUntilWild`).
- In any run, before freed memory is used, a receive call leaves the user with a prefix of what
  was sent if and only if no packet has gone astray (`WrongBytes.WrongExactlyWhenStray`);
  otherwise it returns the next message with more bytes behind it (`WrongBytes.StrayCallReturns`).
- The socket looks for the end of a message only on the last packet that an arrival makes
  contiguous; that is right exactly when that packet is the only one to end a message
  (`ReceiverExact.ArriveFaithful`), and the sender's message-level stop-and-wait makes it so
  (`TransferResults.BoundariesAreExact`).
- A send call that succeeds has its whole message at the receiver
  (`TransferResults.SendTrueMeansReceived`), and a receive call that blocks or fails leaves no
  complete message behind (`TransferResults.NothingCompleteWaits`).
- A receive call blocks exactly when the connection is up and no complete message is there, and
  in every run the arrival that completes the next message ends it with that message
  (`BlockedCalls.BlockedCallGetsNext`).
- Without an ack the sender retries at most ten due timeouts, each doubling the timeout, and then
  gives up (`Retransmission.AtMostTenRetries`); in every run no timer is due in the first 32 ms
  after its packet was sent (`Retransmission.NoTimerIsEarly`).
- In every run a packet that was sent once is measured by the time since it was sent
  (`RoundTrips.SentOnceIsMeasured`), and it is known exactly which packets sent again are measured
  too (`RoundTrips.MeasuredExactly`).
- Slow start opens the window by one packet for each new ack
  (`CongestionControl.SlowStartIsExact`), congestion avoidance by at most one for each mean round
  trip (`CongestionControl.AvoidanceIsBounded`).
- What may be sent lies inside the window the receiver advertises, and that window never wraps,
  for exactly those connections that are protected as said below
  (`AdvertisedEdge.EdgeHoldsExactly`, `AdvertisedEdge.HeldWindowNeverWraps`).
- An endpoint in ESTABLISHED knows that its peer has processed its SYN, also after a
  simultaneous open (`Handshake.EstablishedAgrees`); an endpoint that has closed without an
  error knows that its peer has left ESTABLISHED (`Handshake.CloseAgrees`).
- The control ack that is pending is always the next number expected, and after a numbered packet
  the next packet that goes out carries it (`ControlPackets.AckGoesOut`). A SYN or FIN goes out at
  most four times (`ControlPackets.AtMostFourSends`).
- Each control call is completed once, and a call is being served only in the state in which
  it waits for the peer (`ControlModel.RunKeepsInv`).
- Decoding undoes encoding; encoding undoes decoding exactly when no field was cut; any one
  changed byte is detected unless it flips the type bit (`Codec`).

## Where the code does not keep what one would expect

Each of these is proved, most with the exact condition under which the code is right.

- Harvesting a message leaves the `prev` link of the list's new head on the harvested end
  (`user_message_protocol/ump_sock.c:828-830`), and `ump_list_first` returns its argument
  (`user_message_protocol/ump_misc.c:105-108`). A packet that belongs before that head is then
  linked in behind the message that waits to be read, or, when that has been freed, freed
  memory is used. An arrival is handled as meant if and only if its search does not pass such a
  head (`ReceiverLinks.ArriveIsAsMeant`). Once nothing is contiguous before such a head, the
  base never moves again (`ReceiverLinks.StuckForever`), and the peer's send call never ends
  with TRUE (`TransferResults.StuckForGood`). Between two endpoints it comes to this by exactly
  one step: a receive call made while a second complete message waits that ends the contiguous
  run and packets are held ahead (`TransferResults.OnlyStrandingSticks`). In
  `StrandedRun.DeliveryGoesWrong` three messages A, B and CD are sent, C is late, and the user
  gets A and then BCD.
- `ump_sock_new` leaves `our_data_sent` at 0. The range check on acks stops every false ack of
  a fresh socket exactly when the initial number is between 1 and 32768
  (`SenderModel.FreshSocketIsProtected`; `SenderModel.FalseAckIsBelieved` is an example of the
  other case). In `Transfer` no false ack exists, so that delivery does not depend on it.
- `our_cwnd` is a 16-bit number without a cap. It stays open exactly when the increment does
  not overflow (`SenderModel.AckKeepsWindowOpen`).
- The size of a message has a limit, of which `user_message_protocol/todo.txt` only says that a
  single message must not be too large. A message of any length is started
  (`Sender.SendHalf.HandleSnd`), but positions are 16-bit distances, and two things go wrong.
  - The limit up to which packets may be sent comes out a whole lap too low when it lies past
    position 32767 (`user_message_protocol/ump_sock.c:905-911`). When everything sent is acked,
    the next packet can be sent if and only if the window does not reach that far
    (`MessageSize.CanSendNext`). Otherwise no ack and no timeout gets the sender going again
    while the window stays as wide, and no error is reported (`MessageSize.StallLasts`); with one
    packet and one ack at a time this happens to every message of more than 32718 packets when
    the peer's window is 50 (`MessageSize.StopAndWaitStalls`), and to no shorter one
    (`MessageSize.SizeDecides`). No packet past the first 32767 is ever sent.
  - The end of the message is compared around the base (`user_message_protocol/ump_sock.c:818`).
    With more than 32769 packets an ack of the first ones can read as an ack of the last, and the
    send call returns TRUE (`MessageSize.FirstAckEndsCall`). `MessageSize.LengthDecides` gives the
    lengths for which no ack does; these are the messages of module `Transfer`.
- The SYN advertises a window of 100 packets (`user_message_protocol/ump_sock.c:1103`), while
  the receive window is 50. A peer that fills the first window makes a held window wrap to
  65486 (`Window.SynWindowOverflows`); a refresh is right exactly when the peer has stayed
  inside the edge (`Window.RefreshEndsAtPos`).
- A second control call made while one waits to be seen replaces it
  (`ControlModel.IssueLosesACall`), and an error completes a blocked close with TRUE
  (`ControlModel.ErrorEndsCalls`).
- CLOSING takes any ack for the ack of its FIN (`user_message_protocol/ump_sock.c:1486`), so
  an endpoint can be CLOSED without an error before its FIN was ever sent
  (`Handshake.CloseCanForgetFin`). The peer has counted the FIN when no control packet waits
  to be resent (`Handshake.ControlPacketArrives`).
- Flipping the type bit moves the checksum, and the changed packet can pass
  (`Codec.TypeFlipCanPass`).
- The comment at `user_message_protocol/ump_sock.c:749-752` says that repeated acks count only
  while packets are unacknowledged; the guard above it counts them only when the base is past
  everything sent (`CongestionControl.RepeatedAckExactly`). So two acks that come between messages
  start a fast retransmission of nothing: they double the timeout, widen the window, and raise the
  back point past packets that were never sent (`RoundTrips.IdleAcksSpoil`), whose acks are then
  not measured.
- The back point is to keep acks of packets sent again from being measured, but the comparison
  with it is one of raw numbers and lets equality pass (`user_message_protocol/ump_sock.c:813`).
  The last packet sent again is always measured, others when the numbers wrap in between or while
  the back point is still zero (`RoundTrips.MeasuredExactly`).

## Model

| member | source | states |
|---|---|---|
| Circular.CmpIsOffsetDifference | user_message_protocol/ump_sock.c:1577-1601 | For all 65536 bases, comparing two numbers gives the difference of their signed distances from the base, both in -32768..32767. |
| Circular.CmpIsTotalOrder | user_message_protocol/ump_sock.c:1577-1601 | Comparison around any base is a total order: zero only for equal numbers, antisymmetric, transitive. |
| Circular.CmpRefinesIntegers | user_message_protocol/ump_sock.c:1577-1601 | For unbounded numbers within half the circle of the base, the 16-bit comparison gives their true difference, across the wrap. |
| Circular.ReadingIsExact | user_message_protocol/ump_sock.c:1577-1622 | A number read off the wire relative to a base is the number meant if and only if that lies within half the circle of the base. |
| Circular.RelativeRefinesIntegers | user_message_protocol/ump_sock.c:1603-1614 | The relative position computed from a number is the true distance from the start if and only if that is within half the circle. |
| Circular.RelativeRoundTrip | user_message_protocol/ump_sock.c:1603-1622 | Converting a position to a number and back gives the position if and only if it is at most 32767. |
| Circular.LapLateIsMisread | user_message_protocol/ump_sock.c:1577-1622 | A number a whole lap old reads as the base itself. |
| Message.CutMessage | user_message_protocol/ump.c:283-312 | An empty message is refused; any other is cut into the announced number of packets whose concatenation is the message, all full but the last. |
| Message.SplitJoin | user_message_protocol/ump.c:303-312 | Joining the packets of any message gives the message; no packet is empty, and all but the last have exactly the MSS. |
| Message.SplitCount | user_message_protocol/ump.c:291-294 | The packet count computed by division is the number of packets cut. |
| Message.MessageRoundTrip | user_message_protocol/ump.c:291-312 | Cutting a message, marking its last packet and reading the stream gives exactly that message. |
| Message.ParseAppend | user_message_protocol/ump_sock.c:349-356 | A stream that ends at a message end splits: the messages of the whole are those of the two parts in order. |
| Message.ParsePrefix | user_message_protocol/ump_sock.c:824-849 | Messages already complete do not change when more packets follow. |
| Message.ParseCounts | user_message_protocol/ump_sock.c:851-865 | A stream holds as many complete messages as packets with the end mark. |
| Codec.DecodeEncode | user_message_protocol/upacket.c:16-300 | Decoding the encoding of any packet, with any flags, fields and payload, gives that packet back, whatever lies behind the buffer. |
| Codec.EncodeDecode | user_message_protocol/upacket.c:16-300 | Encoding what was decoded from an accepted buffer gives the buffer back if and only if no declared field was cut. |
| Codec.AcceptedExactly | user_message_protocol/upacket.c:161-300 | A buffer is accepted if and only if its version and length are right, its checksum fits, and at most the last byte of its declared fields is missing. |
| Codec.OneByteIsDetected | user_message_protocol/upacket.c:121-146 | Changing any one byte of an accepted buffer of any length, the type bit apart, makes it refused. |
| Codec.TypeFlipCanPass | user_message_protocol/upacket.c:181-223 | An accepted buffer of eight bytes is still accepted with its type bit flipped. |
| Codec.EncodingsDiffer | user_message_protocol/upacket.c:33-36 | Packets that differ in a flag, a field or the payload have different bytes, so a cache that misses a change is wrong. |
| Codec.CutFieldTakesByteBehind | user_message_protocol/upacket.c:229-297 | A buffer that ends inside its last field is read as if the byte behind the buffer belonged to it. |
| Codec.Layout | user_message_protocol/upacket.c:71-146 | In the bytes of any packet the flag bytes come first, then the checksum over them and all that follows, then number, ack, packet size and window as far as they are there, each with its high byte first, and then the payload. |
| Codec.PairSumIsWeighted | user_message_protocol/upacket.c:134-144 | The checksum's pairs weigh each byte by 1 at an even place and by 256 at an odd one. |
| Codec.FlagBits | user_message_protocol/upacket.c:79-116 | Which bits of the flag bytes say that a field is there. |
| PacketObject.BitsAreSeparate | user_message_protocol/upacket.c:364-396 | Flipping one flag of a byte leaves every other flag of it alone. |
| PacketObject.SumBytes | user_message_protocol/upacket.c:121-144 | The summing loop computes the 16-bit sum of the flag bytes and the little-endian pairs after the checksum, odd last byte included. |
| PacketObject.UMPPacket.SetFlag | user_message_protocol/upacket.c:364-379 | Exactly the named flag is set, version and type stay, and the cached bytes are marked out of date. |
| PacketObject.UMPPacket.ClearFlag | user_message_protocol/upacket.c:381-396 | Exactly the named flag is cleared, version and type stay, and the cached bytes are marked out of date. |
| PacketObject.UMPPacket.SetData | user_message_protocol/upacket.c:398-407 | Only an outgoing packet's payload is replaced, and the cache stays coherent. |
| PacketObject.UMPPacket.ToBinary | user_message_protocol/upacket.c:16-159 | The bytes returned, cached or not, are the encoding of what the packet says now. |
| PacketObject.FromBinary | user_message_protocol/upacket.c:161-300 | The walk over the buffer accepts what the decoding accepts and yields its fields; the input may serve as cached bytes if and only if no field was cut. |
| PacketObject.NextField | user_message_protocol/upacket.c:234-240 | One step of the walk: a declared field is refused only at the end of the buffer, and may take its second byte from past the end. |
| PacketObject.Number | user_message_protocol/ump_sock.c:349-356 | Numbering a packet keeps its cached bytes coherent and its other fields unchanged. |
| PacketObject.PutAckInfo | user_message_protocol/ump_sock.c:992-1007 | Ack and window are attached or removed together, the cache stays coherent, number and end mark stay. |
| PacketObject.PutCtrlAck | user_message_protocol/ump_sock.c:144-151 | A control packet about to be sent gets the pending ack or none, with a coherent cache. |
| PacketObject.Resend | user_message_protocol/ump_sock.c:438-452 | A packet sent again with a new ack decodes at the peer to the packet with the new ack, never to an older cached version. |
| OnTheWire.DataPacketArrives | user_message_protocol/ump_sock.c:438-452 | Number, end mark, ack, window and bytes of a data packet are decoded as they were sent. |
| OnTheWire.CtrlPacketArrives | user_message_protocol/ump_sock.c:137-170 | A control packet is decoded as it was sent and is never taken for a reset. |
| Rto.RtoComputer.RefreshRtt | user_message_protocol/rtocomputer.c:30-41 | A sample moves mean and deviation by gains 1/8 and 1/4 and sets the timeout to mean plus four deviations, at least 16 ms. |
| Rto.RtoComputer.TimeoutOccurred | user_message_protocol/rtocomputer.c:43-47 | A timeout doubles the timeout up to 90 s and changes nothing else. |
| Rto.SampleIsRfc6298 | user_message_protocol/rtocomputer.c:30-41 | A sample is the estimator step of section 2 of RFC 6298 with gains 1/8 and 1/4: timeout = mean + four deviations, at least 16 ms. |
| Rto.FirstSample | user_message_protocol/rtocomputer.c:14-41 | A new estimator has a timeout of six seconds; its first sample m leaves nine seconds and 9/8 m. |
| Rto.EstimatesStayBounded | user_message_protocol/rtocomputer.c:14-47 | For every interleaving of timeouts and samples in [0, M]: mean in [0, M], deviation in [0, max(3000, M)], timeout at least 16 and bounded above. |
| Rto.EqualSamplesMean | user_message_protocol/rtocomputer.c:30-41 | After n samples m the mean is m + (7/8)^n (a0 - m). |
| Rto.EqualSamplesDeviation | user_message_protocol/rtocomputer.c:30-41 | After n samples m the deviation is (3/4)^n (d0 - 2E) + 2E (7/8)^n with E the initial gap. |
| Rto.RetriesAreBounded | user_message_protocol/ump_sock.c:685-699 | Ten doublings take any timeout value of the estimator to the limit; `Retransmission.AtMostTenRetries` is about the sender. |
| Rto.TenRetriesHappen | user_message_protocol/ump_sock.c:685-699 | The bound is reached: from the smallest timeout ten timeouts are retried. |
| Timers.TimerList.RegisterPacket | user_message_protocol/timer_list.c:16-30 | A packet's timer goes to the end of the list. |
| Timers.TimerList.AckPacket | user_message_protocol/timer_list.c:32-94 | Outside the range test nothing changes; inside it the timers up to the acked packet go and give the sample, or all go without one if no entry fits. |
| Timers.TimerList.GetNextTimeout | user_message_protocol/timer_list.c:110-143 | If and only if the first timer is due, all timers are dropped and its packet is named. |
| Timers.InRangeIsInterval | user_message_protocol/timer_list.c:32-52 | On unbounded numbers the raw range test accepts exactly the acks that cover the first packet in flight and nothing beyond the highest sent, across the wrap. |
| Timers.AckedPosition | user_message_protocol/timer_list.c:53-94 | Among timers of consecutive packets the loop stops at the packet just below the ack, and at the end if the ack lies beyond the last one. |
| SenderModel.NumbersAreNear | user_message_protocol/ump_sock.c:1577-1601 | Every number a sender handler compares lies in the half circle in which comparison is exact. |
| SenderModel.PositionsInOrder | user_message_protocol/ump_sock.c:905-922 | While sending: 0 <= rel(base) <= send position <= packets sent <= packet count; `our_data_sent` is the last packet sent if and only if its initial zero does not read as one ahead. |
| SenderModel.BeginKeepsInv | user_message_protocol/ump_sock.c:343-363 | Starting a message of any length keeps the sender invariant. |
| SenderModel.TransmitKeepsInv | user_message_protocol/ump_sock.c:438-456 | The packet sent exists, is at or above the base, not past anything unsent, below the window's edge and in the message; the invariant is kept. |
| SenderModel.TimeoutKeepsInv | user_message_protocol/ump_sock.c:672-704 | A timeout keeps the invariant and moves neither the base nor the highest number sent; unless the sender gives up, the next packet it can send is the first one not acked. |
| SenderModel.NoteRepeatedKeeps | user_message_protocol/ump_sock.c:748-766 | Repeated acks keep the invariant, the base and the highest number sent; if they do more than count, the next packet to send is the first one not acked. |
| SenderModel.NewAckKeepsInv | user_message_protocol/ump_sock.c:772-820 | A new ack moves the base to it; unless it is misread as an ack of the message's end, the call completes if and only if the whole message is acked, and the next message then starts at the base. |
| SenderModel.AckKeepsInv | user_message_protocol/ump_sock.c:731-822 | An ack keeps the invariant if and only if it covers no packet never sent and does not end the call while packets are not acked; the base moves exactly for acks in range. |
| SenderModel.RangeCheckProtects | user_message_protocol/ump_sock.c:768-771 | The range check stops every false ack if and only if the initial `our_data_sent` does not read as a packet still to be sent. |
| SenderModel.FreshSocketIsProtected | user_message_protocol/ump_sock.c:1673-1676 | For a fresh socket that holds exactly for initial numbers 1 to 32768. |
| SenderModel.FalseAckIsBelieved | user_message_protocol/ump_sock.c:768-778 | A socket that starts at 40000 accepts an ack of 50000 before it has sent anything. |
| SenderModel.AckKeepsWindowOpen | user_message_protocol/ump_sock.c:785-805 | An ack keeps `our_cwnd` at least 1 and `our_ssthresh` at least 2 if and only if the 16-bit increment does not overflow. |
| SenderModel.TimeoutKeepsWindowOpen | user_message_protocol/ump_sock.c:692-700 | A timeout leaves a window of one packet and a threshold of at least 2 and at least half the old window. |
| SenderModel.CongestGrowsByOne | user_message_protocol/ump_sock.c:785-805 | One ack opens the congestion window by at most one packet and never shrinks it, except that the one that ends fast recovery sets it to the threshold. |
| SenderModel.EdgeIsBasePlusWindow | user_message_protocol/ump_sock.c:905-915 | Every step leaves the window's edge alone or sets it to base plus the smaller of the peer's and the congestion window. |
| MessageSize.LengthDecides | user_message_protocol/ump_sock.c:818-820 | Among the acks a sender can get, one reads as an ack of the message's end too early if and only if the message has more than 32769 packets and its length modulo 65536 is not 32768 or 32769. |
| MessageSize.LongMessageNeverSucceeds | user_message_protocol/ump_sock.c:905-911 | A message of more than 32767 packets is never sent in full; a call for one that ends with TRUE ends too early. |
| MessageSize.FirstAckEndsCall | user_message_protocol/ump_sock.c:818-820 | For a message of 32770 to 65537 packets the ack of the first packet ends the call with TRUE. |
| MessageSize.CanSendNext | user_message_protocol/ump_sock.c:905-911 | When everything sent is acked and the refreshed window is open, the next packet can be sent if and only if base position plus window is at most 32767. |
| MessageSize.SizeDecides | user_message_protocol/ump_sock.c:905-911 | A message can go on from every position under a window if and only if its packets and the window together are at most 32768: 32718 packets for a window of 50. |
| MessageSize.StallLasts | user_message_protocol/ump_sock.c:672-716 | Once stopped that way the sender stays where it is, over any sequence of timeouts and acks of a peer that has received what was sent and does not narrow its window. |
| MessageSize.SeventeenPacketsStay | user_message_protocol/ump_sock.c:905-911 | A sender with the first 32750 of 32767 packets acked, under a window of 50, is stopped: no timeout and no ack with that window gets it going. |
| MessageSize.StopAndWaitStalls | user_message_protocol/ump_sock.c:905-911 | A fresh sender that gets one ack for each packet, with a window w up to 512, sends exactly 32768 - w packets of a longer message and is then stopped for good. |
| Sender.NumberPackets | user_message_protocol/ump_sock.c:349-359 | The numbering loop gives consecutive 16-bit numbers from the start on, marks exactly the last packet and finds its number. |
| Sender.WindowLimit | user_message_protocol/ump_sock.c:905-911 | The 16-bit window limit is that of unbounded numbers, for every window and position. |
| Sender.SendHalf.HandleSnd | user_message_protocol/ump_sock.c:320-366 | A posted message of any length is started if the connection is up and it is not empty, and fails otherwise; the sender stays valid; while a call is served nothing happens. |
| Sender.SendHalf.HandleSendData | user_message_protocol/ump_sock.c:380-475 | The next packet of the window goes out with its number, mark, bytes and the pending ack, and gets a timer of one timeout for each packet from the base to the window's end and one more; otherwise the ack alone or nothing. |
| Sender.SendHalf.HandleDataTimeout | user_message_protocol/ump_sock.c:672-704 | The timeout handler computes the model's step: a due timer doubles the timeout up to 90 s and drops all timers, or gives up exactly when the timeout has reached its limit. |
| Sender.SendHalf.HandleDataAck | user_message_protocol/ump_sock.c:731-822 | For every ack field the handler computes the model's step on the number the field stands for and keeps the timers in order; the sender stays valid if and only if the ack covers no packet never sent and does not end the call too early; a new ack opens the congestion window exactly when `CongestionControl.OpensExactly` says; a completed call returns TRUE. |
| Sender.SendHalf.TimersAreInFlight | user_message_protocol/ump_sock.c:453-456 | In every valid state the timers belong to the consecutive numbers from the base up to the packet before the send position, in order, also in 16-bit numbers. |
| Sender.SendHalf.CloseSend | user_message_protocol/ump_sock.c:414-429 | Closing or an error ends a blocked send call with FALSE and keeps the sender valid. |
| Retransmission.DueTimeoutDoubles | user_message_protocol/ump_sock.c:692-700 | Below 15 s a due timer doubles the timeout up to 90 s and leaves mean and deviation; window 1, threshold half the window and at least 2, no timers, next packet the first not acked. |
| Retransmission.DueTimeoutGivesUp | user_message_protocol/ump_sock.c:684-690 | From 15 s on a due timer ends the connection and the send call. |
| Retransmission.AtMostTenRetries | user_message_protocol/ump_sock.c:672-704 | From any state, over any sending and any timers, at most ten due timeouts are retried while no ack comes; after ten the next one ends the connection. |
| Retransmission.FreshSenderRetriesTwice | user_message_protocol/ump_sock.c:684-699 | A fresh connection has timeouts of 6, 12 and 24 seconds and gives up at the third due timer. |
| Retransmission.TimerOfSentPacket | user_message_protocol/ump_sock.c:452-453 | A packet's timer is registered when it is sent and runs for one timeout for each packet from the base to the window's end, and one more. |
| Retransmission.FirstTimer | user_message_protocol/ump_sock.c:452-453 | The first packet of a fresh connection has twelve seconds. |
| Retransmission.NoTimerIsEarly | user_message_protocol/ump_sock.c:672-681 | In every state of every run a timer is due at the earliest 32 ms after its packet was sent, and until the first one is the handler does nothing. |
| CongestionControl.NewAckOpensWindow | user_message_protocol/ump_sock.c:785-805 | A new ack outside recovery opens the window by one packet, and notes the time, if and only if it was below the threshold or the mean round trip has passed since it was last opened. |
| CongestionControl.NewAckEndsRecovery | user_message_protocol/ump_sock.c:786-788 | The new ack that ends recovery sets the window to the threshold, at least 1. |
| CongestionControl.NewAckMovesWindow | user_message_protocol/ump_sock.c:772-784 | A new ack moves the base, takes over the window it brings with its edge, and removes exactly the timers of the packets acked. |
| CongestionControl.WindowAlone | user_message_protocol/ump_sock.c:706-729 | A window without an ack is taken over with its edge; a packet with neither changes nothing. |
| CongestionControl.RepeatedAckExactly | user_message_protocol/ump_sock.c:748-766 | A repeated ack counts if and only if everything believed sent is acked; the second that counts goes back to the base, doubles the timeout and sets the window to the threshold and three; no other old ack changes more than the window. |
| CongestionControl.RepeatedAckBringsWindow | user_message_protocol/ump_sock.c:779-784 | An ack that repeats the base still brings its window. |
| CongestionControl.SlowStartIsExact | user_message_protocol/ump_sock.c:790-794 | n new acks open the window by n packets as long as it stays below the threshold. |
| CongestionControl.AvoidanceIsBounded | user_message_protocol/ump_sock.c:795-804 | From the threshold on new acks open the window by at most one packet for each mean round trip between the openings. |
| RoundTrips.NewAckMeasures | user_message_protocol/ump_sock.c:806-817 | A new ack is measured if and only if its last packet has its timer and the ack passes the back point, around itself or as a raw number; the sample is the time since registration, 50 ms if none. |
| RoundTrips.SentOnceIsMeasured | user_message_protocol/ump_sock.c:806-817 | In every run the ack of a packet that was sent just once, and whose timer is running, is measured by the time since then. |
| RoundTrips.MeasuredExactly | user_message_protocol/ump_sock.c:806-817 | In every run, an ack whose last packet has its timer is measured if and only if it is not below the end of what was sent again, or not below it as a raw number, or the back point is still zero. |
| RoundTrips.IdleAcksSpoil | user_message_protocol/ump_sock.c:756-766 | Two repeated acks between messages raise the back point past packets that were never sent. |
| ReceiverLinks.ArriveIsAsMeant | user_message_protocol/ump_sock.c:1357-1396 | An arrival is handled as meant, and the program stays defined, if and only if its search does not pass a head whose `prev` link is not clear. |
| ReceiverLinks.StrayArrival | user_message_protocol/ump_sock.c:1362-1373 | An arrival that strays is linked in behind the harvested message, once, and is never received; when that has been freed the program is undefined. |
| ReceiverLinks.ReceiveIsAsMeant | user_message_protocol/ump_sock.c:492-518 | A receive call is served as meant, without freeing packets still in use, if and only if no packet hangs behind the message that waits. |
| ReceiverLinks.ReceivesWhatArrives | user_message_protocol/ump_sock.c:1357-1389 | For every sequence of arrivals, in any order and with repetitions: the packets received are exactly those that arrived if and only if none of them passed such a head. |
| ReceiverLinks.OrderIsIrrelevant | user_message_protocol/ump_sock.c:1357-1389 | Two such sequences with the same packets, neither passing such a head, leave the same base and the same packets ahead. |
| ReceiverLinks.StuckForever | user_message_protocol/ump_sock.c:824-849 | After a harvest that empties the run with packets held ahead, the base never advances, and no packet that belongs before the head is ever received, over all arrivals and calls until freed memory is used. |
| ReceiverLinks.ReceiveGetsStuck | user_message_protocol/ump_sock.c:824-849 | A receive call leaves the receiver stuck if and only if the message it harvests ends the run and packets are held ahead. |
| ReceiverLinks.ArriveGetsStuck | user_message_protocol/ump_sock.c:851-865 | An arrival leaves it stuck if and only if it completes a message that is harvested at once while packets are held ahead. |
| ReceiverLinks.OneCallReturnsTwoMessages | user_message_protocol/ump_sock.c:828-830 | Packets A, B and D, a receive call, packet C, a receive call: the calls return A and BCD. |
| ReceiverLinks.RunKeepsInv | user_message_protocol/ump_sock.c:824-849 | Over all arrivals and calls the `prev` link leads where the model says, and packets that went astray lie between the harvested message and the list. |
| ReceiverModel.ExtendKeeps | user_message_protocol/ump_sock.c:1374-1389 | The run grows by just the packets that have become contiguous, in order, until the next one is missing. |
| ReceiverModel.HarvestKeeps | user_message_protocol/ump_sock.c:824-849 | A harvest takes a non-empty message and leaves the count and the end of the next message right. |
| ReceiverModel.ArriveKeepsInv | user_message_protocol/ump_sock.c:1333-1396 | An arrival keeps the receiver invariant: counted messages have their ends in the run, nothing counted waits while no message is harvested, a blocked call means none is. |
| ReceiverModel.ReceiveKeepsInv | user_message_protocol/ump_sock.c:534-566 | A receive call keeps it too. |
| ReceiverModel.NoMessageIsLost | user_message_protocol/ump_sock.c:534-605 | A receive call blocks or fails only when no complete message is buffered; entering CLOSED leaves none blocked and loses no message; otherwise the harvested message is returned. |
| ReceiverLinks.CodeIsFaithful | user_message_protocol/ump_sock.c:851-865 | An arrival keeps the message boundaries right, with nothing astray, if and only if its search does not pass such a head and no packet before the last of those newly contiguous ends a message. |
| ReceiverExact.TakeFaithful | user_message_protocol/ump_sock.c:492-522 | Returning a message appends exactly it to what the user has, and loses or moves no packet. |
| ReceiverExact.MergedHarvest | user_message_protocol/ump_sock.c:851-865 | If an inner end is overlooked, the messages are handed over merged. |
| Receiver.Concatenate | user_message_protocol/ump_sock.c:492-509 | The two loops over the harvested packets return the concatenation of their payloads. |
| Receiver.EndOfRun | user_message_protocol/ump_sock.c:1384-1388 | The loop stops at the last packet whose successors' numbers follow without a gap. |
| Receiver.ExtendReaches | user_message_protocol/ump_sock.c:1384-1389 | Following the numbers of the list to the end of the run is extending the run by what is contiguous. |
| Receiver.CompareAt | user_message_protocol/ump_sock.c:1362-1366 | Packets at or above the end of the run compare on the wire as their numbers do. |
| Receiver.SearchBack | user_message_protocol/ump_sock.c:1362-1370 | The search along the `prev` links finds the last packet not above the number, and finds the packet itself if and only if it is a repeated one. |
| Receiver.ReceiveHalf.FollowLink | user_message_protocol/ump_sock.c:1362-1373 | Past the head the search goes on behind the harvested message, the packet is linked in there in order, and the list's head stays; a freed link makes the program undefined. |
| Receiver.ReceiveHalf.HandleDataPacket | user_message_protocol/ump_sock.c:1350-1396 | The handler on the 16-bit list computes the arrival as the code has it, and the arrival as meant if and only if the packet does not go astray; the list stays ordered and without repetition; a blocked call that ends returns TRUE and exactly the one message handed over, and otherwise none is. |
| Receiver.ReceiveHalf.HarvestMessages | user_message_protocol/ump_sock.c:824-849 | The list is cut after the first message, the next message's end is found inside the run, and a head that is left keeps its link to the harvested end. |
| Receiver.ReceiveHalf.EndReceiveInternal | user_message_protocol/ump_sock.c:492-522 | When nothing hangs behind it the user gets the bytes of the harvested message, which is freed, and the next complete message is harvested. |
| Receiver.ReceiveHalf.EndReceiveSpilling | user_message_protocol/ump_sock.c:492-514 | When packets hang behind it the user gets the harvested message, those packets and the whole list in one, and the list is freed while still in use. |
| Receiver.ReceiveHalf.HandleReceive | user_message_protocol/ump_sock.c:534-566 | A call that is seen is blocked if and only if no message is harvested and the connection is established, fails if and only if none is and it is not, and otherwise returns the harvested message and what hangs behind it. |
| Receiver.ReceiveHalf.EnterClosed | user_message_protocol/ump_sock.c:1137-1140 | Entering CLOSED leaves no receive call blocked; one that was ends with FALSE. |
| Receiver.ReceiveHalf.CloseReceive | user_message_protocol/ump_sock.c:1282-1288 | A close call ends a blocked receive call with FALSE and keeps every buffered packet. |
| BlockedCalls.CallBlocksExactly | user_message_protocol/ump_sock.c:549-564 | A receive call blocks if and only if no message is harvested and the connection is established; without a message nothing else changes. |
| BlockedCalls.ArrivalEndsBlockedCall | user_message_protocol/ump_sock.c:851-865 | An arrival ends a blocked call if and only if it completes a message, and the call gets exactly that message. |
| BlockedCalls.BlockedCallGetsNext | user_message_protocol/ump_sock.c:851-865 | In every run an arrival either leaves a blocked call blocked and nothing complete behind, or ends it with the next message that was sent. |
| TransferResults.EndToEnd | user_message_protocol/ump_sock.c:1333-1396 | In every state of every careful run the messages returned by receive calls are a prefix of those given to send calls, in order, each once, byte for byte, and the program is defined; `WrongBytes.WrongExactlyWhenStray` is the exact condition for any run. |
| TransferResults.DeliveredUntilWild | user_message_protocol/ump_sock.c:492-522 | The same in every state of every run until freed memory is used. |
| WrongBytes.WrongExactlyWhenStray | user_message_protocol/ump_sock.c:492-522 | In every state of every run before freed memory is used: after a receive call the messages returned are a prefix of those given to send calls if and only if no packet has gone astray. |
| WrongBytes.StrayCallReturns | user_message_protocol/ump_sock.c:492-514 | A call made when packets have gone astray returns the next message that was sent and behind it at least one byte more: those of the stray packets and of all packets held ahead, in order. |
| WrongBytes.SameBytesExactly | user_message_protocol/ump_sock.c:492-514 | A socket whose packets carry data returns the bytes it is meant to if and only if nothing hangs behind the message that waits. |
| TransferResults.OnlyStrandingSticks | user_message_protocol/ump_sock.c:824-849 | In the two-endpoint system exactly the receive calls that harvest the end of the run while packets are held ahead get the receiver stuck. |
| TransferResults.ArrivalNeverStrands | user_message_protocol/ump_sock.c:1384-1394 | No arrival does: what completes a message is the end of the sender's current one, with nothing ahead of it. |
| TransferResults.StuckForGood | user_message_protocol/ump_sock.c:824-849 | From then on, in every run, the receiver's base never moves and the send call in progress never ends with TRUE. |
| StrandedRun.DeliveryGoesWrong | user_message_protocol/ump_sock.c:828-830 | A run of two conforming endpoints in which a receive call returns BCD, which was never sent. |
| TransferResults.NothingCompleteWaits | user_message_protocol/ump_sock.c:534-566 | In every run a receive call that blocks or fails means that the user has had every message that has arrived in full. |
| TransferResults.SendTrueMeansReceived | user_message_protocol/ump_sock.c:818-820 | In every state: sender's base <= receiver's base <= highest sent + 1; when the latest send call has ended with TRUE, the receiver's base is past the last packet and, while its program is defined, it has every packet of all messages. |
| TransferResults.BoundariesAreExact | user_message_protocol/ump_sock.c:851-865 | In every state while the receiver's program is defined: each packet held ahead belongs to the sender's current message and is the one its number says; the message count is the number of end marks in the run, and the first end is where the receiver has it. |
| TransferResults.PacketsStayInWindow | user_message_protocol/ump_sock.c:438-456 | In every state a packet that can be sent is at or above the base, below the window's edge, in the message, and is the stream's packet of that number. |
| TransferResults.WindowStaysOpen | user_message_protocol/ump_sock.c:785-805 | In every run the congestion window stays at least 1 and the threshold at least 2 unless the window has reached 65535. |
| TransferResults.NothingGoesBack | user_message_protocol/ump_sock.c:772-778 | Along every run neither base, nor the highest number sent, nor the messages returned ever go back. |
| Transfer.AckIsRead | user_message_protocol/ump_sock.c:768-771 | The sender reads every ack of the network as the number the receiver meant, and none covers a packet the receiver lacks. |
| Transfer.DataIsRead | user_message_protocol/ump_sock.c:1357-1360 | The receiver reads every data packet of the network as the packet of the stream it is. |
| Transfer.ArrivalStaysInMessage | user_message_protocol/ump_sock.c:1384-1394 | What an arrival makes contiguous lies in the current message, so only its last packet can end one. |
| Transfer.StepKeepsInv | user_message_protocol/ump_sock.c:46-104 | Every step of either socket, with any packet of the network, keeps the invariant of the two-endpoint system. |
| Window.RefreshEndsAtPos | user_message_protocol/ump_sock.c:931-940 | A held window still ends where it was advertised if and only if the peer has stayed inside; otherwise it wraps above 32767. |
| Window.EdgeNeverMovesLeft | user_message_protocol/ump_sock.c:931-940 | Over any interleaving of arrivals and refreshes with the peer inside the edge: the edge never moves left, stays put while held, and the window is between 0 and 50. |
| Window.SynWindowOverflows | user_message_protocol/ump_sock.c:1103 | A peer that fills the window of 100 announced by the SYN makes a held window wrap to 65486. |
| Window.AdvertisedWindow.RefreshOurRwndPos | user_message_protocol/ump_sock.c:931-940 | The 16-bit refresh computes the window of unbounded numbers. |
| AdvertisedEdge.HeldWindowNeverWraps | user_message_protocol/ump_sock.c:931-940 | In every run of a protected connection everything sent and everything that may be sent lies inside the receiver's window, and every window it advertises is at most 50 and ends no earlier than the one before. |
| AdvertisedEdge.EdgeHoldsExactly | user_message_protocol/ump_sock.c:905-915 | In all runs everything that may be sent lies inside the receiver's window, if and only if the SYN's window is at most 50 or the initial zero of `our_data_sent` does not lie more than one below the first number. |
| AdvertisedEdge.ProtectedNumbers | user_message_protocol/ump_sock.c:1673-1676 | On 16 bits that condition is a first number of 0, 1 or above 32768. |
| AdvertisedEdge.TwoAcksOpenWindow | user_message_protocol/ump_sock.c:748-771 | On every other connection two acks before any data lead to a congestion window of 515 packets under the window of the SYN. |
| AdvertisedEdge.AckBringsWindow | user_message_protocol/ump_sock.c:767-784 | An ack in range replaces base and window together; another one changes neither. |
| ControlModel.RunKeepsInv | user_message_protocol/ump_sock.c:226-290 | In every run: a served call is CONNECT in CONNECTING or CLOSE in CLOSING with its parameter set, the mutex is held exactly while a call is served, each call is completed once, TRUE is returned to CONNECT only in ESTABLISHED and to CLOSE only in CLOSED. |
| ControlModel.ChangeKeepsInv | user_message_protocol/ump_sock.c:1009-1018 | Entering a state ends exactly the call that waited for it. |
| ControlModel.IssueLosesACall | user_message_protocol/ump_sock.c:126-135 | A call made while another waits to be seen breaks the count of completed calls: the place must be free, and then it is enough. |
| ControlModel.ErrorEndsCalls | user_message_protocol/ump_sock.c:1551-1559 | An error ends the served call at once, CONNECT with FALSE and CLOSE with TRUE; later calls fail as soon as they are seen. |
| ControlModel.PacketEndsCall | user_message_protocol/ump_sock.c:1224-1228 | A packet ends a call only with TRUE: a connect when SYN and ack have both come, a close when FIN and ack have. |
| ControlModel.ResendingIsBounded | user_message_protocol/ump_sock.c:611-650 | In every run a timeout of a control packet either ends the connection or uses up one of at most three resendings. |
| Control.ControlHalf.HandleCtrl | user_message_protocol/ump_sock.c:226-246 | A call that is seen is either served from then on, in the state in which it waits for the peer, or completed at once, with TRUE exactly for a connect in ESTABLISHED and a close in CLOSED without an error. |
| Control.ControlHalf.EndCtrl | user_message_protocol/ump_sock.c:279-290 | Only a served call of the named kind is ended, once, with the given result. |
| Control.ControlHalf.HandleCtrlPacket | user_message_protocol/ump_sock.c:172-203 | The handlers compute the model's step; after a numbered packet the pending ack is the next number expected; a call that a packet ends gets TRUE, and what it was promised has come. |
| Control.ControlHalf.HandleSendCtrlPacket | user_message_protocol/ump_sock.c:137-170 | The unsent control packet goes out with the pending ack, or the ack alone; afterwards no ack is pending. |
| Control.ControlHalf.HandleCtrlTimeout | user_message_protocol/ump_sock.c:611-650 | A due control packet is sent again with double timeout, or the connection fails; a call that ends here gets FALSE. |
| Control.ControlHalf.ConnectionErrorOccured | user_message_protocol/ump_sock.c:1551-1559 | After an error no call is being served; one that was has got TRUE exactly if it was a close. |
| ControlPackets.NumberIsAcked | user_message_protocol/ump_sock.c:1023-1503 | In all four states: after a packet with a number the pending ack is the next number expected, which counts the packet if it was that or opens the connection; without a number only another SYN is answered. |
| ControlPackets.SendCarriesAck | user_message_protocol/ump_sock.c:137-170 | What goes out carries the pending ack and clears it: an unsent SYN or FIN, otherwise the ack alone, and nothing if there is neither. |
| ControlPackets.AckGoesOut | user_message_protocol/ump_sock.c:46-104 | In every run the first packet sent after a numbered packet has been handled carries the next number expected at that moment. |
| ControlPackets.ClosedMovesExactly | user_message_protocol/ump_sock.c:1046-1079 | CLOSED is left exactly on a first SYN with a number, which is answered with our SYN. |
| ControlPackets.ConnectingMovesExactly | user_message_protocol/ump_sock.c:1174-1229 | CONNECTING is left exactly when SYN and ack have both come, except on a SYN that comes again or has no number. |
| ControlPackets.EstablishedMovesExactly | user_message_protocol/ump_sock.c:1299-1331 | ESTABLISHED is left exactly on the peer's FIN in its turn, which is acked and answered with our FIN. |
| ControlPackets.FinIsAnswered | user_message_protocol/ump_sock.c:1299-1331 | What an endpoint sends next is then its FIN with the ack of the peer's on it. |
| ControlPackets.ClosingMovesExactly | user_message_protocol/ump_sock.c:1470-1503 | CLOSING is left exactly when the peer's FIN and any ack have both come. |
| ControlPackets.AckStopsResending | user_message_protocol/ump_sock.c:1180-1191 | Except where it starts one of ours, a packet ends our resending if and only if it acks our last number, outside CLOSED. |
| ControlPackets.CallStartsPacket | user_message_protocol/ump_sock.c:1092-1114 | A connect call in CLOSED sends a SYN, a close call in ESTABLISHED a FIN, with our next number, the pending ack and all resendings ahead; no other call sends anything. |
| ControlPackets.ExpiredIsSentAgain | user_message_protocol/ump_sock.c:611-650 | An expired packet goes out again as it was with the ack pending by then and has twice the time; from 15 s on the connection ends. |
| ControlPackets.AtMostFourSends | user_message_protocol/ump_sock.c:611-650 | Over any sending and any timeouts a SYN or FIN goes out at most four times while nothing comes from the peer. |
| ControlPackets.FourSendsHappen | user_message_protocol/ump_sock.c:611-650 | All four happen when each timeout expires. |
| Handshake.EstablishedAgrees | user_message_protocol/ump_sock.c:1174-1229 | In every state: at an endpoint in ESTABLISHED both have processed the other's SYN, an endpoint that has starts its receive base at the other's first number, and from then on `our_ctrl_seq` is the peer's `their_ctrl_seq` or one more modulo 65536. |
| Handshake.ConnectTrueMeansPeerKnows | user_message_protocol/ump_sock.c:1433-1442 | After a connect call has returned TRUE, the peer has processed our SYN and takes our data from our first number on. |
| Handshake.CloseAgrees | user_message_protocol/ump_sock.c:1470-1503 | An endpoint that is CLOSED again without an error has accepted the peer's FIN at its control number, and the peer has left ESTABLISHED, for active, passive and simultaneous close. |
| Handshake.ControlPacketArrives | user_message_protocol/ump_sock.c:1180-1191 | A SYN or FIN that is no longer resent, with no error, has been counted by the peer. |
| Handshake.CloseCanForgetFin | user_message_protocol/ump_sock.c:1480-1487 | There is a run in which an endpoint is CLOSED without an error, no FIN is among the packets it has sent, and the peer has not counted one. |
| Handshake.StepKeepsInv | user_message_protocol/ump_sock.c:46-104 | Every step of either endpoint, with any control packet of the network, keeps the invariant of the two-endpoint system. |

## Left out

- TransferResults.EndToEnd: for careful runs; a delivered packet or ack is not older than half the sequence space (read from the receiving end's base), a message has a length at which its end is read (`MessageSize.LengthDecides`), and each endpoint has one incarnation; outside the latter a number is misread (`Circular.ReadingIsExact`).
- TransferResults.SendTrueMeansReceived: says nothing about send calls that fail.
- Window.EdgeNeverMovesLeft: for a peer that stays inside the advertised edge; `AdvertisedEdge.HeldWindowNeverWraps` says when the peer does.
- Handshake.CloseAgrees: does not say that the peer has received our FIN, because CLOSING accepts any ack.
- Handshake.EstablishedAgrees: one connection for each socket; a second connect on a closed socket starts with old flags and is not modelled.
- Codec.OneByteIsDetected: the type bit is excluded, because flipping it can pass.
- ControlModel.RunKeepsInv: a user makes a control call only when none waits; `ControlModel.IssueLosesACall` is about the other case.
- RoundTrips.SentOnceIsMeasured: for runs without two repeated acks between messages; `RoundTrips.IdleAcksSpoil` is about those.
- Pointers of the linked lists: lists are sequences with positions, and of the links only the head's `prev` is kept. What a program does that uses freed memory is not modelled: a receiver that has done so takes no step.
- The list helpers of `user_message_protocol/ump_misc.c` are sequence operations here, and `ump_time_sub` is a subtraction of milliseconds.
- Data plane and control plane are separate systems: in `Transfer`, opening is the initial state (as `Handshake.EstablishedAgrees` justifies), and closing and errors are steps that may happen at any time.
- Real clocks, sockets, threads and events: time is an argument of a step, the network is the set of everything ever sent, trylock may fail at any time, users' calls are steps.
- Liveness: no claim that anything arrives over a network that loses packets; only retries are bounded.
- Heartbeat, active window probing, delayed acks and sleeping: they decide when an ack is prepared; any step may prepare one.
- MSS and window negotiation of the SYN: the sender starts with an arbitrary peer window, and a message with an arbitrary MSS of at least 1.
- The hash tables of sockets in ump.c, demultiplexing in core_thread.c, accept wake-ups, freeing of memory, the debug variants and the empty state functions.
