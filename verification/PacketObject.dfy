/**
  The packet object (upacket.c) and the way the socket fills it in (ump_sock.c:145-152,
  350-359, 992-1007).  A packet caches its bytes in `raw`; the flag and data setters mark
  the cache as out of date, writing a number does not.
 */
module PacketObject {
  import opened Circular
  import opened Message
  import opened Codec

  function Flipped(flags: Byte, mask: int): int {
    flags as int + (if Has(flags, mask) then -1 else 1) * mask
  }

  /** The same bit found by halving. */
  predicate Bit(n: nat, mask: nat) {
    if mask <= 1 then n % 2 == 1 else Bit(n / 2, mask / 2)
  }

  lemma {:induction false} BitIsHas(flags: Byte, mask: int)
    requires IsMask(mask)
    ensures Bit(flags, mask) == Has(flags, mask)
    decreases mask
  {
    if mask > 1 {
      assert mask == 2 * (mask / 2) && IsMask(mask / 2);
      HalfDivides(flags, mask / 2);
      BitIsHas(flags / 2, mask / 2);
    }
  }

  lemma HalfDivides(n: nat, m: int)
    requires IsMask(m)
    ensures n / (2 * m) == n / 2 / m
  {
  }

  lemma {:induction false} BitsMove(n: nat, m: nat, mask: int, other: int)
    requires IsMask(mask) && IsMask(other)
    requires m == n + mask
    ensures Bit(n, mask) != Bit(m, mask)
    ensures other < mask ==> Bit(n, other) == Bit(m, other)
    ensures other > mask && !Bit(n, mask) ==> Bit(n, other) == Bit(m, other)
    decreases mask
  {
    if mask > 1 {
      assert mask == 2 * (mask / 2) && IsMask(mask / 2) && m / 2 == n / 2 + mask / 2;
      BitsMove(n / 2, m / 2, mask / 2, if other > 1 then other / 2 else 1);
    }
  }

  lemma FlipStaysByte(flags: Byte, mask: int)
    requires IsMask(mask)
    ensures 0 <= Flipped(flags, mask) < 256
  {
  }

  /** Flipping one bit of a byte leaves the others alone. */
  lemma BitsAreSeparate(flags: Byte, mask: int, other: int)
    requires IsMask(mask) && IsMask(other)
    ensures 0 <= Flipped(flags, mask) < 256
    ensures Has(Flipped(flags, mask), other) <==> Has(flags, other) != (other == mask)
  {
    FlipStaysByte(flags, mask);
    var flipped := Flipped(flags, mask);
    BitIsHas(flags, mask);
    BitIsHas(flags, other);
    BitIsHas(flipped, mask);
    BitIsHas(flipped, other);
    if flipped > flags {
      BitsMove(flags, flipped, mask, other);
    } else {
      BitsMove(flipped, flags, mask, other);
    }
  }

  function SetBit(flags: Byte, mask: int): Byte
    requires IsMask(mask)
  {
    FlipStaysByte(flags, mask);
    if Has(flags, mask) then flags else Flipped(flags, mask)
  }

  function ClearBit(flags: Byte, mask: int): Byte
    requires IsMask(mask)
  {
    FlipStaysByte(flags, mask);
    if Has(flags, mask) then Flipped(flags, mask) else flags
  }

  lemma SetBitIs(flags: Byte, mask: int)
    requires IsMask(mask)
    ensures forall m :: IsMask(m) ==> Has(SetBit(flags, mask), m) == (m == mask || Has(flags, m))
  {
    forall m | IsMask(m) ensures Has(SetBit(flags, mask), m) == (m == mask || Has(flags, m)) {
      BitsAreSeparate(flags, mask, m);
    }
  }

  lemma ClearBitIs(flags: Byte, mask: int)
    requires IsMask(mask)
    ensures forall m :: IsMask(m) ==> Has(ClearBit(flags, mask), m) == (m != mask && Has(flags, m))
  {
    forall m | IsMask(m) ensures Has(ClearBit(flags, mask), m) == (m != mask && Has(flags, m)) {
      BitsAreSeparate(flags, mask, m);
    }
  }

  lemma VersionAndType(flags: Byte)
    ensures IsControl(flags) <==> !Has(flags, 128) && Has(flags, 64) && !Has(flags, TYPE)
    ensures IsData(flags) <==> !Has(flags, 128) && Has(flags, 64) && Has(flags, TYPE)
  {
  }

  // ---------- summing and laying out bytes ----------

  lemma PairStep(bytes: seq<Byte>, pos: nat, sum: int)
    requires pos + 1 < |bytes|
    ensures var next := Wire(Wire(sum + bytes[pos]) + 256 * bytes[pos + 1] as int);
      Wire(next + PairSum(bytes[pos + 2..])) == Wire(sum + PairSum(bytes[pos..]))
  {
    var low, high, rest := bytes[pos] as int, 256 * bytes[pos + 1] as int, PairSum(bytes[pos + 2..]);
    assert bytes[pos..][2..] == bytes[pos + 2..];
    WireAdd(sum + low, high);
    WireAdd(sum + low + high, rest);
  }

  lemma LastStep(bytes: seq<Byte>, pos: nat, sum: U16)
    requires pos <= |bytes| && pos + 1 >= |bytes|
    ensures Wire(sum + PairSum(bytes[pos..])) == if pos == |bytes| - 1 then Wire(sum + bytes[pos]) else sum
  {
  }

  /** The summing loop that encoder and decoder share (upacket.c:121-144, 181-216). */
  method SumBytes(bytes: seq<Byte>, control: bool) returns (sum: U16)
    requires |bytes| >= if control then 4 else 3
    ensures sum == Wire((if control then bytes[0] as int + bytes[1] as int else bytes[0])
                        + PairSum(bytes[if control then 4 else 3..]))
  {
    sum := bytes[0];
    var pos := 3;
    if control {
      sum := Wire(sum + bytes[1]);
      pos := 4;
    }
    ghost var total := Wire(sum + PairSum(bytes[pos..]));
    while pos < |bytes| - 1
      invariant 3 <= pos <= |bytes|
      invariant Wire(sum + PairSum(bytes[pos..])) == total
    {
      PairStep(bytes, pos, sum);
      sum := Wire(sum + bytes[pos]);
      sum := Wire(sum + 256 * bytes[pos + 1] as int);
      pos := pos + 2;
    }
    LastStep(bytes, pos, sum);
    if pos == |bytes| - 1 {
      sum := Wire(sum + bytes[pos]);
    }
  }

  /** Writes a 16-bit number in network order. */
  method PutWord(bytes: array<Byte>, d: nat, x: U16)
    requires d + 2 <= bytes.Length
    modifies bytes
    ensures bytes[..d] == old(bytes[..d]) && bytes[d..d + 2] == BigEndian(x)
    ensures bytes[d + 2..] == old(bytes[d + 2..])
  {
    bytes[d] := BigEndian(x)[0];
    bytes[d + 1] := BigEndian(x)[1];
  }

  /** Writes a field if its flag is set, and moves on. */
  method PutField(bytes: array<Byte>, d: nat, ghost from: nat, x: Option<U16>) returns (e: nat)
    requires from <= d && d + |Field(x)| <= bytes.Length
    modifies bytes
    ensures e == d + |Field(x)|
    ensures bytes[..from] == old(bytes[..from])
    ensures bytes[from..e] == old(bytes[from..d]) + Field(x)
  {
    e := d;
    if x.Some? {
      PutWord(bytes, d, x.value);
      e := d + 2;
      assert bytes[from..e] == bytes[from..d] + bytes[d..e];
      assert bytes[..d][from..] == bytes[from..d];
    }
  }

  // ---------- the object ----------

  class UMPPacket {
    const control: bool     // p_type
    const outgoing: bool    // direction
    var changed: bool
    var ctrlFlags1: Byte
    var ctrlFlags2: Byte
    var dataFlags: Byte
    var checkSum: U16
    var seqNum: U16
    var ackNum: U16
    var mssNum: U16
    var wndNum: U16
    var userData: seq<Byte>
    var raw: array?<Byte>

    function GetHead(): Head
      reads this
    {
      if control then ControlHead(ctrlFlags1, ctrlFlags2) else DataHead(dataFlags)
    }

    /** What the packet says: the fields whose flags are set, and the payload. */
    function GetContent(): (c: Content)
      reads this
      ensures FieldsMatch(c)
    {
      var h := GetHead();
      Content(h, Opt(HasSeq(h), seqNum), Opt(HasAck(h), ackNum), Opt(HasMss(h), mssNum), Opt(HasWnd(h), wndNum),
        userData)
    }

    predicate Valid()
      reads this
    {
      if control then IsControl(ctrlFlags1) else IsData(dataFlags)
    }

    /** The cached bytes, if they would be used, are those of the packet as it is now. */
    ghost predicate Coherent()
      reads this, raw
    {
      !changed && raw != null ==> raw[..] == Encode(GetContent())
    }

    /** u_packet_new */
    constructor (control: bool, outgoing: bool)
      ensures this.control == control && this.outgoing == outgoing
      ensures Valid() && !changed && raw == null
      ensures GetContent() == Content(if control then ControlHead(64, 0) else DataHead(96), None, None, None, None, [])
    {
      this.control := control;
      this.outgoing := outgoing;
      changed := false;
      ctrlFlags1, ctrlFlags2, dataFlags := 0, 0, 0;
      checkSum, seqNum, ackNum, mssNum, wndNum := 0, 0, 0, 0, 0;
      userData := [];
      raw := null;
      if control {
        ctrlFlags1 := 64;
      } else {
        dataFlags := 96;
      }
    }

    // ---------- flags ----------

    /** u_packet_get_flag */
    predicate GetFlag(mask: int)
      reads this
    {
      if !control then Has(dataFlags, mask)
      else if mask <= SYN then Has(ctrlFlags1, mask)
      else Has(ctrlFlags2, mask)
    }

    /** The flags that exist; others would change a data packet's type or version. */
    predicate IsFlag(mask: int) {
      IsMask(mask) && (control || mask <= REQWND)
    }

    /** u_packet_set_flag */
    method SetFlag(mask: int)
      requires Valid() && IsFlag(mask)
      modifies this`changed, this`ctrlFlags1, this`ctrlFlags2, this`dataFlags
      ensures Valid() && changed
      ensures forall m :: IsMask(m) ==> GetFlag(m) == (m == mask || old(GetFlag(m)))
    {
      if !control {
        SetBitIs(dataFlags, mask);
        KeepsVersion(dataFlags, SetBit(dataFlags, mask));
        dataFlags := SetBit(dataFlags, mask);
      } else if mask <= SYN {
        SetBitIs(ctrlFlags1, mask);
        KeepsVersion(ctrlFlags1, SetBit(ctrlFlags1, mask));
        ctrlFlags1 := SetBit(ctrlFlags1, mask);
      } else {
        SetBitIs(ctrlFlags2, mask);
        ctrlFlags2 := SetBit(ctrlFlags2, mask);
      }
      changed := true;
    }

    /** u_packet_clear_flag */
    method ClearFlag(mask: int)
      requires Valid() && IsFlag(mask)
      modifies this`changed, this`ctrlFlags1, this`ctrlFlags2, this`dataFlags
      ensures Valid() && changed
      ensures forall m :: IsMask(m) ==> GetFlag(m) == (m != mask && old(GetFlag(m)))
    {
      if !control {
        ClearBitIs(dataFlags, mask);
        KeepsVersion(dataFlags, ClearBit(dataFlags, mask));
        dataFlags := ClearBit(dataFlags, mask);
      } else if mask <= SYN {
        ClearBitIs(ctrlFlags1, mask);
        KeepsVersion(ctrlFlags1, ClearBit(ctrlFlags1, mask));
        ctrlFlags1 := ClearBit(ctrlFlags1, mask);
      } else {
        ClearBitIs(ctrlFlags2, mask);
        ctrlFlags2 := ClearBit(ctrlFlags2, mask);
      }
      changed := true;
    }

    // ---------- bytes ----------

    /** u_packet_to_binary: the cached bytes, or new ones. */
    method ToBinary() returns (bytes: array<Byte>)
      requires Valid() && Coherent()
      modifies this`raw, this`changed, this`checkSum
      ensures bytes == raw && !changed && Valid()
      ensures bytes[..] == Encode(GetContent())
    {
      if !changed && raw != null {
        return raw;
      }
      var k := if control then 2 else 1;
      bytes := LayOut(k);
      checkSum := PutSum(bytes, k, control, GetHead(), Body(GetContent()));
      raw := bytes;
      changed := false;
    }

    /** The bytes of the packet with room for the checksum (upacket.c:43-119). */
    method LayOut(k: nat) returns (bytes: array<Byte>)
      requires k == HeadSize(GetHead())
      ensures fresh(bytes) && bytes.Length >= k + 2
      ensures bytes[..k] == HeadBytes(GetHead()) && bytes[k + 2..] == Body(GetContent())
    {
      ghost var c := GetContent();
      var size := k + 2 + (if FlagSeq() then 2 else 0) + (if FlagAck() then 2 else 0)
        + (if FlagMss() then 2 else 0) + (if FlagWnd() then 2 else 0) + |userData|;
      BodyLength(c);
      bytes := new Byte[size](_ => 0);
      if control {
        bytes[0], bytes[1] := ctrlFlags1, ctrlFlags2;
      } else {
        bytes[0] := dataFlags;
      }
      assert bytes[..k] == HeadBytes(GetHead());
      PutBody(bytes, k + 2, c);
      assert bytes[..k + 2][..k] == bytes[..k];
    }

    method PutBody(bytes: array<Byte>, from: nat, ghost c: Content)
      requires c == GetContent() && from + |Body(c)| == bytes.Length
      requires bytes != raw
      modifies bytes
      ensures bytes[..from] == old(bytes[..from]) && bytes[from..] == Body(c)
    {
      BodyLength(c);
      var d := PutField(bytes, from, from, Opt(FlagSeq(), seqNum));
      d := PutField(bytes, d, from, Opt(FlagAck(), ackNum));
      d := PutField(bytes, d, from, Opt(FlagMss(), mssNum));
      d := PutField(bytes, d, from, Opt(FlagWnd(), wndNum));
      BodyInOrder(c);
      CopyAt(bytes, d, from, userData);
    }

    predicate FlagSeq() reads this { GetFlag(if control then CTRL_SEQ else DATA_SEQ) }
    predicate FlagAck() reads this { GetFlag(if control then CTRL_ACK else DATA_ACK) }
    predicate FlagMss() reads this { control && GetFlag(CTRL_MSS) }
    predicate FlagWnd() reads this { GetFlag(if control then CTRL_WND else DATA_WND) }

    /** u_packet_set_data: only an outgoing packet's payload can be replaced. */
    method SetData(data: seq<Byte>)
      requires Valid() && Coherent()
      modifies this`userData, this`changed
      ensures Valid() && Coherent()
      ensures GetContent() == if outgoing then old(GetContent()).(payload := data) else old(GetContent())
    {
      if outgoing {
        userData := data;
        changed := true;
      }
    }
  }

  /** Computes the checksum and writes it into its place (upacket.c:121-147). */
  method PutSum(bytes: array<Byte>, k: nat, control: bool, ghost h: Head, ghost body: seq<Byte>) returns (sum: U16)
    requires k == HeadSize(h) && control == h.ControlHead? && k + 2 <= bytes.Length
    requires bytes[..k] == HeadBytes(h) && bytes[k + 2..] == body
    modifies bytes
    ensures sum == Checksum(h, body)
    ensures bytes[..] == HeadBytes(h) + (BigEndian(sum) + body)
  {
    sum := SumBytes(bytes[..], control);
    SumOfBytes(bytes[..], h);
    PutWord(bytes, k, sum);
    ThreeParts(bytes[..], k);
  }

  lemma ThreeParts(bytes: seq<Byte>, k: nat)
    requires k + 2 <= |bytes|
    ensures bytes[..k] + (bytes[k..k + 2] + bytes[k + 2..]) == bytes
  {
  }

  /** Reads a declared field at pos unless the buffer ends there; its second byte may lie
      one past the end. */
  method NextField(bytes: seq<Byte>, pos: nat, present: bool, beyond: Byte) returns (ok: bool, x: U16, next: nat)
    requires pos <= |bytes| + 1
    ensures pos <= next <= |bytes| + 1
    ensures ReadField(present, Rest(bytes, pos), beyond)
      == if ok then Some((Opt(present, x), Rest(bytes, next))) else None
  {
    ok, x, next := true, 0, pos;
    if present {
      if pos >= |bytes| {
        return false, 0, pos;
      }
      x := Word(bytes[pos], if pos + 1 < |bytes| then bytes[pos + 1] else beyond);
      next := pos + 2;
    }
  }

  function Rest(bytes: seq<Byte>, pos: nat): seq<Byte> {
    if pos <= |bytes| then bytes[pos..] else []
  }

  /** u_packet_from_binary */
  method FromBinary(raw: array<Byte>, beyond: Byte) returns (p: UMPPacket?)
    ensures p == null <==> Decode(raw[..], beyond).None?
    ensures p != null ==> fresh(p) && p.Valid() && p.raw == raw && !p.outgoing
    ensures p != null ==> Decode(raw[..], beyond) == Some(p.GetContent())
    ensures p != null ==> (p.Coherent() <==> !Cut(raw[..]))
  {
    var buf := raw[..];
    p := ReadPacketHead(buf);
    if p == null {
      return;
    }
    var k := if p.control then 2 else 1;
    var sum := SumBytes(buf, p.control);
    SumOfBytes(buf, p.GetHead());
    if sum != Word(buf[k], buf[k + 1]) {
      return null;
    }
    p.checkSum := sum;
    p.raw := raw;
    var ok := ReadBody(p, buf, beyond);
    if !ok {
      return null;
    }
    EncodeDecode(buf, beyond);
  }

  /** The checks on version, type and length, and the flag bytes. */
  method ReadPacketHead(buf: seq<Byte>) returns (p: UMPPacket?)
    ensures p == null <==> ReadHead(buf).None?
    ensures p != null ==> fresh(p) && p.Valid() && !p.outgoing && !p.changed && p.raw == null
    ensures p != null ==> Some(p.GetHead()) == ReadHead(buf) && p.userData == []
  {
    if |buf| < 1 || !(64 <= buf[0] < 128) {
      return null;
    }
    if buf[0] < 96 {
      if |buf| < 4 {
        return null;
      }
      p := new UMPPacket(true, false);
      p.ctrlFlags1, p.ctrlFlags2 := buf[0], buf[1];
    } else {
      if |buf| < 3 {
        return null;
      }
      p := new UMPPacket(false, false);
      p.dataFlags := buf[0];
    }
  }

  /** The fields and the payload, walking along the buffer (upacket.c:229-297). */
  method ReadBody(p: UMPPacket, buf: seq<Byte>, beyond: Byte) returns (ok: bool)
    requires Long(buf, p.GetHead()) && p.userData == []
    modifies p`seqNum, p`ackNum, p`mssNum, p`wndNum, p`userData
    ensures ReadFields(p.GetHead(), AfterSum(buf, p.GetHead()), beyond)
      == if ok then Some(p.GetContent()) else None
  {
    var good, x1, x2, x3, x4, pos := WalkFields(buf, if p.control then 4 else 3, p.GetHead(), beyond);
    ok := good;
    if ok {
      p.seqNum, p.ackNum, p.mssNum, p.wndNum := x1, x2, x3, x4;
      if pos < |buf| {
        p.userData := buf[pos..];
      }
      assert p.userData == Rest(buf, pos);
    }
  }

  method WalkFields(buf: seq<Byte>, start: nat, h: Head, beyond: Byte)
    returns (ok: bool, x1: U16, x2: U16, x3: U16, x4: U16, pos: nat)
    requires start <= |buf|
    ensures ReadFields(h, buf[start..], beyond)
      == if !ok then None
         else Some(Content(h, Opt(HasSeq(h), x1), Opt(HasAck(h), x2), Opt(HasMss(h), x3), Opt(HasWnd(h), x4),
           Rest(buf, pos)))
  {
    x1, x2, x3, x4 := 0, 0, 0, 0;
    ok, x1, pos := NextField(buf, start, HasSeq(h), beyond);
    if !ok { return; }
    ok, x2, pos := NextField(buf, pos, HasAck(h), beyond);
    if !ok { return; }
    ok, x3, pos := NextField(buf, pos, HasMss(h), beyond);
    if !ok { return; }
    ok, x4, pos := NextField(buf, pos, HasWnd(h), beyond);
  }

  method CopyAt(bytes: array<Byte>, d: nat, ghost from: nat, data: seq<Byte>)
    requires from <= d && d + |data| == bytes.Length
    modifies bytes
    ensures bytes[..from] == old(bytes[..from])
    ensures bytes[from..] == old(bytes[from..d]) + data
  {
    forall i | 0 <= i < |data| {
      bytes[d + i] := data[i];
    }
  }

  lemma BodyLength(c: Content)
    ensures |Body(c)| == |Field(c.seqNum)| + |Field(c.ackNum)| + |Field(c.mssNum)| + |Field(c.wndNum)| + |c.payload|
  {
  }

  lemma BodyInOrder(c: Content)
    ensures [] + Field(c.seqNum) + Field(c.ackNum) + Field(c.mssNum) + Field(c.wndNum) + c.payload == Body(c)
  {
  }

  lemma SumOfBytes(bytes: seq<Byte>, h: Head)
    requires Long(bytes, h) && bytes[..HeadSize(h)] == HeadBytes(h)
    ensures Checksum(h, AfterSum(bytes, h))
      == Wire((if h.ControlHead? then bytes[0] as int + bytes[1] as int else bytes[0])
              + PairSum(bytes[if h.ControlHead? then 4 else 3..]))
  {
    var head := bytes[..HeadSize(h)];
    assert head[0] == bytes[0];
    assert h.ControlHead? ==> head[1] == bytes[1];
  }

  // ---------- how the socket uses a packet ----------

  /** Numbering a data packet; the last one of a message also gets BDR (ump_sock.c:349-359). */
  method Number(p: UMPPacket, num: U16, last: bool)
    requires p.Valid() && p.Coherent() && !p.control
    modifies p`changed, p`dataFlags, p`ctrlFlags1, p`ctrlFlags2, p`seqNum
    ensures p.Valid() && p.Coherent() && p.changed
    ensures p.GetContent().seqNum == Some(num) && p.GetFlag(BDR) == (last || old(p.GetFlag(BDR)))
    ensures p.GetContent().ackNum == old(p.GetContent()).ackNum && p.GetContent().wndNum == old(p.GetContent()).wndNum
  {
    AllMasks();
    p.SetFlag(DATA_SEQ);
    p.seqNum := num;
    if last {
      p.SetFlag(BDR);
    }
  }

  /** The ack and window fields of a data packet (ump_sock.c:992-1007). */
  method PutAckInfo(p: UMPPacket, ack: Option<(U16, U16)>)
    requires p.Valid() && p.Coherent() && !p.control
    modifies p`changed, p`dataFlags, p`ctrlFlags1, p`ctrlFlags2, p`ackNum, p`wndNum
    ensures p.Valid() && p.Coherent() && p.changed
    ensures p.GetContent().seqNum == old(p.GetContent()).seqNum && p.GetFlag(BDR) == old(p.GetFlag(BDR))
    ensures p.GetContent().ackNum == (if ack.Some? then Some(ack.value.0) else None)
    ensures p.GetContent().wndNum == (if ack.Some? then Some(ack.value.1) else None)
  {
    AllMasks();
    if ack.Some? {
      p.SetFlag(DATA_ACK);
      p.ackNum := ack.value.0;
      p.SetFlag(DATA_WND);
      p.wndNum := ack.value.1;
    } else {
      p.ClearFlag(DATA_ACK);
      p.ClearFlag(DATA_WND);
    }
  }

  /** The ack of a control packet that is about to be sent (ump_sock.c:145-151). */
  method PutCtrlAck(p: UMPPacket, ack: Option<U16>)
    requires p.Valid() && p.Coherent() && p.control
    modifies p`changed, p`dataFlags, p`ctrlFlags1, p`ctrlFlags2, p`ackNum
    ensures p.Valid() && p.Coherent() && p.changed
    ensures p.GetContent().ackNum == ack && p.GetContent().seqNum == old(p.GetContent()).seqNum
    ensures p.GetFlag(SYN) == old(p.GetFlag(SYN)) && p.GetFlag(FIN) == old(p.GetFlag(FIN))
  {
    AllMasks();
    if ack.Some? {
      p.SetFlag(CTRL_ACK);
      p.ackNum := ack.value;
    } else {
      p.ClearFlag(CTRL_ACK);
    }
  }

  /** A packet sent again with a new ack is encoded again: the peer decodes what the packet
      says now, never a cached older version. */
  method Resend(p: UMPPacket, ack: Option<(U16, U16)>, beyond: Byte) returns (bytes: array<Byte>)
    requires p.Valid() && p.Coherent() && !p.control
    modifies p
    ensures p.Valid() && p.Coherent()
    ensures Decode(bytes[..], beyond) == Some(p.GetContent())
    ensures p.GetContent().ackNum == (if ack.Some? then Some(ack.value.0) else None)
    ensures p.GetContent().seqNum == old(p.GetContent()).seqNum
  {
    PutAckInfo(p, ack);
    bytes := p.ToBinary();
    DecodeEncode(p.GetContent(), beyond);
  }

  function Opt(present: bool, x: U16): Option<U16> {
    if present then Some(x) else None
  }

  lemma AllMasks()
    ensures IsMask(1) && IsMask(2) && IsMask(4) && IsMask(8) && IsMask(16) && IsMask(32) && IsMask(64) && IsMask(128)
  {
  }

  lemma KeepsVersion(before: Byte, after: Byte)
    requires forall m :: IsMask(m) && m >= TYPE ==> Has(after, m) == Has(before, m)
    ensures IsControl(after) == IsControl(before) && IsData(after) == IsData(before)
  {
    VersionAndType(before);
    VersionAndType(after);
    assert IsMask(128) && IsMask(64) && IsMask(TYPE);
  }
}
