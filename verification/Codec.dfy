/**
  The packet codec (upacket.c): flag bytes, a 16-bit additive checksum, up to four optional
  big-endian fields and the payload.

  A field that the flags declare but of which only one byte is left in the buffer is read
  with one byte from past its end; `beyond` stands for that byte.
 */
module Codec {
  import opened Circular
  import opened Message

  const REQWND := 16
  const BDR := 8
  const SYN := 8
  const FIN := 4
  const RST := 2
  const DATA_SEQ := 4
  const DATA_ACK := 2
  const DATA_WND := 1
  const CTRL_SEQ := 128
  const CTRL_ACK := 64
  const CTRL_MSS := 32
  const CTRL_WND := 16
  const TYPE := 32

  // ---------- flag bytes ----------

  predicate IsMask(m: int) {
    m in {1, 2, 4, 8, 16, 32, 64, 128}
  }

  predicate Has(flags: Byte, mask: int) {
    IsMask(mask) && flags / mask % 2 == 1
  }

  /** Both type bits and the version: 64 of the mask 192. */
  predicate IsControl(flags: Byte) {
    64 <= flags < 96
  }

  predicate IsData(flags: Byte) {
    96 <= flags < 128
  }

  datatype Head = ControlHead(flags1: Byte, flags2: Byte) | DataHead(flags: Byte)

  datatype Content = Content(head: Head, seqNum: Option<U16>, ackNum: Option<U16>, mssNum: Option<U16>,
    wndNum: Option<U16>, payload: seq<Byte>)

  predicate HasSeq(h: Head) {
    if h.ControlHead? then Has(h.flags2, CTRL_SEQ) else Has(h.flags, DATA_SEQ)
  }

  predicate HasAck(h: Head) {
    if h.ControlHead? then Has(h.flags2, CTRL_ACK) else Has(h.flags, DATA_ACK)
  }

  predicate HasMss(h: Head) {
    h.ControlHead? && Has(h.flags2, CTRL_MSS)
  }

  predicate HasWnd(h: Head) {
    if h.ControlHead? then Has(h.flags2, CTRL_WND) else Has(h.flags, DATA_WND)
  }

  /** A packet as the library makes them: its version and type, and a field for each flag. */
  predicate WellFormed(c: Content) {
    && (if c.head.ControlHead? then IsControl(c.head.flags1) else IsData(c.head.flags))
    && FieldsMatch(c)
  }

  predicate FieldsMatch(c: Content) {
    && c.seqNum.Some? == HasSeq(c.head) && c.ackNum.Some? == HasAck(c.head)
    && c.mssNum.Some? == HasMss(c.head) && c.wndNum.Some? == HasWnd(c.head)
  }

  // ---------- encoding ----------

  function HeadBytes(h: Head): seq<Byte> {
    if h.ControlHead? then [h.flags1, h.flags2] else [h.flags]
  }

  function HeadSum(h: Head): nat {
    if h.ControlHead? then h.flags1 + h.flags2 else h.flags
  }

  function Word(hi: Byte, lo: Byte): U16 {
    (hi as int) * 256 + lo as int
  }

  function BigEndian(x: U16): (b: seq<Byte>)
    ensures |b| == 2 && Word(b[0], b[1]) == x
  {
    [x / 256, x % 256]
  }

  function Field(x: Option<U16>): seq<Byte> {
    if x.None? then [] else BigEndian(x.value)
  }

  function Body(c: Content): seq<Byte> {
    Field(c.seqNum) + (Field(c.ackNum) + (Field(c.mssNum) + (Field(c.wndNum) + c.payload)))
  }

  /** The bytes after the checksum, read as little-endian pairs. */
  function PairSum(bytes: seq<Byte>): nat {
    if bytes == [] then 0
    else if |bytes| == 1 then bytes[0]
    else bytes[0] as int + 256 * bytes[1] as int + PairSum(bytes[2..])
  }

  function Checksum(h: Head, body: seq<Byte>): U16 {
    Wire(HeadSum(h) + PairSum(body))
  }

  function Encode(c: Content): seq<Byte> {
    HeadBytes(c.head) + (BigEndian(Checksum(c.head, Body(c))) + Body(c))
  }

  // ---------- decoding ----------

  /** Reads a declared field: its value and the bytes after it, or nothing at the end. */
  function ReadField(present: bool, bytes: seq<Byte>, beyond: Byte): Option<(Option<U16>, seq<Byte>)> {
    if !present then Some((None, bytes))
    else if bytes == [] then None
    else if |bytes| == 1 then Some((Some(Word(bytes[0], beyond)), []))
    else Some((Some(Word(bytes[0], bytes[1])), bytes[2..]))
  }

  function ReadFields(h: Head, body: seq<Byte>, beyond: Byte): Option<Content> {
    var r1 := ReadField(HasSeq(h), body, beyond);
    if r1.None? then None else
    var r2 := ReadField(HasAck(h), r1.value.1, beyond);
    if r2.None? then None else
    var r3 := ReadField(HasMss(h), r2.value.1, beyond);
    if r3.None? then None else
    var r4 := ReadField(HasWnd(h), r3.value.1, beyond);
    if r4.None? then None else
    Some(Content(h, r1.value.0, r2.value.0, r3.value.0, r4.value.0, r4.value.1))
  }

  /** The flag bytes, if the version is right and the buffer holds the fixed part. */
  function ReadHead(buf: seq<Byte>): (h: Option<Head>)
    ensures h.Some? ==> Long(buf, h.value) && HeadBytes(h.value) == buf[..HeadSize(h.value)]
  {
    if |buf| < 3 then None
    else if IsData(buf[0]) then Some(DataHead(buf[0]))
    else if IsControl(buf[0]) && |buf| >= 4 then Some(ControlHead(buf[0], buf[1]))
    else None
  }

  function HeadSize(h: Head): nat {
    if h.ControlHead? then 2 else 1
  }

  function Decode(buf: seq<Byte>, beyond: Byte): Option<Content> {
    var h := ReadHead(buf);
    if h.None? then None else
    if !SumFits(buf, h.value) then None
    else ReadFields(h.value, AfterSum(buf, h.value), beyond)
  }

  predicate Long(buf: seq<Byte>, h: Head) {
    |buf| >= HeadSize(h) + 2
  }

  function AfterSum(buf: seq<Byte>, h: Head): seq<Byte>
    requires Long(buf, h)
  {
    buf[HeadSize(h) + 2..]
  }

  predicate SumFits(buf: seq<Byte>, h: Head)
    requires Long(buf, h)
  {
    Word(buf[HeadSize(h)], buf[HeadSize(h) + 1]) == Checksum(h, AfterSum(buf, h))
  }

  function FieldsSize(h: Head): nat {
    (if HasSeq(h) then 2 else 0) + (if HasAck(h) then 2 else 0)
      + (if HasMss(h) then 2 else 0) + (if HasWnd(h) then 2 else 0)
  }

  // ---------- round trips ----------

  lemma ReadWrittenField(x: Option<U16>, rest: seq<Byte>, beyond: Byte)
    ensures ReadField(x.Some?, Field(x) + rest, beyond) == Some((x, rest))
  {
    if x.Some? {
      var bytes := Field(x) + rest;
      assert bytes[0] == x.value / 256 && bytes[1] == x.value % 256;
      assert bytes[2..] == rest;
    } else {
      assert Field(x) + rest == rest;
    }
  }

  lemma ReadWrittenFields(c: Content, beyond: Byte)
    requires WellFormed(c)
    ensures ReadFields(c.head, Body(c), beyond) == Some(c)
  {
    var tail4 := Field(c.wndNum) + c.payload;
    var tail3 := Field(c.mssNum) + tail4;
    var tail2 := Field(c.ackNum) + tail3;
    ReadWrittenField(c.seqNum, tail2, beyond);
    ReadWrittenField(c.ackNum, tail3, beyond);
    ReadWrittenField(c.mssNum, tail4, beyond);
    ReadWrittenField(c.wndNum, c.payload, beyond);
  }

  lemma EncodedParts(c: Content)
    requires WellFormed(c)
    ensures ReadHead(Encode(c)) == Some(c.head)
    ensures SumFits(Encode(c), c.head) && AfterSum(Encode(c), c.head) == Body(c)
  {
    SumIsPlaced(HeadBytes(c.head), Checksum(c.head, Body(c)), Body(c));
  }

  lemma SumIsPlaced(head: seq<Byte>, sum: U16, body: seq<Byte>)
    ensures var buf, k := head + (BigEndian(sum) + body), |head|;
      buf[..k] == head && Word(buf[k], buf[k + 1]) == sum && buf[k + 2..] == body
  {
    var buf, k := head + (BigEndian(sum) + body), |head|;
    assert buf[k] == BigEndian(sum)[0] && buf[k + 1] == BigEndian(sum)[1];
  }

  /** Decoding an encoded packet gives the packet back, whatever lies behind the buffer. */
  lemma DecodeEncode(c: Content, beyond: Byte)
    requires WellFormed(c)
    ensures Decode(Encode(c), beyond) == Some(c)
  {
    EncodedParts(c);
    ReadWrittenFields(c, beyond);
  }

  /** So packets that differ in anything have different bytes: a cache that misses a change
      is wrong. */
  lemma EncodingsDiffer(c: Content, d: Content)
    requires WellFormed(c) && WellFormed(d) && c != d
    ensures Encode(c) != Encode(d)
  {
    DecodeEncode(c, 0);
    DecodeEncode(d, 0);
  }

  /** A field that is read writes back as the bytes it was read from unless it was cut. */
  lemma WriteReadField(present: bool, bytes: seq<Byte>, beyond: Byte)
    ensures var r := ReadField(present, bytes, beyond);
      && (r.None? <==> present && bytes == [])
      && (r.Some? ==> r.value.0.Some? == present)
      && (r.Some? ==> (Field(r.value.0) + r.value.1 == bytes <==> !(present && |bytes| == 1)))
      && (r.Some? ==> |Field(r.value.0) + r.value.1| == if present && |bytes| == 1 then 2 else |bytes|)
      && (r.Some? && present && |bytes| == 1 ==> r.value.1 == [])
  {
  }

  lemma ReadFieldsBack(h: Head, body: seq<Byte>, beyond: Byte)
    ensures var r := ReadFields(h, body, beyond);
      && (r.Some? <==> |body| + 1 >= FieldsSize(h))
      && (r.Some? ==> FieldsMatch(r.value) && r.value.head == h)
      && (r.Some? ==> (Body(r.value) == body <==> |body| >= FieldsSize(h)))
  {
    var r1 := ReadField(HasSeq(h), body, beyond);
    WriteReadField(HasSeq(h), body, beyond);
    if r1.Some? {
      var r2 := ReadField(HasAck(h), r1.value.1, beyond);
      WriteReadField(HasAck(h), r1.value.1, beyond);
      if r2.Some? {
        var r3 := ReadField(HasMss(h), r2.value.1, beyond);
        WriteReadField(HasMss(h), r2.value.1, beyond);
        if r3.Some? {
          WriteReadField(HasWnd(h), r3.value.1, beyond);
        }
      }
    }
  }

  /** The buffer ends inside the last field its flags declare. */
  predicate Cut(buf: seq<Byte>) {
    var h := ReadHead(buf);
    h.Some? && |buf| < HeadSize(h.value) + 2 + FieldsSize(h.value)
  }

  /** Exactly which buffers are accepted. */
  lemma AcceptedExactly(buf: seq<Byte>, beyond: Byte)
    ensures Decode(buf, beyond).Some? <==>
      var h := ReadHead(buf);
      h.Some? && SumFits(buf, h.value) && |buf| + 1 >= HeadSize(h.value) + 2 + FieldsSize(h.value)
  {
    var h := ReadHead(buf);
    if h.Some? {
      ReadFieldsBack(h.value, AfterSum(buf, h.value), beyond);
    }
  }

  /** Encoding what was decoded gives the buffer back exactly when no field was cut. */
  lemma EncodeDecode(buf: seq<Byte>, beyond: Byte)
    requires Decode(buf, beyond).Some?
    ensures var c := Decode(buf, beyond).value;
      WellFormed(c) && (Encode(c) == buf <==> !Cut(buf))
  {
    var h := ReadHead(buf).value;
    ReadFieldsBack(h, AfterSum(buf, h), beyond);
    EncodedIs(buf, h, Decode(buf, beyond).value);
  }

  lemma EncodedIs(buf: seq<Byte>, h: Head, c: Content)
    requires Long(buf, h) && HeadBytes(h) == buf[..HeadSize(h)] && SumFits(buf, h) && c.head == h
    ensures Encode(c) == buf <==> Body(c) == AfterSum(buf, h)
  {
    if Body(c) == AfterSum(buf, h) {
      Regroup(buf, HeadSize(h));
    } else {
      SumIsPlaced(HeadBytes(h), Checksum(h, Body(c)), Body(c));
    }
  }

  lemma Regroup(buf: seq<Byte>, k: nat)
    requires k + 2 <= |buf|
    ensures buf[..k] + (BigEndian(Word(buf[k], buf[k + 1])) + buf[k + 2..]) == buf
  {
    WordSplits(buf[k], buf[k + 1]);
    assert buf == buf[..k] + ([buf[k], buf[k + 1]] + buf[k + 2..]);
  }

  lemma WordSplits(hi: Byte, lo: Byte)
    ensures BigEndian(Word(hi, lo)) == [hi, lo]
  {
  }

  /** A field that is not cut is read the same with one byte more behind it; one that is takes it. */
  lemma OneByteMore(present: bool, bytes: seq<Byte>, beyond: Byte, any: Byte)
    requires present ==> bytes != []
    ensures var r, longer := ReadField(present, bytes, beyond), ReadField(present, bytes + [beyond], any);
      && r.Some? && longer.Some? && longer.value.0 == r.value.0
      && longer.value.1 == if present && |bytes| == 1 then [] else r.value.1 + [beyond]
  {
    var longer := bytes + [beyond];
    if present && |bytes| >= 2 {
      assert longer[2..] == bytes[2..] + [beyond];
    } else if present {
      assert longer[2..] == [];
    }
  }

  /** A buffer that is cut inside its last field is read as if the byte behind it belonged to it. */
  lemma CutFieldTakesByteBehind(h: Head, body: seq<Byte>, beyond: Byte, any: Byte)
    requires |body| + 1 == FieldsSize(h)
    ensures ReadFields(h, body, beyond) == ReadFields(h, body + [beyond], any)
  {
    OneByteMore(HasSeq(h), body, beyond, any);
    var tail1 := ReadField(HasSeq(h), body, beyond).value.1;
    if tail1 != [] || !HasSeq(h) {
      OneByteMore(HasAck(h), tail1, beyond, any);
      var tail2 := ReadField(HasAck(h), tail1, beyond).value.1;
      if tail2 != [] || !HasAck(h) {
        OneByteMore(HasMss(h), tail2, beyond, any);
        var tail3 := ReadField(HasMss(h), tail2, beyond).value.1;
        if tail3 != [] || !HasMss(h) {
          OneByteMore(HasWnd(h), tail3, beyond, any);
        }
      }
    }
  }

  // ---------- the layout ----------

  /** The byte at i weighs 1 at an even place and 256 at an odd one. */
  function WeightedSum(bytes: seq<Byte>, n: nat): nat
    requires n <= |bytes|
  {
    if n == 0 then 0 else WeightedSum(bytes, n - 1) + (if n % 2 == 1 then 1 else 256) * bytes[n - 1] as int
  }

  lemma {:induction false} PairSumIsWeighted(bytes: seq<Byte>)
    ensures PairSum(bytes) == WeightedSum(bytes, |bytes|)
  {
    if |bytes| >= 2 {
      PairSumIsWeighted(bytes[2..]);
      WeightsShift(bytes, |bytes| - 2);
    } else if |bytes| == 1 {
      assert WeightedSum(bytes, 0) == 0;
    }
  }

  lemma {:induction false} WeightsShift(bytes: seq<Byte>, n: nat)
    requires n + 2 <= |bytes|
    ensures WeightedSum(bytes, n + 2) == bytes[0] as int + 256 * bytes[1] as int + WeightedSum(bytes[2..], n)
  {
    if n == 0 {
      assert WeightedSum(bytes, 1) == bytes[0] as int;
    } else {
      WeightsShift(bytes, n - 1);
    }
  }

  /** Two bytes of a buffer in network order. */
  predicate NumberAt(buf: seq<Byte>, at: nat, x: Option<U16>) {
    x.Some? ==> at + 2 <= |buf| && buf[at] == x.value / 256 && buf[at + 1] == x.value % 256
  }

  function Size(x: Option<U16>): nat {
    if x.Some? then 2 else 0
  }

  /** From `at` on: the number, the ack, the packet size and the window as far as they are there,
      and the payload. */
  predicate FieldsAt(buf: seq<Byte>, at: nat, c: Content) {
    var ackAt := at + Size(c.seqNum);
    var mssAt := ackAt + Size(c.ackNum);
    var wndAt := mssAt + Size(c.mssNum);
    var dataAt := wndAt + Size(c.wndNum);
    && |buf| == dataAt + |c.payload|
    && NumberAt(buf, at, c.seqNum) && NumberAt(buf, ackAt, c.ackNum)
    && NumberAt(buf, mssAt, c.mssNum) && NumberAt(buf, wndAt, c.wndNum)
    && buf[dataAt..] == c.payload
  }

  /** The flag bytes, and the checksum over them and over what follows it. */
  predicate HeadAt(buf: seq<Byte>, h: Head) {
    var k, flags := if h.ControlHead? then 2 else 1, if h.ControlHead? then h.flags1 + h.flags2 else h.flags;
    && |buf| >= k + 2
    && buf[..k] == (if h.ControlHead? then [h.flags1, h.flags2] else [h.flags])
    && NumberAt(buf, k, Some((flags + WeightedSum(buf[k + 2..], |buf| - k - 2)) % MODULUS))
  }

  /** Where everything is, each number with its high byte first. */
  lemma Layout(c: Content)
    requires WellFormed(c)
    ensures HeadAt(Encode(c), c.head)
    ensures FieldsAt(Encode(c), if c.head.ControlHead? then 4 else 3, c)
  {
    EncodedHead(c.head, Body(c));
    EncodedParts(c);
    FieldsInOrder(c);
    FieldsMove(Encode(c), HeadSize(c.head) + 2, c);
  }

  lemma EncodedHead(h: Head, body: seq<Byte>)
    ensures HeadAt(HeadBytes(h) + (BigEndian(Checksum(h, body)) + body), h)
  {
    SumInOrder(HeadBytes(h), Checksum(h, body), body);
    ChecksumIs(h, body);
  }

  lemma SumInOrder(head: seq<Byte>, sum: U16, body: seq<Byte>)
    ensures var buf := head + (BigEndian(sum) + body);
      |buf| == |head| + 2 + |body| && buf[..|head|] == head && buf[|head| + 2..] == body
      && NumberAt(buf, |head|, Some(sum))
  {
  }

  lemma ChecksumIs(h: Head, body: seq<Byte>)
    ensures Checksum(h, body)
      == ((if h.ControlHead? then h.flags1 + h.flags2 else h.flags) + WeightedSum(body, |body|)) % MODULUS
  {
    PairSumIsWeighted(body);
  }

  lemma FieldsInOrder(c: Content)
    ensures FieldsAt(Body(c), 0, c)
  {
    var tail4 := Field(c.wndNum) + c.payload;
    var tail3 := Field(c.mssNum) + tail4;
    var tail2 := Field(c.ackNum) + tail3;
    FieldInFront(c.seqNum, tail2);
    FieldInFront(c.ackNum, tail3);
    FieldInFront(c.mssNum, tail4);
    FieldInFront(c.wndNum, c.payload);
    assert Body(c)[Size(c.seqNum)..] == tail2;
    assert tail2[Size(c.ackNum)..] == tail3 && tail3[Size(c.mssNum)..] == tail4;
  }

  lemma FieldsMove(buf: seq<Byte>, at: nat, c: Content)
    requires at <= |buf| && FieldsAt(buf[at..], 0, c)
    ensures FieldsAt(buf, at, c)
  {
  }

  lemma FieldInFront(x: Option<U16>, rest: seq<Byte>)
    ensures NumberAt(Field(x) + rest, 0, x) && (Field(x) + rest)[Size(x)..] == rest
    ensures |Field(x)| == Size(x)
  {
  }

  /** Which bits of the flag bytes say that a field is there. */
  lemma FlagBits(h: Head)
    ensures h.DataHead? ==>
      && (HasSeq(h) <==> h.flags / 4 % 2 == 1) && (HasAck(h) <==> h.flags / 2 % 2 == 1)
      && (HasWnd(h) <==> h.flags % 2 == 1) && !HasMss(h)
    ensures h.ControlHead? ==>
      && (HasSeq(h) <==> h.flags2 / 128 == 1) && (HasAck(h) <==> h.flags2 / 64 % 2 == 1)
      && (HasMss(h) <==> h.flags2 / 32 % 2 == 1) && (HasWnd(h) <==> h.flags2 / 16 % 2 == 1)
  {
  }

  // ---------- the checksum ----------

  lemma {:induction false} PairSumUpdate(bytes: seq<Byte>, i: nat, b: Byte)
    requires i < |bytes|
    ensures PairSum(bytes[i := b]) == PairSum(bytes) + (if i % 2 == 0 then 1 else 256) * (b - bytes[i])
  {
    if i >= 2 {
      PairSumUpdate(bytes[2..], i - 2, b);
      assert bytes[i := b][2..] == bytes[2..][i - 2 := b];
    } else {
      assert |bytes| >= 2 ==> bytes[i := b][2..] == bytes[2..];
    }
  }

  lemma SmallChangeShows(sum: nat, other: nat, d: int)
    requires other == sum + d && d != 0 && -MODULUS < d < MODULUS
    ensures Wire(other) != Wire(sum)
  {
    if Wire(other) == Wire(sum) {
      WireEqual(other, sum);
    }
  }

  /** Changing any one byte of an accepted buffer, the type bit apart, makes it refused. */
  lemma OneByteIsDetected(buf: seq<Byte>, beyond: Byte, i: nat, b: Byte, beyond': Byte)
    requires Decode(buf, beyond).Some?
    requires i < |buf| && b != buf[i]
    requires i == 0 ==> Has(b, TYPE) == Has(buf[0], TYPE)
    ensures Decode(buf[i := b], beyond').None?
  {
    var h, h' := ReadHead(buf).value, ReadHead(buf[i := b]);
    if h'.Some? {
      TypeBitTells(buf[0], buf[i := b][0]);
      if i < HeadSize(h) {
        HeadByteShows(buf, h, i, b, h'.value);
      } else {
        assert h'.value == h;
        if i < HeadSize(h) + 2 {
          SumByteShows(buf, h, i, b);
        } else {
          BodyByteShows(buf, h, i, b);
        }
      }
    }
  }

  lemma HeadByteShows(buf: seq<Byte>, h: Head, i: nat, b: Byte, h': Head)
    requires Long(buf, h) && SumFits(buf, h) && i < HeadSize(h) == HeadSize(h') && b != buf[i]
    requires HeadBytes(h) == buf[..HeadSize(h)] && HeadBytes(h') == buf[i := b][..HeadSize(h)]
    ensures !SumFits(buf[i := b], h')
  {
    var body := AfterSum(buf, h);
    assert AfterSum(buf[i := b], h') == body;
    HeadSumUpdate(h, i, b, h');
    SmallChangeShows(HeadSum(h) + PairSum(body), HeadSum(h') + PairSum(body), b - buf[i]);
  }

  lemma HeadSumUpdate(h: Head, i: nat, b: Byte, h': Head)
    requires i < HeadSize(h) && HeadBytes(h') == HeadBytes(h)[i := b]
    ensures HeadSum(h') == HeadSum(h) + b - HeadBytes(h)[i]
  {
    assert |HeadBytes(h')| == |HeadBytes(h)|;
    assert HeadBytes(h')[0] == if i == 0 then b else HeadBytes(h)[0];
    assert h.ControlHead? ==> HeadBytes(h')[1] == if i == 1 then b else HeadBytes(h)[1];
  }

  lemma SumByteShows(buf: seq<Byte>, h: Head, i: nat, b: Byte)
    requires Long(buf, h) && SumFits(buf, h) && HeadSize(h) <= i < HeadSize(h) + 2 && b != buf[i]
    ensures !SumFits(buf[i := b], h)
  {
    assert AfterSum(buf[i := b], h) == AfterSum(buf, h);
  }

  lemma BodyByteShows(buf: seq<Byte>, h: Head, i: nat, b: Byte)
    requires Long(buf, h) && SumFits(buf, h) && HeadSize(h) + 2 <= i < |buf| && b != buf[i]
    ensures !SumFits(buf[i := b], h)
  {
    var body, j := AfterSum(buf, h), i - HeadSize(h) - 2;
    assert AfterSum(buf[i := b], h) == body[j := b];
    PairSumUpdate(body, j, b);
    SmallChangeShows(HeadSum(h) + PairSum(body), HeadSum(h) + PairSum(body[j := b]),
      (if j % 2 == 0 then 1 else 256) * (b - buf[i]));
  }

  lemma TypeBitTells(x: Byte, y: Byte)
    requires IsControl(x) || IsData(x)
    requires IsControl(y) || IsData(y)
    ensures Has(x, TYPE) == Has(y, TYPE) <==> IsControl(x) == IsControl(y)
  {
  }

  /** The type bit moves the place of the checksum, so that flipping it can go unnoticed. */
  lemma TypeFlipCanPass(beyond: Byte)
    ensures var buf := [64, 49, 0, 160, 47, 255, 0, 1];
      Decode(buf, beyond).Some? && Decode(buf[0 := 96], beyond).Some?
  {
    var buf: seq<Byte> := [64, 49, 0, 160, 47, 255, 0, 1];
    FourBytes(47, 255, 0, 1, []);
    ShortControl(buf, [47, 255, 0, 1] + []);
    AcceptedExactly(buf, beyond);
    FourBytes(160, 47, 255, 0, [1]);
    ShortData(buf[0 := 96], [160, 47, 255, 0] + [1]);
    AcceptedExactly(buf[0 := 96], beyond);
  }

  lemma ShortControl(buf: seq<Byte>, body: seq<Byte>)
    requires |buf| == 8 && buf[..4] == [64, 49, 0, 160] && buf[4..] == body && PairSum(body) == 65583
    ensures ReadHead(buf) == Some(ControlHead(64, 49)) && SumFits(buf, ControlHead(64, 49))
    ensures FieldsSize(ControlHead(64, 49)) == 4
  {
    assert buf[0] == buf[..4][0] && buf[1] == buf[..4][1] && buf[2] == buf[..4][2] && buf[3] == buf[..4][3];
  }

  lemma ShortData(buf: seq<Byte>, body: seq<Byte>)
    requires |buf| == 8 && buf[..3] == [96, 49, 0] && buf[3..] == body && PairSum(body) == 12448
    ensures ReadHead(buf) == Some(DataHead(96)) && SumFits(buf, DataHead(96)) && FieldsSize(DataHead(96)) == 0
  {
    assert buf[0] == buf[..3][0] && buf[1] == buf[..3][1] && buf[2] == buf[..3][2];
  }

  lemma FourBytes(a: Byte, b: Byte, c: Byte, d: Byte, rest: seq<Byte>)
    ensures PairSum([a, b, c, d] + rest) == a as int + 256 * b as int + c as int + 256 * d as int + PairSum(rest)
  {
    var bytes := [a, b, c, d] + rest;
    assert bytes[2..][2..] == rest;
  }
}
