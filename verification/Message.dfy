/**
  Messages, the packets they are cut into (ump.c:277-335), and what a stream of
  packets means as a list of messages: the BDR flag ends a message.
 */
module Message {

  datatype Option<+T> = None | Some(value: T)

  type Byte = x: int | 0 <= x < 256

  /** One data packet's share of a message. */
  datatype Chunk = Chunk(bdr: bool, data: seq<Byte>)

  // ---------- cutting a message ----------

  /** The payloads of a message: full packets of mss bytes and a last one with the rest. */
  function Split(data: seq<Byte>, mss: nat): (pieces: seq<seq<Byte>>)
    requires mss > 0
    ensures data != [] ==> pieces != []
  {
    if data == [] then []
    else if |data| <= mss then [data]
    else [data[..mss]] + Split(data[mss..], mss)
  }

  function Join(pieces: seq<seq<Byte>>): seq<Byte> {
    if pieces == [] then [] else pieces[0] + Join(pieces[1..])
  }

  function PacketCount(dataLen: nat, mss: nat): nat
    requires mss > 0
  {
    var n := dataLen / mss;
    if n * mss < dataLen then n + 1 else n
  }

  lemma {:induction false} SplitJoin(data: seq<Byte>, mss: nat)
    requires mss > 0
    ensures Join(Split(data, mss)) == data
    ensures forall i :: 0 <= i < |Split(data, mss)| ==> 0 < |Split(data, mss)[i]| <= mss
    ensures forall i :: 0 <= i < |Split(data, mss)| - 1 ==> |Split(data, mss)[i]| == mss
  {
    if |data| > mss {
      SplitJoin(data[mss..], mss);
      var pieces := Split(data, mss);
      assert pieces[1..] == Split(data[mss..], mss);
      assert data[..mss] + data[mss..] == data;
    } else if data != [] {
      assert Join([data]) == data + Join([]);
    }
  }

  lemma {:induction false} SplitCount(data: seq<Byte>, mss: nat)
    requires mss > 0
    ensures |Split(data, mss)| == PacketCount(|data|, mss)
  {
    if |data| > mss {
      SplitCount(data[mss..], mss);
      DivideLess(|data|, mss);
    } else if |data| == mss {
      assert |data| / mss == 1;
    } else {
      assert |data| / mss == 0;
    }
  }

  lemma DivideLess(n: nat, d: nat)
    requires 0 < d < n
    ensures n / d == (n - d) / d + 1
    ensures n / d * d == (n - d) / d * d + d
  {
    QuotientUnique(n, d, (n - d) / d + 1);
  }

  lemma QuotientUnique(n: nat, d: nat, q: nat)
    requires 0 < d && q * d <= n < q * d + d
    ensures n / d == q
  {
    var r := n / d;
    if r < q {
      MultipleAtLeast(q - r, d);
    } else if q < r {
      MultipleAtLeast(r - q, d);
    }
  }

  lemma MultipleAtLeast(k: nat, d: nat)
    requires k >= 1
    ensures k * d >= d
  {
  }

  /** ump_send_message up to the hand-over to the socket: an empty message is refused.  A
      packet size of zero, which a peer's SYN can bring about (ump_sock.c:1059-1060), would be
      divided by. */
  method CutMessage(data: seq<Byte>, mss: nat) returns (accepted: bool, packets: seq<seq<Byte>>)
    requires mss > 0
    ensures accepted <==> data != []
    ensures packets == Split(data, mss)
    ensures |packets| == PacketCount(|data|, mss)
    ensures Join(packets) == data
    ensures forall i :: 0 <= i < |packets| - 1 ==> |packets[i]| == mss
  {
    SplitJoin(data, mss);
    SplitCount(data, mss);
    if |data| <= 0 {
      return false, [];
    }
    var count := |data| / mss;
    if count * mss < |data| {
      count := count + 1;
    }
    var pkts := new seq<Byte>[count];
    ghost var pieces := Split(data, mss);
    var total, index := 0, 0;
    while total < |data|
      invariant 0 <= total <= |data| && 0 <= index <= count
      invariant pieces[index..] == Split(data[total..], mss)
      invariant pkts[..index] == pieces[..index]
    {
      var size := if mss <= |data| - total then mss else |data| - total;
      SplitStep(data, mss, total, size);
      pkts[index] := data[total..total + size];
      total := total + size;
      index := index + 1;
    }
    assert |pieces| == index;
    return true, pkts[..];
  }

  lemma SplitStep(data: seq<Byte>, mss: nat, total: nat, size: nat)
    requires mss > 0 && total < |data|
    requires size == if mss <= |data| - total then mss else |data| - total
    ensures Split(data[total..], mss)[0] == data[total..total + size]
    ensures Split(data[total..], mss)[1..] == Split(data[total + size..], mss)
  {
    var rest := data[total..];
    assert rest[size..] == data[total + size..];
    assert rest[..size] == data[total..total + size];
    assert Split(rest, mss) == [rest[..size]] + Split(rest[size..], mss) by {
      if |rest| <= mss {
        assert rest[..size] == rest && rest[size..] == [];
      }
    }
  }

  // ---------- a stream of packets as a list of messages ----------

  /** The packets of one message as the sender numbers them: BDR on the last one only. */
  function Mark(pieces: seq<seq<Byte>>): (cs: seq<Chunk>)
    ensures |cs| == |pieces|
    ensures forall i :: 0 <= i < |cs| ==> cs[i] == Chunk(i == |pieces| - 1, pieces[i])
  {
    seq(|pieces|, i requires 0 <= i < |pieces| => Chunk(i == |pieces| - 1, pieces[i]))
  }

  function Payload(cs: seq<Chunk>): seq<Byte> {
    if cs == [] then [] else cs[0].data + Payload(cs[1..])
  }

  /** Index of the first packet that ends a message, or |cs| if there is none. */
  function FirstBdr(cs: seq<Chunk>): (k: nat)
    ensures k <= |cs|
    ensures forall i :: 0 <= i < k ==> !cs[i].bdr
    ensures k < |cs| ==> cs[k].bdr
  {
    if cs == [] || cs[0].bdr then 0 else 1 + FirstBdr(cs[1..])
  }

  function CountBdr(cs: seq<Chunk>): nat {
    if cs == [] then 0 else (if cs[0].bdr then 1 else 0) + CountBdr(cs[1..])
  }

  /** The complete messages of a stream, in order; an unfinished tail is not one. */
  function Parse(cs: seq<Chunk>): seq<seq<Byte>>
    decreases |cs|
  {
    var k := FirstBdr(cs);
    if k == |cs| then [] else [Payload(cs[..k + 1])] + Parse(cs[k + 1..])
  }

  /** The stream does not end inside a message. */
  predicate Closed(cs: seq<Chunk>) {
    cs == [] || cs[|cs| - 1].bdr
  }

  lemma FirstBdrUnique(cs: seq<Chunk>, k: nat)
    requires k <= |cs|
    requires forall i :: 0 <= i < k ==> !cs[i].bdr
    requires k < |cs| ==> cs[k].bdr
    ensures FirstBdr(cs) == k
  {
    var f := FirstBdr(cs);
    if f < k {
      assert false;
    }
  }

  /** The first complete message of a stream does not depend on what follows it. */
  lemma ParseHead(a: seq<Chunk>, b: seq<Chunk>, k: nat)
    requires k < |a| && FirstBdr(a) == k
    ensures Parse(a + b) == [Payload(a[..k + 1])] + Parse(a[k + 1..] + b)
  {
    FirstBdrUnique(a + b, k);
    assert (a + b)[..k + 1] == a[..k + 1];
    assert (a + b)[k + 1..] == a[k + 1..] + b;
  }

  lemma {:induction false} ParsePrefix(a: seq<Chunk>, b: seq<Chunk>)
    ensures Parse(a) <= Parse(a + b)
    decreases |a|
  {
    var k := FirstBdr(a);
    if k < |a| {
      ParsePrefix(a[k + 1..], b);
      ParsePrefixStep(a, b, k);
    }
  }

  lemma ParsePrefixStep(a: seq<Chunk>, b: seq<Chunk>, k: nat)
    requires k < |a| && FirstBdr(a) == k
    requires Parse(a[k + 1..]) <= Parse(a[k + 1..] + b)
    ensures Parse(a) <= Parse(a + b)
  {
    ParseHead(a, b, k);
    PrefixCons(Payload(a[..k + 1]), Parse(a[k + 1..]), Parse(a[k + 1..] + b));
  }

  lemma PrefixCons(x: seq<Byte>, p: seq<seq<Byte>>, q: seq<seq<Byte>>)
    requires p <= q
    ensures [x] + p <= [x] + q
  {
    var rest := q[|p|..];
    assert q == p + rest;
    assert [x] + q == ([x] + p) + rest;
  }

  lemma {:induction false} ParseAppend(a: seq<Chunk>, b: seq<Chunk>)
    requires Closed(a)
    ensures Parse(a + b) == Parse(a) + Parse(b)
    decreases |a|
  {
    if a == [] {
      assert a + b == b;
    } else {
      var k := FirstBdr(a);
      ParseAppend(a[k + 1..], b);
      ParseAppendStep(a, b, k);
    }
  }

  lemma ParseAppendStep(a: seq<Chunk>, b: seq<Chunk>, k: nat)
    requires k < |a| && FirstBdr(a) == k
    requires Parse(a[k + 1..] + b) == Parse(a[k + 1..]) + Parse(b)
    ensures Parse(a + b) == Parse(a) + Parse(b)
  {
    ParseHead(a, b, k);
    ParseUnfold(a, k);
    ConcatAssociative([Payload(a[..k + 1])], Parse(a[k + 1..]), Parse(b));
  }

  lemma ConcatAssociative<T>(x: seq<T>, y: seq<T>, z: seq<T>)
    ensures x + (y + z) == (x + y) + z
  {
  }

  lemma ParseOneMessage(cs: seq<Chunk>)
    requires cs != [] && FirstBdr(cs) == |cs| - 1
    ensures Parse(cs) == [Payload(cs)]
  {
    var k := FirstBdr(cs);
    assert cs[..k + 1] == cs && cs[k + 1..] == [];
    ParseUnfold(cs, k);
  }

  lemma ParseUnfold(cs: seq<Chunk>, k: nat)
    requires k < |cs| && FirstBdr(cs) == k
    ensures Parse(cs) == [Payload(cs[..k + 1])] + Parse(cs[k + 1..])
  {
  }

  lemma {:induction false} PayloadOfMark(pieces: seq<seq<Byte>>, cs: seq<Chunk>)
    requires |cs| == |pieces|
    requires forall i :: 0 <= i < |cs| ==> cs[i].data == pieces[i]
    ensures Payload(cs) == Join(pieces)
  {
    if cs != [] {
      PayloadOfMark(pieces[1..], cs[1..]);
    }
  }

  /** Cutting a message, marking its end, and reading the stream gives the message back. */
  lemma MessageRoundTrip(data: seq<Byte>, mss: nat)
    requires data != [] && mss > 0
    ensures Parse(Mark(Split(data, mss))) == [data]
    ensures Closed(Mark(Split(data, mss)))
  {
    var pieces := Split(data, mss);
    var cs := Mark(pieces);
    FirstBdrUnique(cs, |cs| - 1);
    ParseOneMessage(cs);
    PayloadOfMark(pieces, cs);
    SplitJoin(data, mss);
  }

  lemma {:induction false} CountAppend(a: seq<Chunk>, b: seq<Chunk>)
    ensures CountBdr(a + b) == CountBdr(a) + CountBdr(b)
  {
    if a == [] {
      assert a + b == b;
    } else {
      assert (a + b)[1..] == a[1..] + b;
      CountAppend(a[1..], b);
    }
  }

  lemma {:induction false} CountZero(cs: seq<Chunk>)
    ensures CountBdr(cs) == 0 <==> forall i :: 0 <= i < |cs| ==> !cs[i].bdr
  {
    if cs != [] {
      CountZero(cs[1..]);
      assert forall i :: 1 <= i < |cs| ==> cs[i] == cs[1..][i - 1];
    }
  }

  lemma {:induction false} ParseCounts(cs: seq<Chunk>)
    ensures |Parse(cs)| == CountBdr(cs)
    decreases |cs|
  {
    CountZero(cs);
    var k := FirstBdr(cs);
    if k < |cs| {
      CountSplit(cs, k);
      ParseCounts(cs[k + 1..]);
    }
  }

  /** The first end of message is one; the others come after it. */
  lemma {:induction false} CountSplit(cs: seq<Chunk>, k: nat)
    requires k < |cs| && FirstBdr(cs) == k
    ensures CountBdr(cs) == 1 + CountBdr(cs[k + 1..])
  {
    if k > 0 {
      CountSplit(cs[1..], k - 1);
      assert cs[1..][k..] == cs[k + 1..];
    }
  }
}
