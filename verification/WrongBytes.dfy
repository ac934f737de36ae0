/**
  Which receive calls return bytes that were not sent, in the runs of module Transfer.

  The packets that have gone astray hang behind the harvested message.  The call that returns
  that message returns them too, and the rest of the list (ump_sock.c:492-514).  All of them
  carry data, since a message is cut into packets that are not empty; so the user gets the
  message that was sent and more bytes after it.

  Main result: in every run a receive call leaves the user with a prefix of what was sent if
  and only if nothing has gone astray before it (WrongExactlyWhenStray).
 */
module WrongBytes {
  import opened Circular
  import opened Message
  import opened SenderModel
  import opened Transfer
  import TransferResults
  import RM = ReceiverModel
  import RX = ReceiverExact
  import RL = ReceiverLinks

  // ---------- the bytes of packets ----------

  lemma {:induction false} PayloadAppend(a: seq<Chunk>, b: seq<Chunk>)
    ensures Payload(a + b) == Payload(a) + Payload(b)
  {
    if a == [] {
      assert a + b == b;
    } else {
      assert (a + b)[1..] == a[1..] + b;
      PayloadAppend(a[1..], b);
    }
  }

  predicate AllCarryData(packets: map<int, Chunk>) {
    forall k :: k in packets ==> packets[k].data != []
  }

  lemma SpilledBytes(packets: map<int, Chunk>)
    requires packets != map[] && AllCarryData(packets)
    ensures Payload(RL.InOrder(packets)) != []
  {
    var least := RL.LeastKey(packets);
    var cs := RL.InOrder(packets);
    assert cs[0].data != [];
  }

  lemma StrayNeedsReady(s: RL.Sock)
    requires RL.LinkInv(s) && s.stray != map[]
    ensures s.r.ready != [] && !s.r.locked
  {
  }

  /** A receive call returns the bytes it is meant to return if and only if nothing hangs behind
      the message that waits, when the packets carry data. */
  lemma SameBytesExactly(s: RL.Sock, established: bool)
    requires RL.LinkInv(s) && !s.wild && AllCarryData(s.stray + s.r.pending)
    ensures RL.ReceiveCode(s, established).r.delivered == RM.Receive(s.r, established).delivered <==> s.stray == map[]
  {
    if s.stray == map[] {
      RL.ReceiveIsAsMeant(s, established);
    } else {
      StrayNeedsReady(s);
      SpillIsLonger(s);
      var code, meant := RL.ReceiveCode(s, established).r.delivered, RM.Receive(s.r, established).delivered;
      assert |code[|s.r.delivered|]| > |meant[|s.r.delivered|]|;
    }
  }

  /** What such a call returns: the message, and at least one byte more. */
  lemma SpillIsLonger(s: RL.Sock)
    requires s.stray != map[] && AllCarryData(s.stray + s.r.pending)
    ensures var more := Payload(RL.InOrder(s.stray + s.r.pending));
      Payload(RL.Returned(s)) == Payload(s.r.ready) + more && more != []
  {
    var packets := s.stray + s.r.pending;
    RL.HasKey(s.stray);
    var k :| k in s.stray;
    assert k in packets;
    SpilledBytes(packets);
    PayloadAppend(s.r.ready, RL.InOrder(packets));
  }

  // ---------- every packet of every run carries data ----------

  ghost predicate AllSent(iss: int, stream: seq<Chunk>, packets: map<int, Chunk>) {
    forall k :: k in packets ==> IsPacket(iss, stream, k, packets[k])
  }

  predicate NoneEmpty(stream: seq<Chunk>) {
    forall i :: 0 <= i < |stream| ==> stream[i].data != []
  }

  /** No packet of the stream is empty, and what has gone astray is of the stream. */
  ghost predicate Solid(s: Sys) {
    NoneEmpty(s.stream) && (!s.rcv.wild ==> AllSent(s.snd.iss, s.stream, s.rcv.stray))
  }

  lemma SubmitKeepsSolid(s: Sys, message: seq<Byte>, mss: nat)
    requires Solid(s) && Enabled(s, Submit(message, mss))
    ensures Solid(Do(s, Submit(message, mss)))
  {
    SplitJoin(message, mss);
    LongerIsSolid(s.snd.iss, s.stream, Split(message, mss), s.rcv.stray);
  }

  lemma LongerIsSolid(iss: int, stream: seq<Chunk>, pieces: seq<seq<Byte>>, stray: map<int, Chunk>)
    requires NoneEmpty(stream) && forall i :: 0 <= i < |pieces| ==> pieces[i] != []
    ensures NoneEmpty(stream + Mark(pieces))
    ensures AllSent(iss, stream, stray) ==> AllSent(iss, stream + Mark(pieces), stray)
  {
  }

  lemma ArrivalKeepsSolid(s: Sys, n: int, c: Chunk)
    requires SysInv(s) && Solid(s) && Enabled(s, DeliverData(n, c))
    ensures Solid(Do(s, DeliverData(n, c)))
  {
    DataIsRead(s, n, c);
    ArrivalKeepsSent(s.snd.iss, s.stream, s.rcv, n, c);
  }

  lemma ArrivalKeepsSent(iss: int, stream: seq<Chunk>, rcv: RL.Sock, n: int, c: Chunk)
    requires AllSent(iss, stream, rcv.stray) && IsPacket(iss, stream, n, c)
    ensures AllSent(iss, stream, RL.ArriveCode(rcv, n, c).stray)
  {
    var t := RL.ArriveCode(rcv, n, c);
    assert t.stray == rcv.stray || t.stray == rcv.stray[n := c];
  }

  lemma StepKeepsSolid(s: Sys, x: Action)
    requires SysInv(s) && Solid(s) && Enabled(s, x)
    ensures Solid(Do(s, x))
  {
    TransferResults.StepGoesForward(s, x);
    match x
    case Submit(message, mss) => SubmitKeepsSolid(s, message, mss);
    case DeliverData(n, c) => ArrivalKeepsSolid(s, n, c);
    case _ => OtherKeepsSolid(s, x);
  }

  lemma OtherKeepsSolid(s: Sys, x: Action)
    requires Solid(s) && Enabled(s, x) && !x.Submit? && !x.DeliverData? && Do(s, x).snd.iss == s.snd.iss
    ensures Solid(Do(s, x))
  {
    var t := Do(s, x);
    assert t.stream == s.stream && (t.rcv.wild || t.rcv.stray == s.rcv.stray);
  }

  lemma NextKeepsSolid(s: Sys, t: Sys)
    requires SysInv(s) && Solid(s) && Next(s, t)
    ensures Solid(t)
  {
    var x :| Enabled(s, x) && t == Do(s, x);
    StepKeepsSolid(s, x);
  }

  lemma StartSolid(iss: int, wnd: U16)
    ensures Solid(Start(iss, wnd))
  {
  }

  lemma {:induction false} RunKeepsSolid(iss: int, wnd: U16, trace: seq<Sys>, i: nat)
    requires Run(iss, wnd, trace) && i < |trace|
    ensures Solid(trace[i])
  {
    if i == 0 {
      StartSolid(iss, wnd);
    } else {
      RunKeepsSolid(iss, wnd, trace, i - 1);
      RunKeepsInv(iss, wnd, trace, i - 1);
      assert Next(trace[i - 1], trace[i]);
      NextKeepsSolid(trace[i - 1], trace[i]);
    }
  }

  // ---------- what a receive call returns ----------

  /** The harvested message is the next one that was sent. */
  lemma ReadyIsNext(r: RM.Rcv, stream: seq<Chunk>, k: nat)
    requires RX.Faithful(r) && r.ready != [] && k <= |stream| && RX.Stream(r) == stream[..k]
    ensures |r.delivered| < |Parse(stream)| && r.delivered <= Parse(stream)
    ensures Parse(stream)[|r.delivered|] == Payload(r.ready)
  {
    var rest := r.run + stream[k..];
    assert stream == stream[..k] + stream[k..];
    assert stream == r.taken + (r.ready + rest);
    ParseAppend(r.taken, r.ready + rest);
    ParsePrefix(r.ready, rest);
    ParseOneMessage(r.ready);
    FirstOfPrefix(Payload(r.ready), Parse(r.ready + rest));
  }

  lemma FirstOfPrefix(x: seq<Byte>, messages: seq<seq<Byte>>)
    requires [x] <= messages
    ensures messages[0] == x
  {
    assert [x][0] == messages[0];
  }

  /** What the invariant says of the receiver while packets have gone astray. */
  ghost predicate Strayed(rcv: RL.Sock, iss: int, stream: seq<Chunk>) {
    && RL.LinkInv(rcv) && !rcv.wild && rcv.stray != map[]
    && RX.Faithful(rcv.r) && 0 <= rcv.r.base - iss <= |stream| && RX.Stream(rcv.r) == stream[..rcv.r.base - iss]
    && NoneEmpty(stream) && AllSent(iss, stream, rcv.stray) && AllSent(iss, stream, rcv.r.pending)
  }

  lemma StrayIsSent(s: Sys)
    requires SysInv(s) && Solid(s) && !s.rcv.wild && s.rcv.stray != map[]
    ensures Strayed(s.rcv, s.snd.iss, s.stream) && Parse(s.stream) == s.submitted
  {
  }

  /** A call made while packets hang behind the harvested message returns the next message that
      was sent, and behind it the bytes of those packets and of all packets held ahead: at least
      one byte too many. */
  lemma StrayCallReturns(rcv: RL.Sock, established: bool, iss: int, stream: seq<Chunk>)
    requires Strayed(rcv, iss, stream)
    ensures var before, sent := rcv.r.delivered, Parse(stream);
      var more := Payload(RL.InOrder(rcv.stray + rcv.r.pending));
      && |before| < |sent| && more != []
      && RL.ReceiveCode(rcv, established).r.delivered == before + [sent[|before|] + more]
  {
    StrayNeedsReady(rcv);
    ReadyIsNext(rcv.r, stream, rcv.r.base - iss);
    StrayCarriesData(rcv, iss, stream);
    SpillIsLonger(rcv);
  }

  lemma StrayCarriesData(rcv: RL.Sock, iss: int, stream: seq<Chunk>)
    requires Strayed(rcv, iss, stream)
    ensures AllCarryData(rcv.stray + rcv.r.pending)
  {
    var packets := rcv.stray + rcv.r.pending;
    forall j | j in packets ensures packets[j].data != [] {
      assert IsPacket(iss, stream, j, packets[j]);
    }
  }

  lemma LongerIsNoPrefix(before: seq<seq<Byte>>, sent: seq<seq<Byte>>, more: seq<Byte>)
    requires |before| < |sent| && more != []
    ensures !(before + [sent[|before|] + more] <= sent)
  {
    var after := before + [sent[|before|] + more];
    assert |after[|before|]| > |sent[|before|]|;
  }

  lemma CallIsWrong(s: Sys)
    requires !s.rcv.wild && !(RL.ReceiveCode(s.rcv, s.listening).r.delivered <= s.submitted)
    ensures !(Do(s, CallReceive).rcv.r.delivered <= s.submitted)
  {
  }

  lemma WrongReturn(rcv: RL.Sock, established: bool, iss: int, stream: seq<Chunk>)
    requires Strayed(rcv, iss, stream)
    ensures !(RL.ReceiveCode(rcv, established).r.delivered <= Parse(stream))
  {
    StrayCallReturns(rcv, established, iss, stream);
    LongerIsNoPrefix(rcv.r.delivered, Parse(stream), Payload(RL.InOrder(rcv.stray + rcv.r.pending)));
  }

  lemma CallIsRight(s: Sys)
    requires SysInv(s) && !s.rcv.wild && s.rcv.stray == map[]
    ensures Do(s, CallReceive).rcv.r.delivered <= s.submitted
  {
    CallReceiveKeepsInv(s);
    RL.ReceiveIsAsMeant(s.rcv, s.listening);
    TransferResults.DeliveredIsPrefix(Do(s, CallReceive));
  }

  /** In every state of every run in which no freed memory has been used: after a receive call
      the messages that the user has are a prefix of those given to send calls, byte for byte,
      if and only if no packet has gone astray. */
  lemma WrongExactlyWhenStray(iss: int, wnd: U16, trace: seq<Sys>, i: nat)
    requires Run(iss, wnd, trace) && i < |trace| && !trace[i].rcv.wild
    ensures Do(trace[i], CallReceive).rcv.r.delivered <= trace[i].submitted <==> trace[i].rcv.stray == map[]
  {
    RunKeepsInv(iss, wnd, trace, i);
    RunKeepsSolid(iss, wnd, trace, i);
    if trace[i].rcv.stray == map[] {
      CallIsRight(trace[i]);
    } else {
      StrayIsSent(trace[i]);
      WrongReturn(trace[i].rcv, trace[i].listening, trace[i].snd.iss, trace[i].stream);
      CallIsWrong(trace[i]);
    }
  }
}
