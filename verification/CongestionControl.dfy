/**
  What an ack does to the sender, field by field, and what becomes of the congestion window over
  many acks (ump_sock.c:706-822).

  Main results: below the threshold every new ack opens the window by one packet
  (SlowStartIsExact), from the threshold on at most one for each mean round trip
  (AvoidanceIsBounded), and which acks start a fast retransmission (RepeatedAckExactly).
 */
module CongestionControl {
  import opened Circular
  import opened Message
  import opened SenderModel
  import Rto

  /** An ack in range of packets not acked before. */
  predicate IsNew(s: Snd, a: int) {
    s.base < a <= s.sent + 1
  }

  // ---------- a new ack ----------

  /** Outside fast recovery, and below the last value of 16 bits: the window opens by one packet if
      and only if it was below the threshold, or the mean round trip has passed since it was last
      opened, and the time is noted then; otherwise window and time stay. */
  predicate OpensExactly(s: Snd, t: Snd, now: int) {
    !s.fast && s.cwnd < MODULUS - 1 ==>
      var opens := s.cwnd < s.ssthresh || now - s.refreshed >= s.est.a.Floor;
      && (opens ==> t.cwnd == s.cwnd + 1 && t.refreshed == now)
      && (!opens ==> t.cwnd == s.cwnd && t.refreshed == s.refreshed)
      && t.ssthresh == s.ssthresh && !t.fast && t.rep == 0
  }

  lemma NewAckOpensWindow(s: Snd, a: int, wnd: Option<U16>, now: int)
    requires Inv(s) && IsNew(s, a)
    ensures OpensExactly(s, OnAck(s, Some(a), wnd, now), now)
  {
    NewAckIs(s, a, wnd, now);
    OpeningIsKept(s, a, wnd, now);
  }

  lemma AckOpensExactly(s: Snd, ack: Option<int>, wnd: Option<U16>, now: int)
    requires Inv(s)
    ensures ack.Some? && IsNew(s, ack.value) ==> OpensExactly(s, OnAck(s, ack, wnd, now), now)
  {
    if ack.Some? && IsNew(s, ack.value) {
      NewAckOpensWindow(s, ack.value, wnd, now);
    }
  }

  /** The new ack that ends fast recovery sets the window to the threshold. */
  lemma NewAckEndsRecovery(s: Snd, a: int, wnd: Option<U16>, now: int)
    requires Inv(s) && IsNew(s, a) && s.fast
    ensures var t := OnAck(s, Some(a), wnd, now);
      && t.cwnd == (if s.ssthresh == 0 then 1 else s.ssthresh)
      && t.ssthresh == s.ssthresh && t.refreshed == s.refreshed && !t.fast && t.rep == 0
  {
    NewAckIs(s, a, wnd, now);
    OpeningIsKept(s, a, wnd, now);
  }

  lemma NewAckIs(s: Snd, a: int, wnd: Option<U16>, now: int)
    requires Inv(s) && IsNew(s, a)
    ensures OnAck(s, Some(a), wnd, now) == OnNewAck(s, a, wnd, now)
  {
    assert NoteRepeated(s, a) == s;
  }

  lemma OpeningIsKept(s: Snd, a: int, wnd: Option<U16>, now: int)
    requires a > s.base
    ensures var t, c := OnNewAck(s, a, wnd, now), Congest(s, now);
      (t.cwnd, t.ssthresh, t.refreshed, t.fast, t.rep) == (c.cwnd, c.ssthresh, c.refreshed, c.fast, 0)
  {
    var n := Notify(Advance(s, a), wnd);
    assert (n.cwnd, n.ssthresh, n.fast, n.refreshed, n.est, n.rep)
      == (s.cwnd, s.ssthresh, s.fast, s.refreshed, s.est, 0);
    var c := Congest(n, now);
    assert (c.cwnd, c.ssthresh, c.refreshed, c.fast)
      == (Congest(s, now).cwnd, s.ssthresh, Congest(s, now).refreshed, false);
  }

  /** The window's edge is that of the ack's window, or stays when the ack brings none; the timers
      of the packets acked go, the others stay as they are. */
  lemma NewAckMovesWindow(s: Snd, a: int, wnd: Option<U16>, now: int)
    requires Inv(s) && IsNew(s, a)
    ensures var t := OnAck(s, Some(a), wnd, now);
      && t.base == a && (t.iss, t.last, t.sent, t.next) == (s.iss, s.last, s.sent, s.next)
      && t.theirWnd == (if wnd.Some? then wnd.value else s.theirWnd)
      && (wnd.Some? ==> t.edge == a + Min(wnd.value, s.cwnd))
      && (wnd.Some? ==> t.wndPos == WndPos(|s.msg|, a - s.start, Min(wnd.value, s.cwnd)))
      && (wnd.None? ==> (t.edge, t.wndPos) == (s.edge, s.wndPos))
      && t.stamps == (if a - s.base <= |s.stamps| then s.stamps[a - s.base..] else [])
  {
    NewAckIs(s, a, wnd, now);
    EdgeIsKept(s, a, wnd, now);
  }

  lemma EdgeIsKept(s: Snd, a: int, wnd: Option<U16>, now: int)
    requires a > s.base
    ensures var t, n := OnNewAck(s, a, wnd, now), Notify(Advance(s, a), wnd);
      && (t.base, t.theirWnd, t.edge, t.wndPos) == (a, n.theirWnd, n.edge, n.wndPos)
      && (t.iss, t.last, t.sent, t.next) == (s.iss, s.last, s.sent, s.next)
      && t.stamps == AckStamps(s.stamps, a - s.base)
  {
    var n := Notify(Advance(s, a), wnd);
    assert (n.base, n.iss, n.last, n.sent, n.next, n.stamps) == (a, s.iss, s.last, s.sent, s.next, s.stamps);
    var c := Congest(n, now);
    assert c == n.(cwnd := c.cwnd, refreshed := c.refreshed, fast := c.fast);
  }

  // ---------- other acks ----------

  /** A window that comes without an ack is taken over. */
  lemma WindowAlone(s: Snd, wnd: U16, now: int)
    ensures OnAck(s, None, Some(wnd), now)
      == s.(theirWnd := wnd, edge := s.base + Min(wnd, s.cwnd),
            wndPos := WndPos(|s.msg|, s.base - s.start, Min(wnd, s.cwnd)))
    ensures OnAck(s, None, None, now) == s
  {
  }

  /** A repeated ack counts if and only if it comes when everything believed sent is acked; the
      second one that counts starts a fast retransmission, which doubles the timeout, sets the
      window to the threshold and three more, and goes back to the base without any timer.  No
      other ack that is not new does either. */
  lemma RepeatedAckExactly(s: Snd, a: int, wnd: Option<U16>, now: int)
    requires Inv(s) && s.mode != Failed && !IsNew(s, a)
    ensures var t := OnAck(s, Some(a), wnd, now);
      var counts := a == s.base && s.sent < s.base;
      && (t.base, t.start, t.sent, t.next, t.mode, t.msg, t.ssthresh, t.refreshed)
        == (s.base, s.start, s.sent, s.next, s.mode, s.msg, s.ssthresh, s.refreshed)
      && (counts && s.rep == 1 ==>
           && t.rep == 0 && t.fast && t.cwnd == Max(s.ssthresh + 3, 1) % MODULUS
           && t.stamps == [] && t.start + t.dataPos == s.base
           && (t.est.a, t.est.d) == (s.est.a, s.est.d)
           && t.est.rto == (if s.est.rto <= 45000.0 then s.est.rto * 2.0 else 90000.0))
      && (!(counts && s.rep == 1) ==>
           && t.rep == s.rep + (if counts then 1 else 0)
           && (t.fast, t.cwnd, t.stamps, t.dataPos, t.est, t.back)
             == (s.fast, s.cwnd, s.stamps, s.dataPos, s.est, s.back))
  {
    var noted := NoteRepeated(s, a);
    NoteRepeatedKeeps(s, a);
    assert OnAck(s, Some(a), wnd, now) == noted || OnAck(s, Some(a), wnd, now) == Notify(noted, wnd);
    RepeatedNoted(s, a);
  }

  lemma RepeatedNoted(s: Snd, a: int)
    requires Inv(s) && s.mode != Failed
    ensures var t, counts := NoteRepeated(s, a), a == s.base && s.sent < s.base;
      && (counts && s.rep == 1 ==>
           t == s.(rep := 0, fast := true, cwnd := Max(s.ssthresh + 3, 1) % MODULUS, stamps := [],
                   dataPos := s.base - s.start, back := t.back,
                   est := s.est.(rto := if s.est.rto <= 45000.0 then s.est.rto * 2.0 else 90000.0)))
      && (!(counts && s.rep == 1) ==> t == s.(rep := s.rep + if counts then 1 else 0))
  {
  }

  /** An ack that repeats the base still brings its window. */
  lemma RepeatedAckBringsWindow(s: Snd, wnd: U16, now: int)
    requires Inv(s) && s.base <= s.sent + 1
    ensures var t := OnAck(s, Some(s.base), Some(wnd), now);
      && t.theirWnd == wnd && t.edge == s.base + Min(wnd, t.cwnd)
      && t.wndPos == WndPos(|s.msg|, s.base - s.start, Min(wnd, t.cwnd))
  {
    var noted := NoteRepeated(s, s.base);
    NoteRepeatedFrame(s, s.base);
    assert OnAck(s, Some(s.base), Some(wnd), now) == Notify(noted, Some(wnd));
  }

  lemma NoteRepeatedFrame(s: Snd, a: int)
    ensures var t := NoteRepeated(s, a);
      (t.base, t.start, t.sent, t.msg) == (s.base, s.start, s.sent, s.msg)
  {
  }

  // ---------- many acks ----------

  datatype NewAck = NewAck(a: int, wnd: Option<U16>, at: int)

  function Acked(s: Snd, xs: seq<NewAck>): Snd {
    if xs == [] then s
    else var x := xs[|xs| - 1]; OnAck(Acked(s, xs[..|xs| - 1]), Some(x.a), x.wnd, x.at)
  }

  /** A new ack, of what was sent, that is not misread. */
  ghost predicate IsGood(s: Snd, x: NewAck) {
    s.mode != Failed && IsNew(s, x.a) && Honest(s, x.a) && !EndsTooEarly(s, x.a)
  }

  ghost predicate AllGood(s: Snd, xs: seq<NewAck>) {
    forall k :: 0 <= k < |xs| ==> IsGood(Acked(s, xs[..k]), xs[k])
  }

  lemma FrontIsGood(s: Snd, xs: seq<NewAck>)
    requires AllGood(s, xs) && xs != []
    ensures AllGood(s, xs[..|xs| - 1]) && IsGood(Acked(s, xs[..|xs| - 1]), xs[|xs| - 1])
  {
    var front := xs[..|xs| - 1];
    forall k | 0 <= k < |front| ensures IsGood(Acked(s, front[..k]), front[k]) {
      assert front[..k] == xs[..k];
    }
  }

  lemma GoodKeepsInv(s: Snd, x: NewAck)
    requires Inv(s) && IsGood(s, x)
    ensures Inv(OnAck(s, Some(x.a), x.wnd, x.at))
  {
    AckKeepsInv(s, Some(x.a), x.wnd, x.at);
  }

  /** Slow start: outside recovery, n new acks open the window by n packets as long as it stays
      below the threshold. */
  lemma {:induction false} SlowStartIsExact(s: Snd, xs: seq<NewAck>)
    requires Inv(s) && AllGood(s, xs) && !s.fast && s.cwnd + |xs| <= s.ssthresh
    ensures var t := Acked(s, xs);
      Inv(t) && t.cwnd == s.cwnd + |xs| && t.ssthresh == s.ssthresh && !t.fast
  {
    if xs != [] {
      var front, x := xs[..|xs| - 1], xs[|xs| - 1];
      FrontIsGood(s, xs);
      SlowStartIsExact(s, front);
      var t := Acked(s, front);
      NewAckOpensWindow(t, x.a, x.wnd, x.at);
      GoodKeepsInv(t, x);
    }
  }

  /** The mean round trip is at least m milliseconds before each of the acks. */
  ghost predicate MeanAtLeast(s: Snd, xs: seq<NewAck>, m: nat) {
    forall k :: 0 <= k < |xs| ==> Acked(s, xs[..k]).est.a.Floor >= m
  }

  lemma FrontMean(s: Snd, xs: seq<NewAck>, m: nat)
    requires MeanAtLeast(s, xs, m) && xs != []
    ensures MeanAtLeast(s, xs[..|xs| - 1], m) && Acked(s, xs[..|xs| - 1]).est.a.Floor >= m
  {
    var front := xs[..|xs| - 1];
    forall k | 0 <= k < |front| ensures Acked(s, front[..k]).est.a.Floor >= m {
      assert front[..k] == xs[..k];
    }
  }

  /** From s to t the window has opened by at most n packets, with m milliseconds for each. */
  predicate OpenedSlowly(s: Snd, t: Snd, n: nat, m: nat) {
    && !t.fast && t.ssthresh == s.ssthresh && s.cwnd <= t.cwnd <= s.cwnd + n
    && (t.cwnd - s.cwnd) * m <= t.refreshed - s.refreshed
  }

  /** Congestion avoidance: from the threshold on, new acks open the window by at most one packet
      for each mean round trip between the openings. */
  lemma {:induction false} AvoidanceIsBounded(s: Snd, xs: seq<NewAck>, m: nat)
    requires Inv(s) && AllGood(s, xs) && MeanAtLeast(s, xs, m)
    requires !s.fast && s.ssthresh <= s.cwnd && s.cwnd + |xs| < MODULUS
    ensures Inv(Acked(s, xs)) && OpenedSlowly(s, Acked(s, xs), |xs|, m)
  {
    if xs != [] {
      var front, x := xs[..|xs| - 1], xs[|xs| - 1];
      FrontIsGood(s, xs);
      FrontMean(s, xs, m);
      AvoidanceIsBounded(s, front, m);
      GoodKeepsInv(Acked(s, front), x);
      AvoidanceStep(s, Acked(s, front), x, |front|, m);
    }
  }

  lemma AvoidanceStep(s: Snd, t: Snd, x: NewAck, n: nat, m: nat)
    requires Inv(t) && IsNew(t, x.a) && OpenedSlowly(s, t, n, m)
    requires s.ssthresh <= s.cwnd && s.cwnd + n < MODULUS - 1 && t.est.a.Floor >= m
    ensures OpenedSlowly(s, OnAck(t, Some(x.a), x.wnd, x.at), n + 1, m)
  {
    NewAckOpensWindow(t, x.a, x.wnd, x.at);
    OpenedOnce(s, t, OnAck(t, Some(x.a), x.wnd, x.at), n, m);
  }

  lemma OpenedOnce(s: Snd, t: Snd, u: Snd, n: nat, m: nat)
    requires OpenedSlowly(s, t, n, m) && !u.fast && u.ssthresh == t.ssthresh
    requires if u.cwnd == t.cwnd then u.refreshed == t.refreshed
             else u.cwnd == t.cwnd + 1 && u.refreshed - t.refreshed >= m
    ensures OpenedSlowly(s, u, n + 1, m)
  {
    OneMore(t.cwnd - s.cwnd, m);
  }

  lemma OneMore(n: int, m: int)
    ensures (n + 1) * m == n * m + m
  {
  }
}
