/**
  What the receiver does to its packet list when the list's head is not a clean head.
  Harvesting cuts the list after the first message but leaves the `prev` link of the new
  head on the harvested end (ump_sock.c:828-830), and ump_list_first does not repair it
  (ump_misc.c:105-108).  The search for a packet's place follows that link (1362-1366), and
  a packet that belongs before the head is linked in behind the harvested message instead
  (1372).  Module ReceiverModel says what the handlers are meant to do; the functions here
  say what they do, and the lemmas when the two are the same.
 */
module ReceiverLinks {
  import opened Message
  import opened ReceiverModel
  import RX = ReceiverExact

  /** Where the head's prev link leads: nowhere, into the harvested message that is waiting
      to be read, or to a packet that has been freed since. */
  datatype Link = Clear | Held | Freed

  /** stray: packets linked in between the harvested message and the head of the list.
      wild: freed memory has been used; what the program does from then on is undefined. */
  datatype Sock = Sock(r: Rcv, link: Link, stray: map<int, Chunk>, wild: bool)

  function Fresh(base: int): Sock {
    Sock(ReceiverModel.Initial(base), Clear, map[], false)
  }

  // ---------- the link ----------

  predicate ListEmpty(r: Rcv) {
    r.run == [] && r.pending == map[]
  }

  /** The link that harvesting leaves. */
  function AfterHarvest(r: Rcv): Link {
    if ListEmpty(Harvest(r)) then Clear else Held
  }

  /** Returning a message frees it; the next one may be harvested. */
  function AfterTake(r: Rcv, link: Link): Link {
    if r.msgNum >= 1 then AfterHarvest(r) else if link == Held then Freed else link
  }

  function AfterCheck(e: Rcv, link: Link): Link {
    var c := Count(e);
    if c.msgNum == e.msgNum || e.ready != [] then link
    else if c.locked then AfterTake(Harvest(c), AfterHarvest(c))
    else AfterHarvest(c)
  }

  function AfterArrive(r: Rcv, n: int, c: Chunk, link: Link): Link {
    if Received(r, n) || Accept(r, n, c).base == r.base then link else AfterCheck(Accept(r, n, c), link)
  }

  // ---------- the handlers ----------

  /** Nothing is contiguous and the head is not clean: the missing packet belongs before it. */
  predicate Stuck(s: Sock) {
    s.link != Clear && s.r.run == []
  }

  /** The search for the place of packet n goes past the head and on through its link. */
  predicate Strays(s: Sock, n: int) {
    Stuck(s) && s.r.base <= n && forall k :: k in s.r.pending ==> n < k
  }

  /** ump_established_handle_data_packet for packet n. */
  function ArriveCode(s: Sock, n: int, c: Chunk): Sock {
    if s.wild then s
    else if !Strays(s, n) then s.(r := Arrive(s.r, n, c), link := AfterArrive(s.r, n, c, s.link))
    else if s.link == Freed then s.(wild := true)
    else if n in s.stray then s
    else s.(stray := s.stray[n := c])
  }

  lemma HasKey(m: map<int, Chunk>)
    ensures m == map[] || exists k :: k in m
  {
    if forall k :: k !in m {
      assert m == map[];
    }
  }

  lemma LeastKey(m: map<int, Chunk>) returns (k: int)
    requires m != map[]
    ensures k in m && forall j :: j in m ==> k <= j
    decreases |m|
  {
    HasKey(m);
    k :| k in m;
    var rest := m - {k};
    if rest == map[] {
      assert forall j :: j in m ==> j == k || j in rest;
    } else {
      var other := LeastKey(rest);
      assert forall j :: j in m ==> j == k || j in rest;
      k := if other < k then other else k;
    }
  }

  /** The packets in the order of their numbers. */
  ghost function InOrder(m: map<int, Chunk>): seq<Chunk>
    decreases |m|
  {
    if m == map[] then []
    else
      assert exists k :: k in m && forall j :: j in m ==> k <= j by { var k := LeastKey(m); }
      var k :| k in m && forall j :: j in m ==> k <= j;
      [m[k]] + InOrder(m - {k})
  }

  /** The packets a receive call returns: the harvested message, and everything that hangs
      behind it. */
  ghost function Returned(s: Sock): seq<Chunk> {
    if s.stray == map[] then s.r.ready else s.r.ready + InOrder(s.stray + s.r.pending)
  }

  /** The user gets everything that hangs behind the harvested message, the list itself
      included, and all of it is freed while the socket still uses the list. */
  ghost function Spill(s: Sock): Sock {
    s.(r := s.r.(delivered := s.r.delivered + [Payload(Returned(s))], ready := []), stray := map[], wild := true)
  }

  /** A receive call as the socket thread serves it. */
  ghost function ReceiveCode(s: Sock, established: bool): Sock {
    if s.wild then s
    else if s.r.locked || s.r.ready == [] then s.(r := Receive(s.r, established))
    else if s.stray != map[] then Spill(s)
    else s.(r := Take(s.r), link := AfterTake(s.r, s.link))
  }

  /** The end of a blocked call, when the connection is closed. */
  function CloseCode(s: Sock): Sock {
    if s.wild then s else s.(r := EndReceive(s.r, false))
  }

  // ---------- what every step keeps ----------

  /** The link is there only if there is a head, and leads into the harvested message only
      if there is one; strays lie between the two. */
  ghost predicate LinkInv(s: Sock) {
    && ReceiverModel.Inv(s.r)
    && LinkFits(s.r, s.link)
    && (s.stray != map[] ==> s.link == Held && s.r.run == [])
    && StraysFit(s.r.base, s.r.pending, s.stray)
  }

  ghost predicate CodeInv(s: Sock) {
    !s.wild ==> LinkInv(s)
  }

  lemma FreshInv(base: int)
    ensures CodeInv(Fresh(base)) && !Stuck(Fresh(base))
  {
    ReceiverModel.InitialInv(base);
  }

  predicate EndsMessage(run: seq<Chunk>) {
    run != [] && run[|run| - 1].bdr
  }

  lemma HarvestLink(r: Rcv)
    requires Counted(r) && r.msgNum >= 1
    ensures Harvest(r).ready != [] && Harvest(r).pending == r.pending
    ensures AfterHarvest(r) == Held <==> !ListEmpty(Harvest(r))
  {
    HarvestKeeps(r);
  }

  lemma TakeKeepsLink(r: Rcv, link: Link)
    requires Inv(r) && r.ready != []
    requires link != Clear ==> !ListEmpty(r)
    ensures TakeFits(r, Take(r), AfterTake(r, link))
  {
    TakeKeepsInv(r);
    if r.msgNum >= 1 {
      HarvestLink(RX.HandOver(r));
      HarvestOfHandOver(r);
    }
  }

  ghost predicate TakeFits(r: Rcv, t: Rcv, l: Link) {
    && Inv(t) && LinkFits(t, l)
    && t.base == r.base && t.pending == r.pending && t.locked == r.locked
  }

  predicate LinkFits(r: Rcv, link: Link) {
    (link != Clear ==> !ListEmpty(r)) && (link == Held ==> r.ready != [])
  }

  lemma HarvestOfHandOver(r: Rcv)
    ensures r.msgNum >= 1 ==> Take(r) == Harvest(RX.HandOver(r))
    ensures Harvest(RX.HandOver(r)).run == Harvest(r).run && Harvest(RX.HandOver(r)).pending == Harvest(r).pending
    ensures AfterHarvest(RX.HandOver(r)) == AfterHarvest(r)
  {
  }

  /** The check after an accepted packet has made the run grow. */
  lemma CheckKeepsLink(r: Rcv, e: Rcv, link: Link)
    requires Inv(r) && r.run <= e.run && |r.run| < |e.run|
    requires e == r.(base := e.base, run := e.run, pending := e.pending)
    requires forall k :: k in e.pending ==> k > e.base
    requires link == Held ==> r.ready != []
    ensures var t, l := Check(e), AfterCheck(e, link);
      Inv(t) && LinkFits(t, l)
  {
    CheckKeepsInv(r, e);
    CountKeeps(r, e);
    var c := Count(e);
    if c.msgNum > r.msgNum && r.ready == [] {
      HarvestLink(c);
      HarvestKeeps(c);
      if c.locked {
        TakeKeepsLink(Harvest(c).(locked := false), AfterHarvest(c));
      }
    }
  }

  lemma AcceptedIsHeld(r: Rcv, n: int, c: Chunk)
    requires Inv(r) && !Received(r, n)
    ensures !ListEmpty(Accept(r, n, c))
  {
    AcceptKeeps(r, n, c);
    assert Received(Accept(r, n, c), n);
  }

  lemma ArriveKeepsLink(s: Sock, n: int, c: Chunk)
    requires LinkInv(s) && !s.wild
    ensures var t, l := Arrive(s.r, n, c), AfterArrive(s.r, n, c, s.link);
      Inv(t) && LinkFits(t, l)
  {
    ArriveKeepsInv(s.r, n, c);
    if !Received(s.r, n) {
      AcceptKeeps(s.r, n, c);
      AcceptedIsHeld(s.r, n, c);
      var e := Accept(s.r, n, c);
      if e.base > s.r.base {
        CheckKeepsLink(s.r, e, s.link);
      }
    }
  }

  /** An arrival that does not stray while nothing is contiguous goes behind the head. */
  lemma StuckArrival(s: Sock, n: int, c: Chunk)
    requires LinkInv(s) && !s.wild && Stuck(s) && !Strays(s, n)
    ensures var t := Arrive(s.r, n, c);
      && t == s.r.(pending := t.pending)
      && (Received(s.r, n) ==> t == s.r)
      && (!Received(s.r, n) ==> t.pending == s.r.pending[n := c] && exists k :: k in s.r.pending && k < n)
    ensures AfterArrive(s.r, n, c, s.link) == s.link
  {
    if !Received(s.r, n) {
      var k :| k in s.r.pending && k <= n;
      assert s.r.base !in s.r.pending[n := c];
      assert Accept(s.r, n, c) == s.r.(pending := s.r.pending[n := c]);
    }
  }

  lemma ArriveCodeKeepsInv(s: Sock, n: int, c: Chunk)
    requires CodeInv(s)
    ensures CodeInv(ArriveCode(s, n, c))
  {
    if !s.wild && !Strays(s, n) {
      ArriveKeepsLink(s, n, c);
      if s.stray != map[] {
        StuckArrival(s, n, c);
        StraysStayBelow(s, n, c);
      }
    } else if !s.wild && s.link == Held && n !in s.stray {
      OneMoreStray(s, n, c);
    }
  }

  ghost predicate StraysFit(base: int, pending: map<int, Chunk>, stray: map<int, Chunk>) {
    forall k :: k in stray ==> base <= k && forall j :: j in pending ==> k < j
  }

  lemma StraysStayBelow(s: Sock, n: int, c: Chunk)
    requires LinkInv(s) && s.stray != map[] && !Strays(s, n)
    ensures Received(s.r, n) || StraysFit(s.r.base, s.r.pending[n := c], s.stray)
  {
  }

  lemma OneMoreStray(s: Sock, n: int, c: Chunk)
    requires LinkInv(s) && Strays(s, n)
    ensures StraysFit(s.r.base, s.r.pending, s.stray[n := c])
  {
  }

  lemma ReceiveCodeKeepsInv(s: Sock, established: bool)
    requires CodeInv(s)
    ensures CodeInv(ReceiveCode(s, established))
  {
    if !s.wild && !s.r.locked && s.r.ready != [] && s.stray == map[] {
      TakeKeepsLink(s.r, s.link);
    }
  }

  lemma CloseCodeKeepsInv(s: Sock)
    requires CodeInv(s)
    ensures CodeInv(CloseCode(s))
    ensures !s.wild ==> CloseCode(s) == s.(r := s.r.(locked := false)) == s.(r := EnterClosed(s.r))
  {
  }

  // ---------- exactly when the code does what it is meant to ----------

  /** An arrival is handled as it is meant to be exactly when its search does not go past a
      head that is not clean. */
  lemma ArriveIsAsMeant(s: Sock, n: int, c: Chunk)
    requires LinkInv(s) && !s.wild
    ensures var t := ArriveCode(s, n, c);
      !t.wild && t.r == Arrive(s.r, n, c) <==> !Strays(s, n)
  {
    if Strays(s, n) {
      ArriveAddsOne(s.r, n, c);
      assert n !in s.r.pending && !Received(s.r, n);
      assert Received(Arrive(s.r, n, c), n);
    }
  }

  /** An arrival that strays is linked in behind the harvested message unless it hangs there
      already, and is never received; when that message has been freed, freed memory is used. */
  lemma StrayArrival(s: Sock, n: int, c: Chunk)
    requires LinkInv(s) && !s.wild && Strays(s, n)
    ensures var t := ArriveCode(s, n, c);
      && (t.r, t.link) == (s.r, s.link) && t.wild == (s.link == Freed) && !Received(t.r, n)
      && t.stray == (if s.link == Freed || n in s.stray then s.stray else s.stray + map[n := c])
      && (s.link == Held ==> s.r.ready != [])
  {
  }

  /** A receive call is served as it is meant to be exactly when nothing hangs behind the
      message that is waiting. */
  lemma ReceiveIsAsMeant(s: Sock, established: bool)
    requires LinkInv(s) && !s.wild
    ensures var t := ReceiveCode(s, established);
      !t.wild && t.r == Receive(s.r, established) <==> s.stray == map[]
  {
  }

  /** The receive call that leaves the list with a head that is not clean and nothing
      contiguous before it: it harvests a message that empties the run while packets are
      held ahead.  The fields of the socket tell before the call. */
  predicate Strands(r: Rcv) {
    !r.locked && r.ready != [] && r.msgNum >= 1 && r.firstEnd == |r.run| - 1 && r.pending != map[]
  }

  lemma ReceiveGetsStuck(s: Sock, established: bool)
    requires LinkInv(s) && !s.wild && !Stuck(s)
    ensures Stuck(ReceiveCode(s, established)) <==> Strands(s.r)
  {
    if !s.r.locked && s.r.ready != [] {
      if s.r.msgNum >= 1 {
        var t := s.r.(taken := s.r.taken + s.r.ready, delivered := s.r.delivered + [Payload(s.r.ready)], ready := []);
        HarvestLink(t);
      }
    }
  }

  /** The same for an arrival: it must complete a message that is handed over at once, with packets
      ahead of it. */
  lemma ArriveGetsStuck(s: Sock, n: int, c: Chunk)
    requires LinkInv(s) && !s.wild && !Stuck(s)
    ensures Stuck(ArriveCode(s, n, c)) <==>
      var e := Accept(s.r, n, c);
      !Received(s.r, n) && e.base > s.r.base && s.r.ready == [] && e.pending != map[] && EndsMessage(e.run)
  {
    if !Received(s.r, n) {
      AcceptKeeps(s.r, n, c);
      AcceptedIsHeld(s.r, n, c);
      var e := Accept(s.r, n, c);
      if e.base > s.r.base {
        CheckGetsStuck(s.r, e, s.link);
      }
    }
  }

  lemma CheckGetsStuck(r: Rcv, e: Rcv, link: Link)
    requires Inv(r) && r.run <= e.run && |r.run| < |e.run|
    requires e == r.(base := e.base, run := e.run, pending := e.pending)
    ensures AfterCheck(e, link) != Clear && Check(e).run == [] <==>
      r.ready == [] && e.pending != map[] && EndsMessage(e.run)
  {
    var c := Count(e);
    if c.msgNum > r.msgNum && r.ready == [] {
      WholeRunHarvested(c);
    }
  }

  lemma WholeRunHarvested(c: Rcv)
    requires c.msgNum == 1 && c.run != [] && c.firstEnd == |c.run| - 1
    ensures var h := Harvest(c);
      h.run == [] && h.msgNum == 0 && h.pending == c.pending && (AfterHarvest(c) == Clear <==> c.pending == map[])
  {
  }

  // ---------- runs of one receiver ----------

  datatype Event = Arrival(n: int, c: Chunk) | Call(established: bool) | Ended

  ghost function Step(s: Sock, e: Event): Sock {
    match e
    case Arrival(n, c) => ArriveCode(s, n, c)
    case Call(established) => ReceiveCode(s, established)
    case Ended => CloseCode(s)
  }

  ghost function After(s: Sock, es: seq<Event>): Sock {
    if es == [] then s else Step(After(s, es[..|es| - 1]), es[|es| - 1])
  }

  lemma StepKeepsInv(s: Sock, e: Event)
    requires CodeInv(s)
    ensures CodeInv(Step(s, e))
  {
    match e
    case Arrival(n, c) => ArriveCodeKeepsInv(s, n, c);
    case Call(established) => ReceiveCodeKeepsInv(s, established);
    case Ended => CloseCodeKeepsInv(s);
  }

  lemma {:induction false} RunKeepsInv(s: Sock, es: seq<Event>)
    requires CodeInv(s)
    ensures CodeInv(After(s, es))
  {
    if es != [] {
      RunKeepsInv(s, es[..|es| - 1]);
      StepKeepsInv(After(s, es[..|es| - 1]), es[|es| - 1]);
    }
  }

  predicate Below(n: int, packets: map<int, Chunk>) {
    forall k :: k in packets ==> n < k
  }

  /** The receiver waits for packet base, whose place is before the head. */
  ghost predicate Waits(s: Sock, base: int, missing: int) {
    && s.r.base == base
    && (!s.wild ==>
        LinkInv(s) && Stuck(s) && s.r.msgNum == 0 && !Received(s.r, missing) && Below(missing, s.r.pending))
  }

  lemma StepWaits(s: Sock, e: Event, base: int, missing: int)
    requires Waits(s, base, missing) && base <= missing
    ensures Waits(Step(s, e), base, missing)
  {
    if !s.wild {
      StepKeepsInv(s, e);
      if e.Arrival? && !Strays(s, e.n) {
        StuckArrival(s, e.n, e.c);
      }
    }
  }

  /** Once nothing is contiguous and the head is not clean, no packet that belongs before the
      head is ever received, however often it comes, and the base never moves again, until
      freed memory is used. */
  lemma {:induction false} StuckForever(s: Sock, es: seq<Event>, missing: int)
    requires LinkInv(s) && !s.wild && Strays(s, missing)
    ensures After(s, es).r.base == s.r.base
    ensures !After(s, es).wild ==> Stuck(After(s, es)) && !Received(After(s, es).r, missing)
    ensures Waits(After(s, es), s.r.base, missing)
  {
    if es == [] {
      assert s.r.msgNum == 0;
    } else {
      StuckForever(s, es[..|es| - 1], missing);
      StepWaits(After(s, es[..|es| - 1]), es[|es| - 1], s.r.base, missing);
    }
  }

  /** The least number missing is itself one that goes astray: a stuck receiver stays stuck. */
  lemma BaseStrays(s: Sock)
    requires LinkInv(s) && !s.wild && Stuck(s)
    ensures Strays(s, s.r.base) && !Received(s.r, s.r.base)
  {
  }

  ghost function ArriveAllCode(s: Sock, ps: seq<(int, Chunk)>): Sock {
    if ps == [] then s
    else ArriveCode(ArriveAllCode(s, ps[..|ps| - 1]), ps[|ps| - 1].0, ps[|ps| - 1].1)
  }

  /** None of the arrivals goes astray. */
  ghost predicate Straight(s: Sock, ps: seq<(int, Chunk)>) {
    ps != [] ==> Straight(s, ps[..|ps| - 1]) && !Strays(ArriveAllCode(s, ps[..|ps| - 1]), ps[|ps| - 1].0)
  }

  /** For arrivals that do not go astray, the code reassembles as it is meant to. */
  lemma {:induction false} StraightIsAsMeant(s: Sock, ps: seq<(int, Chunk)>)
    requires LinkInv(s) && !s.wild && Straight(s, ps)
    ensures var t := ArriveAllCode(s, ps);
      LinkInv(t) && !t.wild && t.r == ArriveAll(s.r, ps)
  {
    if ps != [] {
      StraightIsAsMeant(s, ps[..|ps| - 1]);
      ArriveCodeKeepsInv(ArriveAllCode(s, ps[..|ps| - 1]), ps[|ps| - 1].0, ps[|ps| - 1].1);
    }
  }

  /** The first arrival that goes astray is never received. */
  lemma {:induction false} AstrayIsLost(s: Sock, ps: seq<(int, Chunk)>) returns (missing: int)
    requires LinkInv(s) && !s.wild && !Straight(s, ps)
    ensures Arrived(ps, missing) && !Received(s.r, missing)
    ensures Waits(ArriveAllCode(s, ps), ArriveAllCode(s, ps).r.base, missing) && ArriveAllCode(s, ps).r.base <= missing
  {
    var front, last := ps[..|ps| - 1], ps[|ps| - 1];
    var t := ArriveAllCode(s, front);
    if Straight(s, front) {
      StraightIsAsMeant(s, front);
      missing := last.0;
      assert ps[|ps| - 1].0 == missing;
      ReceivedIsWhatArrived(s.r, front);
      assert t.r.msgNum == 0;
      StepWaits(t, Arrival(last.0, last.1), t.r.base, missing);
    } else {
      missing := AstrayIsLost(s, front);
      var i :| 0 <= i < |front| && front[i].0 == missing;
      assert ps[i].0 == missing;
      StepWaits(t, Arrival(last.0, last.1), t.r.base, missing);
    }
  }

  /** For every sequence of arrivals, in any order and with any repetition: the socket has
      received exactly what arrived, and the program is still defined, if and only if none of
      them went past a head that was not clean. */
  lemma ReceivesWhatArrives(s: Sock, ps: seq<(int, Chunk)>)
    requires LinkInv(s) && !s.wild
    ensures var t := ArriveAllCode(s, ps);
      !t.wild && (forall k :: Received(t.r, k) <==> Received(s.r, k) || Arrived(ps, k)) <==> Straight(s, ps)
  {
    if Straight(s, ps) {
      StraightIsAsMeant(s, ps);
      ReceivedIsWhatArrived(s.r, ps);
    } else {
      var missing := AstrayIsLost(s, ps);
    }
  }

  /** Arrivals that do not go astray may come in any order and any number of times. */
  lemma OrderIsIrrelevant(s: Sock, ps: seq<(int, Chunk)>, qs: seq<(int, Chunk)>)
    requires LinkInv(s) && !s.wild && Straight(s, ps) && Straight(s, qs)
    requires forall k :: Arrived(ps, k) <==> Arrived(qs, k)
    ensures ArriveAllCode(s, ps).r.base == ArriveAllCode(s, qs).r.base
    ensures ArriveAllCode(s, ps).r.pending.Keys == ArriveAllCode(s, qs).r.pending.Keys
  {
    StraightIsAsMeant(s, ps);
    StraightIsAsMeant(s, qs);
    ArrivalOrderIsIrrelevant(s.r, ps, qs);
  }

  /** The message boundaries stay right, and nothing goes astray, exactly when the arrival
      does not stray and the segment it makes contiguous has no inner end of message. */
  lemma CodeIsFaithful(s: Sock, n: int, c: Chunk)
    requires LinkInv(s) && !s.wild && s.stray == map[] && RX.Faithful(s.r) && !Received(s.r, n)
    ensures var t := ArriveCode(s, n, c);
      !t.wild && t.stray == map[] && RX.Faithful(t.r) <==> !Strays(s, n) && RX.NoInnerEnd(RX.Segment(s.r, n, c))
  {
    RX.ArriveFaithful(s.r, n, c);
  }

  // ---------- an example ----------

  const A := Chunk(true, [65])
  const B := Chunk(true, [66])
  const C := Chunk(false, [67])
  const D := Chunk(true, [68])

  lemma InOrderOfTwo(i: int, j: int, x: Chunk, y: Chunk)
    requires i < j
    ensures InOrder(map[i := x, j := y]) == [x, y]
  {
    var m := map[i := x, j := y];
    assert m - {i} == map[j := y];
    assert InOrder(map[j := y]) == [y] by {
      assert map[j := y] - {j} == map[];
    }
  }

  /** Two messages of one packet each, A and B, arrive, and the last packet D of a third one;
      the user reads a message and gets A.  Then C, the first packet of the third message,
      arrives, and the user reads again: instead of B it gets B, C and D in one. */
  lemma OneCallReturnsTwoMessages()
    ensures var es := [Arrival(0, A), Arrival(1, B), Arrival(3, D), Call(true)];
      && Stuck(After(Fresh(0), es)) && After(Fresh(0), es).r.ready == [B]
      && After(Fresh(0), es + [Arrival(2, C), Call(true)]).r.delivered == [[65], [66, 67, 68]]
      && After(Fresh(0), es + [Arrival(2, C), Call(true)]).wild
  {
    var es := [Arrival(0, A), Arrival(1, B), Arrival(3, D), Call(true)];
    ExampleArrivals();
    AfterMore(Fresh(0), es[..3], es[3]);
    assert es == es[..3] + [es[3]] && es[..3] == [Arrival(0, A), Arrival(1, B), Arrival(3, D)];
    ExampleCall();
    AfterMore(Fresh(0), es, Arrival(2, C));
    AfterMore(Fresh(0), es + [Arrival(2, C)], Call(true));
    assert es + [Arrival(2, C)] + [Call(true)] == es + [Arrival(2, C), Call(true)];
    ExampleSpill();
  }

  /** Before and after the first call. */
  const TWO_WAIT := Sock(Rcv(2, [B], map[3 := D], 1, 0, [A], false, [], []), Clear, map[], false)
  const STUCK := Sock(Rcv(2, [], map[3 := D], 0, -1, [B], false, [A], [[65]]), Held, map[], false)

  const ONE_WAITS := Sock(Rcv(1, [], map[], 0, -1, [A], false, [], []), Clear, map[], false)

  lemma ExampleArrivals()
    ensures ArriveCode(Fresh(0), 0, A) == ONE_WAITS && ArriveCode(ONE_WAITS, 1, B).r.base == 2
    ensures ArriveCode(ONE_WAITS, 1, B).r.msgNum == 1
    ensures ArriveCode(ArriveCode(ONE_WAITS, 1, B), 3, D) == TWO_WAIT
    ensures After(Fresh(0), [Arrival(0, A), Arrival(1, B), Arrival(3, D)]) == TWO_WAIT
  {
    var s0 := Fresh(0);
    AcceptNext(s0.r, A);
    var s1 := s0.(r := s0.r.(base := 1, ready := [A]));
    assert ArriveCode(s0, 0, A) == s1;
    AcceptNext(s1.r, B);
    var s2 := s1.(r := s1.r.(base := 2, run := [B], msgNum := 1, firstEnd := 0));
    assert ArriveCode(s1, 1, B) == s2;
    assert Accept(s2.r, 3, D) == s2.r.(pending := map[3 := D]);
    assert ArriveCode(s2, 3, D) == TWO_WAIT;
    AfterMore(s0, [], Arrival(0, A));
    assert [] + [Arrival(0, A)] == [Arrival(0, A)];
    assert [Arrival(0, A)] + [Arrival(1, B)] == [Arrival(0, A), Arrival(1, B)];
    assert [Arrival(0, A), Arrival(1, B)] + [Arrival(3, D)] == [Arrival(0, A), Arrival(1, B), Arrival(3, D)];
    AfterMore(s0, [Arrival(0, A)], Arrival(1, B));
    AfterMore(s0, [Arrival(0, A), Arrival(1, B)], Arrival(3, D));
  }

  lemma ExampleCall()
    ensures ReceiveCode(TWO_WAIT, true) == STUCK && Stuck(STUCK)
  {
    OneByte(A);
    assert [] + [[65]] == [[65]] && [] + [A] == [A] && [B][..1] == [B] && [B][1..] == [];
    var t := TWO_WAIT.r.(taken := [A], delivered := [[65]], ready := []);
    assert Take(TWO_WAIT.r) == Harvest(t) == STUCK.r;
    assert 3 in Harvest(TWO_WAIT.r).pending;
  }

  lemma ExampleSpill()
    ensures var t := ReceiveCode(ArriveCode(STUCK, 2, C), true);
      t.wild && t.r.delivered == [[65], [66, 67, 68]]
  {
    var s := STUCK.(stray := map[2 := C]);
    assert ArriveCode(STUCK, 2, C) == s;
    assert s.stray + s.r.pending == map[2 := C, 3 := D];
    InOrderOfTwo(2, 3, C, D);
    OneByte(D);
    assert [B, C, D][1..] == [C, D] && [C, D][1..] == [D];
    assert [B] + [C, D] == [B, C, D];
    assert Payload([C, D]) == [67] + [68] == [67, 68];
    assert Payload([B, C, D]) == [66] + [67, 68] == [66, 67, 68];
    assert [[65]] + [[66, 67, 68]] == [[65], [66, 67, 68]];
    assert 2 in s.stray && Returned(s) == [B] + InOrder(s.stray + s.r.pending);
  }

  lemma OneByte(c: Chunk)
    ensures Payload([c]) == c.data
  {
    assert [c][1..] == [];
  }

  lemma AcceptNext(r: Rcv, c: Chunk)
    requires r.base !in r.pending && r.base + 1 !in r.pending
    ensures Accept(r, r.base, c) == r.(base := r.base + 1, run := r.run + [c])
  {
    var added := r.(pending := r.pending[r.base := c]);
    assert added.pending - {r.base} == r.pending;
    assert Extend(ExtendOnce(added)) == ExtendOnce(added);
  }

  lemma AfterMore(s: Sock, es: seq<Event>, e: Event)
    ensures After(s, es + [e]) == Step(After(s, es), e)
  {
    assert (es + [e])[..|es|] == es;
  }
}
