/**
  The receiving half of UMPSocket with its 16-bit fields, the ordered packet list, the
  positions in it and the prev link of its head.  `g` is the unbounded state of module
  ReceiverModel and `nums` the packet numbers of the list; Code() adds the link and what
  hangs behind it, as in module ReceiverLinks.  Each handler is proved to compute the
  function of that module, up to the first use of freed memory.
 */
module Receiver {
  import opened Circular
  import opened Message
  import opened Packets
  import opened ReceiverModel
  import opened ReceiverLinks

  ghost predicate InTail(nums: seq<int>, m: nat, k: int) {
    exists i :: m <= i < |nums| && nums[i] == k
  }

  /** The packets carry their numbers in wire form. */
  ghost predicate Carried(list: seq<DataPacket>, nums: seq<int>) {
    |list| == |nums| && forall i {:trigger list[i].num} :: 0 <= i < |nums| ==> list[i].num == Some(Wire(nums[i]))
  }

  /** The list holds the run and then the packets ahead in order of their numbers, none
      of them beyond `limit`. */
  ghost predicate PlacedAt(list: seq<DataPacket>, nums: seq<int>, base: int, run: seq<Chunk>,
      pending: map<int, Chunk>, limit: int) {
    && |list| == |nums| && |run| <= |nums|
    && base <= limit + 1 && limit <= base + HALF
    && (forall i {:trigger nums[i]} :: 0 <= i < |run| ==> nums[i] == base - |run| + i)
    && (forall i {:trigger list[i].chunk} :: 0 <= i < |run| ==> list[i].chunk == run[i])
    && (forall i {:trigger nums[i]} :: |run| <= i < |nums| ==> base <= nums[i] <= limit && nums[i] in pending)
    && (forall i {:trigger list[i].chunk} :: |run| <= i < |nums| ==> list[i].chunk == pending[nums[i]])
    && (forall i, j :: |run| <= i < j < |nums| ==> nums[i] < nums[j])
    && (forall k {:trigger InTail(nums, |run|, k)} :: k in pending ==> InTail(nums, |run|, k))
  }

  ghost predicate Placed(list: seq<DataPacket>, nums: seq<int>, r: Rcv, limit: int) {
    PlacedAt(list, nums, r.base, r.run, r.pending, limit)
  }

  ghost predicate ListIs(list: seq<DataPacket>, nums: seq<int>, r: Rcv, limit: int) {
    Carried(list, nums) && Placed(list, nums, r, limit)
  }

  ghost predicate SameChunks(packets: seq<DataPacket>, cs: seq<Chunk>) {
    |packets| == |cs| && forall i {:trigger packets[i].chunk} :: 0 <= i < |cs| ==> packets[i].chunk == cs[i]
  }

  /** The packet after the run is the next one expected exactly when its number says so. */
  lemma NextIsBase(list: seq<DataPacket>, nums: seq<int>, r: Rcv, limit: int)
    requires Placed(list, nums, r, limit)
    ensures r.base in r.pending <==> |r.run| < |list| && nums[|r.run|] == r.base
  {
    if r.base in r.pending {
      assert InTail(nums, |r.run|, r.base);
      var i :| |r.run| <= i < |nums| && nums[i] == r.base;
      assert nums[|r.run|] >= r.base && i == |r.run|;
    }
  }

  lemma FirstIsBase(list: seq<DataPacket>, nums: seq<int>, r: Rcv, limit: int)
    requires Carried(list, nums) && Placed(list, nums, r, limit) && r.run == [] && list != []
    ensures list[0].num == Some(Wire(r.base)) <==> nums[0] == r.base
  {
    if Wire(nums[0]) == Wire(r.base) {
      WireEqual(nums[0], r.base);
    }
  }

  lemma ExtendOnceKeepsList(list: seq<DataPacket>, nums: seq<int>, r: Rcv, limit: int)
    requires Placed(list, nums, r, limit) && r.base in r.pending
    ensures Placed(list, nums, ExtendOnce(r), limit)
  {
    NextIsBase(list, nums, r, limit);
    var m, e := |r.run|, ExtendOnce(r);
    forall k | k in e.pending ensures InTail(nums, m + 1, k) {
      assert InTail(nums, m, k);
      var i :| m <= i < |nums| && nums[i] == k;
      assert i > m;
    }
  }

  function InsertAt<T>(s: seq<T>, at: nat, x: T): (t: seq<T>)
    requires at <= |s|
    ensures |t| == |s| + 1
    ensures forall i :: 0 <= i < at ==> t[i] == s[i]
    ensures t[at] == x
    ensures forall i :: at < i < |t| ==> t[i] == s[i - 1]
  {
    s[..at] + [x] + s[at..]
  }

  lemma InsertKeepsList(list: seq<DataPacket>, nums: seq<int>, r: Rcv, limit: int, at: nat, p: DataPacket, n: int)
    requires Placed(list, nums, r, limit) && |r.run| <= at <= |nums|
    requires r.base <= n <= limit && n !in r.pending
    requires forall i :: |r.run| <= i < at ==> nums[i] < n
    requires forall i :: at <= i < |nums| ==> n < nums[i]
    ensures Placed(InsertAt(list, at, p), InsertAt(nums, at, n), r.(pending := r.pending[n := p.chunk]), limit)
  {
    var m := |r.run|;
    InsertKeepsOrder(nums, m, at, n);
    InsertKeepsContents(list, nums, r, limit, at, p, n);
    forall k | k in r.pending[n := p.chunk] ensures InTail(InsertAt(nums, at, n), m, k) {
      assert k == n || InTail(nums, m, k);
      InsertKeepsMembers(nums, m, at, n, k);
    }
  }

  lemma InsertKeepsMembers(nums: seq<int>, m: nat, at: nat, n: int, k: int)
    requires m <= at <= |nums|
    requires k == n || InTail(nums, m, k)
    ensures InTail(InsertAt(nums, at, n), m, k)
  {
    var ns := InsertAt(nums, at, n);
    if k == n {
      assert ns[at] == k;
    } else {
      var i :| m <= i < |nums| && nums[i] == k;
      assert ns[if i < at then i else i + 1] == k;
    }
  }

  lemma InsertKeepsContents(list: seq<DataPacket>, nums: seq<int>, r: Rcv, limit: int, at: nat, p: DataPacket, n: int)
    requires Placed(list, nums, r, limit) && |r.run| <= at <= |nums|
    requires r.base <= n <= limit && n !in r.pending
    ensures var l, ns, pending := InsertAt(list, at, p), InsertAt(nums, at, n), r.pending[n := p.chunk];
      && (forall i :: 0 <= i < |r.run| ==> ns[i] == r.base - |r.run| + i && l[i].chunk == r.run[i])
      && (forall i :: |r.run| <= i < |ns| ==>
          r.base <= ns[i] <= limit && ns[i] in pending && l[i].chunk == pending[ns[i]])
  {
    var l, ns, pending := InsertAt(list, at, p), InsertAt(nums, at, n), r.pending[n := p.chunk];
    forall i | |r.run| <= i < |ns|
      ensures r.base <= ns[i] <= limit && ns[i] in pending && l[i].chunk == pending[ns[i]]
    {
      if i < at {
        assert nums[i] in r.pending;
      } else if i > at {
        assert nums[i - 1] in r.pending;
      }
    }
  }

  lemma InsertKeepsOrder(nums: seq<int>, m: nat, at: nat, n: int)
    requires m <= at <= |nums|
    requires forall i, j :: m <= i < j < |nums| ==> nums[i] < nums[j]
    requires forall i :: m <= i < at ==> nums[i] < n
    requires forall i :: at <= i < |nums| ==> n < nums[i]
    ensures var ns := InsertAt(nums, at, n);
      forall i, j :: m <= i < j < |ns| ==> ns[i] < ns[j]
  {
  }

  /** Packets at or above the end of the run compare like their numbers. */
  lemma CompareAt(list: seq<DataPacket>, nums: seq<int>, r: Rcv, n: int, at: nat)
    requires ListIs(list, nums, r, r.base + HALF) && |r.run| - 1 <= at < |list|
    requires r.base <= n <= r.base + HALF
    ensures CmpInBase(Wire(r.base), Wire(n), list[at].num.value) == n - nums[at]
    ensures list[at].num == Some(Wire(n)) <==> nums[at] == n
  {
    CmpRefinesIntegers(r.base, n, nums[at]);
    if Wire(nums[at]) == Wire(n) {
      WireEqual(nums[at], n);
    }
  }

  lemma PlaceFound(list: seq<DataPacket>, nums: seq<int>, r: Rcv, n: int, tail: int)
    requires ListIs(list, nums, r, r.base + HALF) && |r.run| - 1 <= tail < |list|
    requires r.base <= n <= r.base + HALF
    requires forall i :: tail < i < |nums| ==> n < nums[i]
    requires tail >= 0 ==> CmpInBase(Wire(r.base), Wire(n), list[tail].num.value) >= 0
    ensures forall i :: |r.run| <= i <= tail ==> nums[i] <= n
    ensures tail >= 0 && list[tail].num == Some(Wire(n)) <==> n in r.pending
  {
    if tail >= 0 {
      CompareAt(list, nums, r, n, tail);
    }
    if n in r.pending {
      assert InTail(nums, |r.run|, n);
      var i :| |r.run| <= i < |nums| && nums[i] == n;
      assert i == tail;
    }
  }

  /** The receive call as its user sees it: blocked in the socket thread or not, still waited for
      or not, and what it has returned. */
  datatype CallState = CallState(blocked: bool, called: bool, ok: bool, msg: seq<Byte>) {
    /** A blocked call that ends returns the one message that is handed over; otherwise no message
        is, and nothing changes for the user. */
    predicate EndsWith(before: CallState, delivered: seq<seq<Byte>>, delivered': seq<seq<Byte>>) {
      if before.blocked && !blocked then !called && ok && delivered' == delivered + [msg]
      else this == before && delivered' == delivered
    }
  }

  class ReceiveHalf {
    var theirDataSeqBase: U16
    var rcvDataPackets: seq<DataPacket>
    var rcvDataSoFar: int      // index of the end of the run, -1 for NULL
    var rcvFirstMsgEnd: int    // index of the first message's last packet, -1 for NULL
    var rcvPacketsMsgNum: int
    var recMsgPackets: seq<DataPacket>
    var recLocked: bool
    var receiveCalled: bool
    var recOk: bool
    var recMsg: seq<Byte>
    var headLink: Link                // prev of the first packet of rcvDataPackets
    var strayPackets: seq<DataPacket> // linked in behind recMsgPackets, before that packet
    var wild: bool                    // freed memory has been used
    ghost var g: Rcv
    ghost var nums: seq<int>
    ghost var stray: map<int, Chunk>
    ghost var strayNums: seq<int>

    ghost predicate Tied()
      reads this`theirDataSeqBase, this`rcvDataPackets, this`nums, this`g, this`rcvDataSoFar, this`rcvFirstMsgEnd,
        this`rcvPacketsMsgNum, this`recMsgPackets, this`recLocked
    {
      && theirDataSeqBase == Wire(g.base)
      && ListIs(rcvDataPackets, nums, g, g.base + HALF)
      && rcvDataSoFar == |g.run| - 1
      && rcvFirstMsgEnd == g.firstEnd
      && rcvPacketsMsgNum == g.msgNum
      && SameChunks(recMsgPackets, g.ready)
      && recLocked == g.locked
    }

    ghost function Code(): Sock
      reads this`g, this`headLink, this`stray, this`wild
    {
      Sock(g, headLink, stray, wild)
    }

    ghost predicate StrayTied()
      reads this`strayPackets, this`strayNums, this`stray, this`g
    {
      Carried(strayPackets, strayNums) && PlacedAt(strayPackets, strayNums, g.base, [], stray, g.base + HALF)
    }

    /** The harvested message ends just below the packets of the list. */
    ghost predicate EndTied()
      reads this`headLink, this`recMsgPackets, this`g
    {
      headLink == Held ==>
        recMsgPackets != [] && recMsgPackets[|recMsgPackets| - 1].num == Some(Wire(g.base - |g.run| - 1))
    }

    ghost predicate Valid()
      reads this`theirDataSeqBase, this`rcvDataPackets, this`nums, this`g, this`rcvDataSoFar, this`rcvFirstMsgEnd,
        this`rcvPacketsMsgNum, this`recMsgPackets, this`recLocked,
        this`strayPackets, this`strayNums, this`stray, this`headLink, this`wild
    {
      !wild ==> Tied() && EndTied() && StrayTied() && LinkInv(Code())
    }

    ghost function Calls(): CallState
      reads this`recLocked, this`receiveCalled, this`recOk, this`recMsg
    {
      CallState(recLocked, receiveCalled, recOk, recMsg)
    }

    predicate NoStrays()
      reads this`recMsgPackets, this`strayPackets
    {
      recMsgPackets == [] ==> strayPackets == []
    }

    constructor (base: U16)
      ensures Valid() && Code() == Fresh(base)
    {
      theirDataSeqBase := base;
      rcvDataPackets := [];
      rcvDataSoFar := -1;
      rcvFirstMsgEnd := -1;
      rcvPacketsMsgNum := 0;
      recMsgPackets := [];
      recLocked := false;
      receiveCalled := false;
      recOk := false;
      recMsg := [];
      headLink := Clear;
      strayPackets := [];
      wild := false;
      g := Initial(base);
      nums := [];
      stray := map[];
      strayNums := [];
    }

    // ---------- arrivals ----------

    method FindPlace(num: U16, ghost n: int) returns (tail: int)
      requires Tied() && n == Reading(g.base, num) && n >= g.base
      ensures |g.run| - 1 <= tail < |rcvDataPackets|
      ensures forall i :: tail < i < |nums| ==> n < nums[i]
      ensures forall i :: |g.run| <= i <= tail ==> nums[i] <= n
      ensures tail >= 0 && rcvDataPackets[tail].num == Some(num) <==> n in g.pending
    {
      tail := SearchBack(rcvDataPackets, theirDataSeqBase, num, nums, g, n);
    }

    method Insert(p: DataPacket, at: nat, ghost n: int)
      requires Tied() && |g.run| <= at <= |rcvDataPackets|
      requires p.num == Some(Wire(n)) && g.base <= n <= g.base + HALF && n !in g.pending
      requires forall i :: |g.run| <= i < at ==> nums[i] < n
      requires forall i :: at <= i < |nums| ==> n < nums[i]
      modifies this`rcvDataPackets, this`nums, this`g
      ensures rcvDataPackets != []
      ensures Tied() && g == old(g).(pending := old(g).pending[n := p.chunk])
    {
      InsertKeepsList(rcvDataPackets, nums, g, g.base + HALF, at, p, n);
      rcvDataPackets := InsertAt(rcvDataPackets, at, p);
      nums := InsertAt(nums, at, n);
      g := g.(pending := g.pending[n := p.chunk]);
    }

    /** Moves the end of the run past the packets that are now contiguous
        (ump_sock.c:1374-1389). */
    method ExtendRun() returns (check: bool)
      requires Tied() && rcvDataPackets != []
      modifies this`rcvDataSoFar, this`theirDataSeqBase, this`g
      ensures Tied() && g == Extend(old(g))
      ensures check <==> |g.run| > |old(g).run|
    {
      ghost var limit := g.base + HALF;
      ExtendFrame(g);
      check := rcvDataSoFar == -1;
      if rcvDataSoFar == -1 {
        var started := StartRun(limit);
        if !started {
          return false;
        }
      }
      var moved := MoveRunEnd(limit);
      check := check || moved;
    }

    /** An empty run starts with the first packet of the list if that is the one expected. */
    method StartRun(ghost limit: int) returns (started: bool)
      requires ListIs(rcvDataPackets, nums, g, limit) && rcvDataPackets != [] && g.run == []
      requires theirDataSeqBase == Wire(g.base) && rcvDataSoFar == -1
      modifies this`rcvDataSoFar, this`g
      ensures started <==> old(g).base in old(g).pending
      ensures !started ==> g == old(g) && rcvDataSoFar == -1
      ensures started ==> g == ExtendOnce(old(g)) && rcvDataSoFar == 0 && Placed(rcvDataPackets, nums, g, limit)
    {
      FirstIsBase(rcvDataPackets, nums, g, limit);
      NextIsBase(rcvDataPackets, nums, g, limit);
      started := rcvDataPackets[0].num.value == theirDataSeqBase;
      if started {
        ExtendOnceKeepsList(rcvDataPackets, nums, g, limit);
        g := ExtendOnce(g);
        rcvDataSoFar := 0;
      }
    }

    method MoveRunEnd(ghost limit: int) returns (moved: bool)
      requires Carried(rcvDataPackets, nums) && Placed(rcvDataPackets, nums, g, limit)
      requires 0 <= rcvDataSoFar == |g.run| - 1
      modifies this`rcvDataSoFar, this`theirDataSeqBase, this`g
      ensures g == Extend(old(g)) && Placed(rcvDataPackets, nums, g, g.base + HALF)
      ensures rcvDataSoFar == |g.run| - 1 >= old(rcvDataSoFar) && theirDataSeqBase == Wire(g.base)
      ensures moved <==> |g.run| > |old(g).run|
    {
      var end := EndOfRun(rcvDataPackets, rcvDataSoFar);
      RunEnds(rcvDataPackets, nums, g, limit, end);
      moved := end > rcvDataSoFar;
      rcvDataSoFar := end;
      theirDataSeqBase := Wire(rcvDataPackets[rcvDataSoFar].num.value + 1);
      g := Extend(g);
    }

    /** ump_established_handle_data_packet, the ack fields apart. */
    method HandleDataPacket(p: DataPacket)
      requires Valid() && !wild
      modifies this
      ensures Valid()
      ensures Code() == if p.num.None? then old(Code())
        else ArriveCode(old(Code()), Reading(old(g).base, p.num.value), p.chunk)
      ensures p.num.Some? ==>
        var n := Reading(old(g).base, p.num.value);
        !wild && g == Arrive(old(g), n, p.chunk) <==> !Strays(old(Code()), n)
      ensures Calls().EndsWith(old(Calls()), old(g).delivered, g.delivered)
    {
      if p.num.None? {
        return;
      }
      ghost var n := Reading(g.base, p.num.value);
      ArriveIsAsMeant(Code(), n, p.chunk);
      ArriveCodeKeepsInv(Code(), n, p.chunk);
      ArriveIsReady(g, n, p.chunk);
      ServePacket(p, p.num.value, n);
    }

    method ServePacket(p: DataPacket, num: U16, ghost n: int)
      requires Tied() && EndTied() && StrayTied() && LinkInv(Code()) && !wild
      requires p.num == Some(num) && n == Reading(g.base, num) && ArriveReady(g, n, p.chunk)
      requires Arrive(g, n, p.chunk) == ArriveByRun(g, n, p.chunk)
      modifies this
      ensures !wild ==> Tied() && EndTied() && StrayTied()
      ensures Code() == ArriveCode(old(Code()), n, p.chunk)
      ensures Calls().EndsWith(old(Calls()), old(g).delivered, g.delivered)
    {
      RepeatedChangesNothing(Code(), n, p.chunk);
      var isNew, tail := FindNew(num, n);
      if isNew {
        PlaceNew(p, num, n, tail);
      }
    }

    method PlaceNew(p: DataPacket, num: U16, ghost n: int, tail: int)
      requires Tied() && EndTied() && StrayTied() && LinkInv(Code()) && !wild
      requires p.num == Some(num) && n == Reading(g.base, num) && ArriveReady(g, n, p.chunk)
      requires Arrive(g, n, p.chunk) == ArriveByRun(g, n, p.chunk)
      requires num == Wire(n) && n <= g.base + HALF && !Received(g, n)
      requires |g.run| - 1 <= tail < |rcvDataPackets| == |nums|
      requires IsPlace(nums, |g.run|, n, tail)
      modifies this
      ensures !wild ==> Tied() && EndTied() && StrayTied()
      ensures Code() == ArriveCode(old(Code()), n, p.chunk)
      ensures Calls().EndsWith(old(Calls()), old(g).delivered, g.delivered)
    {
      PlacingIsReady(rcvDataPackets, nums, strayPackets, strayNums, Code(), n, p.chunk, tail);
      PlacePacket(p, num, n, tail);
    }

    /** Whether the packet is new, and its place if so (ump_sock.c:1357-1370). */
    method FindNew(num: U16, ghost n: int) returns (isNew: bool, tail: int)
      requires Tied() && n == Reading(g.base, num)
      ensures num == Wire(n) && n <= g.base + HALF && (isNew <==> !Received(g, n))
      ensures isNew ==> |g.run| - 1 <= tail < |rcvDataPackets| == |nums|
      ensures isNew ==> IsPlace(nums, |g.run|, n, tail)
    {
      var below := IsBelow(num, n);
      if below {
        return false, -1;
      }
      tail := FindPlace(num, n);
      isNew := !(tail >= 0 && num == rcvDataPackets[tail].num.value);
      if isNew {
        StrictlyBelow(rcvDataPackets, nums, g, n, tail);
      }
    }

    /** What is done with a packet that is new (ump_sock.c:1371-1395). */
    method PlacePacket(p: DataPacket, num: U16, ghost n: int, tail: int)
      requires Tied() && EndTied() && StrayTied() && !wild
      requires p.num == Some(num) && n == Reading(g.base, num) && num == Wire(n)
      requires !Received(g, n) && n <= g.base + HALF
      requires ArriveReady(g, n, p.chunk) && Arrive(g, n, p.chunk) == ArriveByRun(g, n, p.chunk)
      requires PlacingReady(rcvDataPackets, strayPackets, strayNums, Code(), n, p.chunk, tail)
      requires |g.run| - 1 <= tail < |rcvDataPackets| == |nums|
      requires IsPlace(nums, |g.run|, n, tail)
      modifies this
      ensures !wild ==> Tied() && EndTied() && StrayTied()
      ensures Code() == ArriveCode(old(Code()), n, p.chunk)
      ensures Calls().EndsWith(old(Calls()), old(g).delivered, g.delivered)
    {
      if tail == -1 && rcvDataPackets != [] && headLink != Clear {
        FollowLink(p, num, n);
      } else {
        AcceptInOrder(p, n, tail);
      }
    }

    method AcceptInOrder(p: DataPacket, ghost n: int, tail: int)
      requires Tied() && EndTied() && StrayTied() && !wild && p.num == Some(Wire(n))
      requires !Received(g, n) && n <= g.base + HALF && !Strays(Code(), n)
      requires ArriveReady(g, n, p.chunk) && Arrive(g, n, p.chunk) == ArriveByRun(g, n, p.chunk)
      requires PlacingReady(rcvDataPackets, strayPackets, strayNums, Code(), n, p.chunk, tail)
      requires |g.run| - 1 <= tail < |rcvDataPackets| == |nums|
      requires IsPlace(nums, |g.run|, n, tail)
      modifies this
      ensures Tied() && EndTied() && StrayTied()
      ensures Code() == ArriveCode(old(Code()), n, p.chunk)
      ensures Calls().EndsWith(old(Calls()), old(g).delivered, g.delivered)
    {
      AcceptedIsReady(Code(), n, p.chunk);
      AcceptPacket(p, tail + 1, n, Accept(g, n, p.chunk));
    }

    /** The search has passed the head and goes on along its prev link: through the packets
        behind the harvested message and to its end, which is below every missing packet. */
    method FollowLink(p: DataPacket, num: U16, ghost n: int)
      requires Tied() && EndTied() && StrayTied() && !wild
      requires p.num == Some(num) && n == Reading(g.base, num) && Strays(Code(), n)
      modifies this`wild, this`strayPackets, this`strayNums, this`stray
      ensures !wild ==> Tied() && EndTied() && StrayTied()
      ensures Code() == ArriveCode(old(Code()), n, p.chunk)
    {
      if headLink == Freed {
        wild := true;
        return;
      }
      LinkBehind(p, num, n);
    }

    method LinkBehind(p: DataPacket, num: U16, ghost n: int)
      requires StrayTied() && recMsgPackets != [] && theirDataSeqBase == Wire(g.base)
      requires recMsgPackets[|recMsgPackets| - 1].num == Some(Wire(g.base - 1))
      requires p.num == Some(num) && n == Reading(g.base, num) && n >= g.base
      modifies this`strayPackets, this`strayNums, this`stray
      ensures StrayTied() && stray == if n in old(stray) then old(stray) else old(stray)[n := p.chunk]
    {
      var found, at := SearchBehind(num, n);
      if found {
        return;
      }
      ReadingIsNear(g.base, num);
      InsertKeepsNumbers(strayPackets, strayNums, at, p, n);
      InsertKeepsList(strayPackets, strayNums, g.(run := [], pending := stray), g.base + HALF, at, p, n);
      strayPackets := InsertAt(strayPackets, at, p);
      strayNums := InsertAt(strayNums, at, n);
      stray := stray[n := p.chunk];
    }

    method SearchBehind(num: U16, ghost n: int) returns (found: bool, at: int)
      requires StrayTied() && recMsgPackets != [] && theirDataSeqBase == Wire(g.base)
      requires recMsgPackets[|recMsgPackets| - 1].num == Some(Wire(g.base - 1))
      requires n == Reading(g.base, num) && n >= g.base
      ensures found <==> n in stray
      ensures !found ==> 0 <= at <= |strayPackets|
      ensures !found ==> forall i :: 0 <= i < at ==> strayNums[i] < n
      ensures !found ==> forall i :: at <= i < |strayNums| ==> n < strayNums[i]
    {
      var end := recMsgPackets[|recMsgPackets| - 1];
      var chain := [end] + strayPackets;
      ghost var chainNums := [g.base - 1] + strayNums;
      ChainIsPlaced(end, strayPackets, strayNums, g, stray);
      at := SearchBack(chain, theirDataSeqBase, num, chainNums, g.(run := [end.chunk], pending := stray), n);
      found := chain[at].num.value == num;
      if !found {
        AllBelow(strayNums, stray, chainNums, at, n);
      }
    }

    method IsBelow(num: U16, ghost n: int) returns (below: bool)
      requires theirDataSeqBase == Wire(g.base) && n == Reading(g.base, num)
      ensures below <==> n < g.base
      ensures num == Wire(n) && n <= g.base + HALF
    {
      ReadingIsNear(g.base, num);
      CmpRefinesIntegers(g.base, n, g.base);
      below := CmpInBase(theirDataSeqBase, num, theirDataSeqBase) < 0;
    }

    /** The packet goes to its place; e is the receiver then, its run extended. */
    method AcceptPacket(p: DataPacket, at: nat, ghost n: int, ghost e: Rcv)
      requires Tied() && p.num == Some(Wire(n)) && g.base <= n <= g.base + HALF && n !in g.pending
      requires |g.run| <= at <= |rcvDataPackets|
      requires forall i :: |g.run| <= i < at ==> nums[i] < n
      requires forall i :: at <= i < |nums| ==> n < nums[i]
      requires e == Accept(g, n, p.chunk) && EndTied() && NoStrays()
      requires |e.run| > |g.run| ==> e.msgNum >= 0 && CanHarvest(Count(e)) && (e.ready == [] ==> e.msgNum == 0)
      modifies this`rcvDataPackets, this`nums, this`rcvDataSoFar, this`rcvFirstMsgEnd, this`rcvPacketsMsgNum,
        this`recMsgPackets, this`headLink, this`g, this`recMsg, this`recLocked, this`recOk, this`receiveCalled,
        this`theirDataSeqBase
      ensures Tied() && EndTied() && g == if |e.run| > |old(g).run| then Check(e) else e
      ensures headLink == if |e.run| > |old(g).run| then AfterCheck(e, old(headLink)) else old(headLink)
      ensures Calls().EndsWith(old(Calls()), old(g).delivered, g.delivered)
    {
      Insert(p, at, n);
      ExtendFrame(g);
      var check := ExtendRun();
      if check {
        CheckRcvDataSoFar();
      }
    }

    // ---------- handing messages over ----------

    /** ump_check_rcv_data_so_far */
    method CheckRcvDataSoFar()
      requires Tied() && CanHarvest(Count(g)) && g.run != [] && g.msgNum >= 0
      requires g.ready == [] ==> g.msgNum == 0
      requires EndTied() && NoStrays()
      modifies this`rcvDataPackets, this`nums, this`rcvDataSoFar, this`rcvFirstMsgEnd, this`rcvPacketsMsgNum,
        this`recMsgPackets, this`headLink, this`g, this`recMsg, this`recLocked, this`recOk, this`receiveCalled
      ensures Tied() && EndTied() && g == Check(old(g))
      ensures headLink == AfterCheck(old(g), old(headLink))
      ensures Calls().EndsWith(old(Calls()), old(g).delivered, g.delivered)
    {
      if rcvDataPackets[rcvDataSoFar].chunk.bdr {
        CountMessage();
        if recMsgPackets == [] {
          HandOverFirst();
        }
      }
    }

    method CountMessage()
      requires Tied() && g.run != [] && g.run[|g.run| - 1].bdr
      modifies this`rcvPacketsMsgNum, this`rcvFirstMsgEnd, this`g
      ensures Tied() && g == Count(old(g))
    {
      rcvPacketsMsgNum := rcvPacketsMsgNum + 1;
      if rcvPacketsMsgNum == 1 {
        rcvFirstMsgEnd := rcvDataSoFar;
      }
      g := Count(g);
    }

    method HandOverFirst()
      requires Tied() && CanHarvest(g) && g.msgNum == 1 && strayPackets == []
      modifies this`rcvDataPackets, this`nums, this`rcvDataSoFar, this`rcvFirstMsgEnd, this`rcvPacketsMsgNum,
        this`recMsgPackets, this`headLink, this`g, this`recMsg, this`recLocked, this`recOk, this`receiveCalled
      ensures Tied() && EndTied() && g == ReceiverModel.EndReceive(Harvest(old(g)), true)
      ensures headLink == if old(g).locked then AfterTake(Harvest(old(g)), AfterHarvest(old(g)))
                          else AfterHarvest(old(g))
      ensures Calls().EndsWith(old(Calls()), old(g).delivered, g.delivered)
    {
      HarvestMessages();
      EndReceive(true);
    }

    /** ump_harvest_messages: splits the list after the first message and looks for the
        end of the next one.  The new head's prev link still leads to the harvested end. */
    method HarvestMessages()
      requires Tied() && CanHarvest(g) && g.msgNum >= 1
      modifies this`rcvDataPackets, this`nums, this`rcvDataSoFar, this`rcvFirstMsgEnd, this`rcvPacketsMsgNum,
        this`recMsgPackets, this`headLink, this`g
      ensures Tied() && EndTied() && g == Harvest(old(g)) && headLink == AfterHarvest(old(g))
    {
      CutFirstMessage();
      rcvPacketsMsgNum := rcvPacketsMsgNum - 1;
      g := Harvest(g);
      if rcvPacketsMsgNum < 1 {
        rcvFirstMsgEnd := -1;
        return;
      }
      rcvFirstMsgEnd := FindEnd(rcvDataPackets, g.run);
    }

    method CutFirstMessage()
      requires ListIs(rcvDataPackets, nums, g, g.base + HALF)
      requires 0 <= g.firstEnd < |g.run| && rcvFirstMsgEnd == g.firstEnd && rcvDataSoFar == |g.run| - 1
      modifies this`rcvDataPackets, this`nums, this`rcvDataSoFar, this`recMsgPackets, this`headLink
      ensures ListIs(rcvDataPackets, nums, Harvest(g), g.base + HALF)
      ensures SameChunks(recMsgPackets, Harvest(g).ready)
      ensures rcvDataSoFar == |Harvest(g).run| - 1 && headLink == AfterHarvest(g)
      ensures recMsgPackets[|recMsgPackets| - 1].num == Some(Wire(g.base - |Harvest(g).run| - 1))
    {
      CutLeavesHarvest(rcvDataPackets, nums, g);
      var cut := rcvFirstMsgEnd + 1;
      recMsgPackets := rcvDataPackets[..cut];
      rcvDataPackets := rcvDataPackets[cut..];
      nums := nums[cut..];
      rcvDataSoFar := if rcvDataSoFar == rcvFirstMsgEnd then -1 else rcvDataSoFar - cut;
      headLink := if rcvDataPackets == [] then Clear else Held;
    }

    /** ump_end_receive_internal, when nothing hangs behind the harvested message:
        concatenates its payloads and frees it. */
    method EndReceiveInternal()
      requires Tied() && CanHarvest(g) && strayPackets == []
      modifies this`rcvDataPackets, this`nums, this`rcvDataSoFar, this`rcvFirstMsgEnd, this`rcvPacketsMsgNum,
        this`recMsgPackets, this`headLink, this`g, this`recMsg
      ensures Tied() && EndTied() && g == Take(old(g))
      ensures headLink == AfterTake(old(g), old(headLink))
      ensures recMsg == Payload(old(g).ready)
    {
      FreeMessage();
      if rcvPacketsMsgNum >= 1 {
        HarvestMessages();
      }
    }

    method FreeMessage()
      requires Tied()
      modifies this`recMsgPackets, this`headLink, this`g, this`recMsg
      ensures Tied() && headLink == (if old(headLink) == Held then Freed else old(headLink))
      ensures g == old(g).(taken := old(g).taken + old(g).ready, delivered := old(g).delivered + [recMsg], ready := [])
      ensures recMsg == Payload(old(g).ready)
    {
      recMsg := Concatenate(recMsgPackets, g.ready);
      recMsgPackets := [];
      headLink := if headLink == Held then Freed else headLink;
      g := g.(taken := g.taken + g.ready, delivered := g.delivered + [recMsg], ready := []);
    }

    /** ump_end_receive_internal, when packets do: the walk from the first harvested packet
        goes on through them and through the list itself, and frees them all. */
    method EndReceiveSpilling()
      requires Tied() && StrayTied() && LinkInv(Code()) && !wild && strayPackets != []
      modifies this`recMsgPackets, this`strayPackets, this`strayNums, this`stray, this`wild, this`g, this`recMsg
      ensures Code() == Spill(old(Code())) && wild
      ensures recMsg == Payload(old(g).ready + InOrder(old(stray) + old(g).pending))
    {
      assert stray != map[] by {
        assert strayNums[0] in stray;
      }
      ghost var rest := InOrder(stray + g.pending);
      SpillsInOrder(strayPackets, strayNums, rcvDataPackets, nums, g, stray);
      recMsg := Concatenate(recMsgPackets + (strayPackets + rcvDataPackets), g.ready + rest);
      wild := true;
      recMsgPackets := [];
      strayPackets := [];
      strayNums := [];
      g := g.(delivered := g.delivered + [recMsg], ready := []);
      stray := map[];
    }

    /** ump_end_receive */
    method EndReceive(ok: bool)
      requires Tied() && CanHarvest(g) && EndTied() && (ok && g.locked ==> strayPackets == [])
      modifies this`rcvDataPackets, this`nums, this`rcvDataSoFar, this`rcvFirstMsgEnd, this`rcvPacketsMsgNum,
        this`recMsgPackets, this`headLink, this`g, this`recMsg, this`recLocked, this`recOk, this`receiveCalled
      ensures Tied() && EndTied() && g == ReceiverModel.EndReceive(old(g), ok)
      ensures headLink == if old(g).locked && ok then AfterTake(old(g), old(headLink)) else old(headLink)
      ensures old(recLocked) ==> !receiveCalled && recOk == ok
      ensures old(recLocked) && ok ==> recMsg == Payload(old(g).ready)
      ensures !old(recLocked) ==> Calls() == old(Calls())
    {
      if !recLocked {
        return;
      }
      recOk := ok;
      receiveCalled := false;
      if ok {
        ReturnToBlocked();
      } else {
        Unblock();
      }
    }

    method ReturnToBlocked()
      requires Tied() && CanHarvest(g) && strayPackets == []
      modifies this`rcvDataPackets, this`nums, this`rcvDataSoFar, this`rcvFirstMsgEnd, this`rcvPacketsMsgNum,
        this`recMsgPackets, this`headLink, this`g, this`recMsg, this`recLocked
      ensures Tied() && EndTied() && g == Take(old(g).(locked := false))
      ensures headLink == AfterTake(old(g), old(headLink)) && recMsg == Payload(old(g).ready)
    {
      Unblock();
      EndReceiveInternal();
    }

    // ---------- receive calls ----------

    /** ump_sock_receive up to the wait: possible while no call is blocked. */
    method PostReceive()
      requires Valid() && !recLocked && !wild
      modifies this`receiveCalled
      ensures Valid() && receiveCalled
    {
      receiveCalled := true;
    }

    /** ump_recunlocked_handle_rec, ump_reclocked_handle_rec: a call that is not blocked
        returns the bytes of the harvested message and of what hangs behind it, or fails. */
    method HandleReceive(established: bool)
      requires Valid() && !wild
      modifies this
      ensures Valid()
      ensures Code() == if old(receiveCalled) then ReceiveCode(old(Code()), established) else old(Code())
      ensures old(receiveCalled) && !old(recLocked) && !recLocked ==>
        && !receiveCalled && (recOk <==> old(g).ready != [])
        && (recOk ==> recMsg == Payload(Returned(old(Code()))))
      ensures old(receiveCalled) && !old(recLocked) ==>
        && (recLocked <==> old(g).ready == [] && established)
        && (recLocked ==> receiveCalled)
        && (!receiveCalled && !recOk <==> old(g).ready == [] && !established)
      ensures old(recLocked) || !old(receiveCalled) ==> Calls() == old(Calls())
    {
      ReceiveCodeKeepsInv(Code(), established);
      CountedCanHarvest(g);
      StraysOnlyBehindMessage(strayPackets, strayNums, Code());
      if !recLocked && receiveCalled {
        ServeCall(established);
      }
    }

    method ServeCall(established: bool)
      requires Tied() && EndTied() && StrayTied() && CanHarvest(g) && !wild && receiveCalled && !recLocked
      requires strayPackets != [] ==> LinkInv(Code()) && g.ready != []
      requires strayPackets == [] <==> stray == map[]
      modifies this
      ensures !wild ==> Tied() && EndTied() && StrayTied()
      ensures Code() == ReceiveCode(old(Code()), established)
      ensures !recLocked ==> !receiveCalled && (recOk <==> old(g).ready != [])
      ensures !recLocked && recOk ==> recMsg == Payload(Returned(old(Code())))
      ensures (recLocked <==> old(g).ready == [] && established) && (recLocked ==> receiveCalled)
    {
      if strayPackets != [] {
        SpillReceive();
      } else {
        ServeReceive(established);
        assert PlacedAt(strayPackets, strayNums, g.base, [], stray, g.base + HALF);
      }
    }

    method SpillReceive()
      requires Tied() && StrayTied() && LinkInv(Code()) && !wild && strayPackets != []
      modifies this
      ensures Code() == Spill(old(Code())) && wild && recOk && !receiveCalled && recLocked == old(recLocked)
      ensures recMsg == Payload(old(g).ready + InOrder(old(stray) + old(g).pending))
    {
      recOk := true;
      EndReceiveSpilling();
      receiveCalled := false;
    }

    method ServeReceive(established: bool)
      requires Tied() && CanHarvest(g) && EndTied() && receiveCalled && !recLocked && strayPackets == []
      modifies this`rcvDataPackets, this`nums, this`rcvDataSoFar, this`rcvFirstMsgEnd, this`rcvPacketsMsgNum,
        this`recMsgPackets, this`headLink, this`g, this`recMsg, this`recLocked, this`recOk, this`receiveCalled
      ensures Tied() && EndTied() && g == Receive(old(g), established)
      ensures headLink == (if old(g).ready != [] then AfterTake(old(g), old(headLink)) else old(headLink))
      ensures !recLocked ==>
        !receiveCalled && (recOk <==> old(g).ready != []) && (recOk ==> recMsg == Payload(old(g).ready))
      ensures (recLocked <==> old(g).ready == [] && established) && (recLocked ==> receiveCalled)
    {
      if recMsgPackets != [] {
        recOk := true;
        EndReceiveInternal();
        receiveCalled := false;
      } else if !established {
        recOk := false;
        receiveCalled := false;
      } else {
        Block();
      }
    }

    method Block()
      requires Tied()
      modifies this`recLocked, this`g
      ensures Tied() && g == old(g).(locked := true)
    {
      recLocked := true;
      g := g.(locked := true);
    }

    /** Closing ends a blocked call with FALSE (ump_established_handle_ctrl). */
    method CloseReceive()
      requires Valid() && !wild
      modifies this
      ensures Valid() && Code() == CloseCode(old(Code())) && !recLocked
      ensures old(recLocked) ==> !recOk && !receiveCalled
    {
      CountedCanHarvest(g);
      CloseCodeKeepsInv(Code());
      EndReceive(false);
    }

    method Unblock()
      requires Tied()
      modifies this`recLocked, this`g
      ensures Tied() && g == old(g).(locked := false) && !recLocked
    {
      recLocked := false;
      g := g.(locked := false);
    }

    /** ump_closed_enter_state, the receiver's part */
    method EnterClosed()
      requires Valid() && !wild
      modifies this
      ensures Valid() && Code() == CloseCode(old(Code())) && !recLocked
      ensures old(recLocked) ==> !recOk && !receiveCalled
    {
      NoMessageIsLost(g, false);
      CountedCanHarvest(g);
      CloseCodeKeepsInv(Code());
      if rcvPacketsMsgNum < 1 {
        EndReceive(false);
      }
    }
  }

  /** The search along the prev links from the last packet of a list, for the last one whose
      number is not above num (ump_sock.c:1362-1366). */
  method SearchBack(list: seq<DataPacket>, base: U16, num: U16, ghost nums: seq<int>, ghost r: Rcv, ghost n: int)
    returns (tail: int)
    requires base == Wire(r.base) && ListIs(list, nums, r, r.base + HALF)
    requires n == Reading(r.base, num) && n >= r.base
    ensures |r.run| - 1 <= tail < |list|
    ensures forall i :: tail < i < |nums| ==> n < nums[i]
    ensures forall i :: |r.run| <= i <= tail ==> nums[i] <= n
    ensures tail >= 0 && list[tail].num == Some(num) <==> n in r.pending
  {
    tail := |list| - 1;
    ReadingIsNear(r.base, num);
    while tail >= 0 && CmpInBase(base, num, list[tail].num.value) < 0
      invariant |r.run| - 1 <= tail < |list|
      invariant forall i :: tail < i < |nums| ==> n < nums[i]
    {
      CompareAt(list, nums, r, n, tail);
      tail := tail - 1;
    }
    PlaceFound(list, nums, r, n, tail);
  }

  /** The search passes the head exactly when the packet belongs before all others. */
  lemma StraysAtHead(list: seq<DataPacket>, nums: seq<int>, s: Sock, n: int, tail: int)
    requires ListIs(list, nums, s.r, s.r.base + HALF) && s.r.base <= n
    requires |s.r.run| - 1 <= tail < |list|
    requires forall i :: tail < i < |nums| ==> n < nums[i]
    requires forall i :: |s.r.run| <= i <= tail ==> nums[i] <= n
    requires LinkFits(s.r, s.link)
    ensures tail == -1 && list != [] && s.link != Clear <==> Strays(s, n)
  {
    if tail == -1 {
      forall k | k in s.r.pending ensures n < k {
        assert InTail(nums, |s.r.run|, k);
      }
      EmptyList(list, nums, s.r, s.r.base + HALF);
    } else if s.r.run == [] {
      assert nums[0] in s.r.pending && nums[0] <= n;
    }
  }

  lemma RepeatedChangesNothing(s: Sock, n: int, c: Chunk)
    ensures Received(s.r, n) ==> ArriveCode(s, n, c) == s
  {
  }

  /** What the placing of a new packet relies on, and what it comes to. */
  lemma AcceptedIsReady(s: Sock, n: int, c: Chunk)
    requires !Received(s.r, n) && ArriveReady(s.r, n, c) && Arrive(s.r, n, c) == ArriveByRun(s.r, n, c)
    requires |Accept(s.r, n, c).run| > |s.r.run| <==> Accept(s.r, n, c).base != s.r.base
    ensures var e := Accept(s.r, n, c);
      && (e.msgNum, e.ready) == (s.r.msgNum, s.r.ready)
      && (|e.run| > |s.r.run| ==> e.msgNum >= 0 && CanHarvest(Count(e)) && (e.ready == [] ==> e.msgNum == 0))
      && Arrive(s.r, n, c) == (if |e.run| > |s.r.run| then Check(e) else e)
      && AfterArrive(s.r, n, c, s.link) == if |e.run| > |s.r.run| then AfterCheck(e, s.link) else s.link
  {
    ExtendFrame(s.r.(pending := s.r.pending[n := c]));
  }

  /** An arrival at its place leaves the packets behind the harvested message where they are. */
  lemma KeepsStrays(packets: seq<DataPacket>, nums: seq<int>, s: Sock, n: int, c: Chunk)
    requires PlacedAt(packets, nums, s.r.base, [], s.stray, s.r.base + HALF)
    requires LinkInv(s) && !s.wild && !Strays(s, n) && (packets == [] <==> s.stray == map[])
    ensures PlacedAt(packets, nums, Arrive(s.r, n, c).base, [], s.stray, Arrive(s.r, n, c).base + HALF)
  {
    if packets != [] {
      StuckArrival(s, n, c);
    } else {
      NothingPlaced(nums, Arrive(s.r, n, c).base);
    }
  }

  /** What the placing of a new packet relies on: the search has passed the head exactly when
      the packet goes astray; otherwise the packets that went astray stay where they are. */
  /** Number n belongs behind place tail, from place lo on. */
  predicate IsPlace(nums: seq<int>, lo: nat, n: int, tail: int) {
    && (forall i :: 0 <= i < |nums| && tail < i ==> n < nums[i])
    && (forall i :: lo <= i < |nums| && i <= tail ==> nums[i] < n)
  }

  ghost predicate PlacingReady(list: seq<DataPacket>, packets: seq<DataPacket>, nums: seq<int>,
      s: Sock, n: int, c: Chunk, tail: int) {
    && (packets != [] ==> s.r.ready != [])
    && (|Accept(s.r, n, c).run| > |s.r.run| <==> Accept(s.r, n, c).base != s.r.base)
    && (tail == -1 && list != [] && s.link != Clear <==> Strays(s, n))
    && (!Strays(s, n) ==>
        PlacedAt(packets, nums, Arrive(s.r, n, c).base, [], s.stray, Arrive(s.r, n, c).base + HALF))
  }

  lemma PlacingIsReady(list: seq<DataPacket>, nums: seq<int>, packets: seq<DataPacket>, strayNums: seq<int>,
      s: Sock, n: int, c: Chunk, tail: int)
    requires ListIs(list, nums, s.r, s.r.base + HALF) && LinkInv(s) && !s.wild && !Received(s.r, n)
    requires PlacedAt(packets, strayNums, s.r.base, [], s.stray, s.r.base + HALF)
    requires |s.r.run| - 1 <= tail < |list|
    requires IsPlace(nums, |s.r.run|, n, tail)
    ensures PlacingReady(list, packets, strayNums, s, n, c, tail)
  {
    StraysAtHead(list, nums, s, n, tail);
    StraysOnlyBehindMessage(packets, strayNums, s);
    GrowthShows(s.r, n, c);
    if !Strays(s, n) {
      KeepsStrays(packets, strayNums, s, n, c);
    }
  }

  lemma StrictlyBelow(list: seq<DataPacket>, nums: seq<int>, r: Rcv, n: int, tail: int)
    requires Placed(list, nums, r, r.base + HALF) && tail < |nums| && n !in r.pending
    requires forall i :: |r.run| <= i <= tail ==> nums[i] <= n
    ensures forall i :: |r.run| <= i <= tail ==> nums[i] < n
  {
    forall i | |r.run| <= i <= tail ensures nums[i] < n {
      assert nums[i] in r.pending;
    }
  }

  lemma NothingPlaced(nums: seq<int>, base: int)
    requires nums == []
    ensures PlacedAt([], nums, base, [], map[], base + HALF)
  {
  }

  lemma InsertKeepsNumbers(list: seq<DataPacket>, nums: seq<int>, at: nat, p: DataPacket, n: int)
    requires Carried(list, nums) && at <= |nums| && p.num == Some(Wire(n))
    ensures Carried(InsertAt(list, at, p), InsertAt(nums, at, n))
  {
  }

  lemma StraysOnlyBehindMessage(packets: seq<DataPacket>, nums: seq<int>, s: Sock)
    requires PlacedAt(packets, nums, s.r.base, [], s.stray, s.r.base + HALF) && LinkInv(s)
    ensures packets != [] ==> s.r.ready != []
    ensures packets == [] <==> s.stray == map[]
  {
    if packets != [] {
      assert nums[0] in s.stray;
    } else {
      NothingStray(packets, nums, s.r.base, s.stray);
    }
  }

  lemma GrowthShows(r: Rcv, n: int, c: Chunk)
    requires Inv(r) && !Received(r, n)
    ensures |Accept(r, n, c).run| > |r.run| <==> Accept(r, n, c).base != r.base
  {
    AcceptKeeps(r, n, c);
  }

  lemma AllBelow(nums: seq<int>, stray: map<int, Chunk>, all: seq<int>, tail: nat, n: int)
    requires |all| == |nums| + 1 && tail < |all| && n !in stray
    requires forall i :: 0 <= i < |nums| ==> all[i + 1] == nums[i] && nums[i] in stray
    requires forall i :: 1 <= i <= tail ==> all[i] <= n
    requires forall i :: tail < i < |all| ==> n < all[i]
    ensures forall i :: 0 <= i < tail ==> nums[i] < n
    ensures forall i :: tail <= i < |nums| ==> n < nums[i]
  {
    forall i | 0 <= i < |nums| ensures if i < tail then nums[i] < n else n < nums[i] {
      assert all[i + 1] == nums[i];
    }
  }

  lemma EmptyList(list: seq<DataPacket>, nums: seq<int>, r: Rcv, limit: int)
    requires Placed(list, nums, r, limit)
    ensures list == [] <==> ListEmpty(r)
  {
    if list == [] {
      forall k ensures k !in r.pending {
        assert !InTail(nums, |r.run|, k);
      }
      assert r.pending == map[];
    } else if r.run == [] {
      assert nums[0] in r.pending;
    }
  }

  lemma NothingStray(packets: seq<DataPacket>, nums: seq<int>, base: int, stray: map<int, Chunk>)
    requires PlacedAt(packets, nums, base, [], stray, base + HALF) && packets == []
    ensures stray == map[]
  {
    forall k ensures k !in stray {
      assert !InTail(nums, 0, k);
    }
    assert stray == map[];
  }

  /** The packets behind the harvested end are placed like packets ahead of a run that is
      just that end. */
  lemma ChainIsPlaced(end: DataPacket, packets: seq<DataPacket>, nums: seq<int>, g: Rcv, stray: map<int, Chunk>)
    requires end.num == Some(Wire(g.base - 1))
    requires Carried(packets, nums) && PlacedAt(packets, nums, g.base, [], stray, g.base + HALF)
    ensures ListIs([end] + packets, [g.base - 1] + nums, g.(run := [end.chunk], pending := stray), g.base + HALF)
  {
    ChainIsCarried(end, packets, g.base - 1, nums);
    ChainHasAll(g.base - 1, nums, stray);
    ChainIsOrdered(g.base - 1, nums);
  }

  lemma ChainIsCarried(end: DataPacket, packets: seq<DataPacket>, n: int, nums: seq<int>)
    requires end.num == Some(Wire(n)) && Carried(packets, nums)
    ensures Carried([end] + packets, [n] + nums)
  {
    forall i | 1 <= i <= |nums| ensures ([end] + packets)[i].num == Some(Wire(([n] + nums)[i])) {
      assert packets[i - 1].num == Some(Wire(nums[i - 1]));
    }
  }

  lemma ChainHasAll(n: int, nums: seq<int>, stray: map<int, Chunk>)
    requires forall k {:trigger InTail(nums, 0, k)} :: k in stray ==> InTail(nums, 0, k)
    ensures forall k {:trigger InTail([n] + nums, 1, k)} :: k in stray ==> InTail([n] + nums, 1, k)
  {
    forall k | k in stray ensures InTail([n] + nums, 1, k) {
      assert InTail(nums, 0, k);
      var i :| 0 <= i < |nums| && nums[i] == k;
      assert ([n] + nums)[i + 1] == k;
    }
  }

  lemma ChainIsOrdered(n: int, nums: seq<int>)
    requires forall i, j :: 0 <= i < j < |nums| ==> nums[i] < nums[j]
    ensures forall i, j :: 1 <= i < j < |[n] + nums| ==> ([n] + nums)[i] < ([n] + nums)[j]
  {
  }

  /** A placed list without a run is its packets in the order of their numbers. */
  lemma {:induction false} ListInOrder(list: seq<DataPacket>, nums: seq<int>, m: map<int, Chunk>)
    requires Listed(list, nums, m)
    ensures SameChunks(list, InOrder(m))
    decreases |list|
  {
    if list == [] {
      forall k ensures k !in m {
        assert !InTail(nums, 0, k);
      }
      assert m == map[];
    } else {
      var k := nums[0];
      FirstIsLeast(list, nums, m);
      ListedTail(list, nums, m);
      ListInOrder(list[1..], nums[1..], m - {k});
      FirstInOrder(m, k);
      OneMoreChunk(list, m[k], InOrder(m - {k}));
    }
  }

  lemma OneMoreChunk(list: seq<DataPacket>, c: Chunk, rest: seq<Chunk>)
    requires list != [] && list[0].chunk == c && SameChunks(list[1..], rest)
    ensures SameChunks(list, [c] + rest)
  {
    forall i | 1 <= i < |list| ensures list[i].chunk == ([c] + rest)[i] {
      assert list[1..][i - 1].chunk == rest[i - 1];
    }
  }

  lemma FirstIsLeast(list: seq<DataPacket>, nums: seq<int>, m: map<int, Chunk>)
    requires Listed(list, nums, m) && list != []
    ensures nums[0] in m && list[0].chunk == m[nums[0]] && forall j :: j in m ==> nums[0] <= j
  {
    forall j | j in m ensures nums[0] <= j {
      assert InTail(nums, 0, j);
    }
  }

  ghost predicate Listed(list: seq<DataPacket>, nums: seq<int>, m: map<int, Chunk>) {
    && |list| == |nums|
    && (forall i, j :: 0 <= i < j < |nums| ==> nums[i] < nums[j])
    && (forall i {:trigger nums[i]} :: 0 <= i < |nums| ==> nums[i] in m && list[i].chunk == m[nums[i]])
    && (forall k :: k in m ==> InTail(nums, 0, k))
  }

  lemma ListedTail(list: seq<DataPacket>, nums: seq<int>, m: map<int, Chunk>)
    requires Listed(list, nums, m) && list != []
    ensures Listed(list[1..], nums[1..], m - {nums[0]})
  {
    forall k | k in m - {nums[0]} ensures InTail(nums[1..], 0, k) {
      assert InTail(nums, 0, k);
      var i :| 0 <= i < |nums| && nums[i] == k;
      assert nums[1..][i - 1] == k;
    }
  }

  lemma FirstInOrder(m: map<int, Chunk>, k: int)
    requires k in m && forall j :: j in m ==> k <= j
    ensures InOrder(m) == [m[k]] + InOrder(m - {k})
  {
  }

  /** What hangs behind a harvested message when nothing is contiguous. */
  lemma SpillsInOrder(packets: seq<DataPacket>, strayNums: seq<int>, list: seq<DataPacket>, nums: seq<int>,
      g: Rcv, stray: map<int, Chunk>)
    requires PlacedAt(packets, strayNums, g.base, [], stray, g.base + HALF)
    requires Placed(list, nums, g, g.base + HALF) && g.run == []
    requires StraysFit(g.base, g.pending, stray)
    ensures SameChunks(packets + list, InOrder(stray + g.pending))
  {
    var all, m := strayNums + nums, stray + g.pending;
    forall k | k in m ensures InTail(all, 0, k) {
      EitherTail(strayNums, nums, k, k in stray);
    }
    SpillsSorted(strayNums, nums, g, stray);
    SpillsContents(packets, strayNums, list, nums, g, stray);
    ListInOrder(packets + list, all, m);
  }

  lemma EitherTail(a: seq<int>, b: seq<int>, k: int, first: bool)
    requires if first then InTail(a, 0, k) else InTail(b, 0, k)
    ensures InTail(a + b, 0, k)
  {
    if first {
      var i :| 0 <= i < |a| && a[i] == k;
      assert (a + b)[i] == k;
    } else {
      var i :| 0 <= i < |b| && b[i] == k;
      assert (a + b)[|a| + i] == k;
    }
  }

  lemma SpillsSorted(a: seq<int>, b: seq<int>, g: Rcv, stray: map<int, Chunk>)
    requires forall i, j :: 0 <= i < j < |a| ==> a[i] < a[j]
    requires forall i, j :: 0 <= i < j < |b| ==> b[i] < b[j]
    requires forall i {:trigger a[i]} :: 0 <= i < |a| ==> a[i] in stray
    requires forall i {:trigger b[i]} :: 0 <= i < |b| ==> b[i] in g.pending
    requires StraysFit(g.base, g.pending, stray)
    ensures forall i, j :: 0 <= i < j < |a + b| ==> (a + b)[i] < (a + b)[j]
  {
    forall i, j | 0 <= i < j < |a + b| ensures (a + b)[i] < (a + b)[j] {
      if i < |a| <= j {
        assert a[i] in stray && b[j - |a|] in g.pending;
      }
    }
  }

  lemma SpillsContents(packets: seq<DataPacket>, strayNums: seq<int>, list: seq<DataPacket>, nums: seq<int>,
      g: Rcv, stray: map<int, Chunk>)
    requires PlacedAt(packets, strayNums, g.base, [], stray, g.base + HALF)
    requires Placed(list, nums, g, g.base + HALF) && g.run == []
    requires StraysFit(g.base, g.pending, stray)
    ensures var all, m := strayNums + nums, stray + g.pending;
      forall i {:trigger all[i]} :: 0 <= i < |all| ==> all[i] in m && (packets + list)[i].chunk == m[all[i]]
  {
    var all, m := strayNums + nums, stray + g.pending;
    forall i | 0 <= i < |all| ensures all[i] in m && (packets + list)[i].chunk == m[all[i]] {
      if i < |strayNums| {
        assert strayNums[i] in stray && packets[i].chunk == stray[strayNums[i]];
        assert strayNums[i] !in g.pending;
      } else {
        assert nums[i - |strayNums|] in g.pending && list[i - |strayNums|].chunk == g.pending[nums[i - |strayNums|]];
      }
    }
  }

  lemma CutLeavesHarvest(list: seq<DataPacket>, nums: seq<int>, r: Rcv)
    requires ListIs(list, nums, r, r.base + HALF) && 0 <= r.firstEnd < |r.run|
    ensures var cut := r.firstEnd + 1;
      && SameChunks(list[..cut], Harvest(r).ready)
      && ListIs(list[cut..], nums[cut..], Harvest(r), r.base + HALF)
      && list[..cut][cut - 1].num == Some(Wire(r.base - |Harvest(r).run| - 1))
      && (list[cut..] == [] <==> ListEmpty(Harvest(r)))
  {
    HarvestKeepsList(list, nums, r);
    EndNumber(list, nums, r);
    EmptyList(list[r.firstEnd + 1..], nums[r.firstEnd + 1..], Harvest(r), r.base + HALF);
  }

  lemma EndNumber(list: seq<DataPacket>, nums: seq<int>, r: Rcv)
    requires ListIs(list, nums, r, r.base + HALF) && 0 <= r.firstEnd < |r.run|
    ensures list[r.firstEnd].num == Some(Wire(r.base - (|r.run| - r.firstEnd - 1) - 1))
  {
    assert nums[r.firstEnd] == r.base - |r.run| + r.firstEnd;
  }

  lemma HarvestKeepsList(list: seq<DataPacket>, nums: seq<int>, r: Rcv)
    requires ListIs(list, nums, r, r.base + HALF) && 0 <= r.firstEnd < |r.run|
    ensures var cut := r.firstEnd + 1;
      && SameChunks(list[..cut], r.run[..cut])
      && ListIs(list[cut..], nums[cut..], Harvest(r), r.base + HALF)
  {
    CutKeepsNumbers(list, nums, r.firstEnd + 1);
    CutKeepsList(list, nums, r.base, r.run, r.pending, r.base + HALF, r.firstEnd + 1);
  }

  lemma CutKeepsNumbers(list: seq<DataPacket>, nums: seq<int>, cut: nat)
    requires Carried(list, nums) && cut <= |nums|
    ensures Carried(list[cut..], nums[cut..])
  {
    forall i | 0 <= i < |nums| - cut ensures list[cut..][i].num == Some(Wire(nums[cut..][i])) {
      assert list[cut + i].num == Some(Wire(nums[cut + i]));
    }
  }

  lemma CutKeepsList(list: seq<DataPacket>, nums: seq<int>, base: int, run: seq<Chunk>,
      pending: map<int, Chunk>, limit: int, cut: nat)
    requires PlacedAt(list, nums, base, run, pending, limit) && cut <= |run|
    ensures PlacedAt(list[cut..], nums[cut..], base, run[cut..], pending, limit)
  {
    forall k | k in pending ensures InTail(nums[cut..], |run| - cut, k) {
      assert InTail(nums, |run|, k);
      var i :| |run| <= i < |nums| && nums[i] == k;
      assert nums[cut..][i - cut] == k;
    }
  }

  /** The search of ump_sock.c:843-847 over the whole list stays inside the run. */
  method FindEnd(list: seq<DataPacket>, ghost run: seq<Chunk>) returns (head: nat)
    requires |run| <= |list| && forall i :: 0 <= i < |run| ==> list[i].chunk == run[i]
    requires FirstBdr(run) < |run|
    ensures head == FirstBdr(run)
    ensures head < |list| && list[head].chunk.bdr && forall i :: 0 <= i < head ==> !list[i].chunk.bdr
  {
    head := 0;
    while head < |list| && !list[head].chunk.bdr
      invariant 0 <= head <= FirstBdr(run)
      invariant forall i :: 0 <= i < head ==> !list[i].chunk.bdr
    {
      assert head < |run| ==> list[head].chunk == run[head];
      head := head + 1;
    }
    assert head < |run| && list[head].chunk == run[head];
  }

  function TotalLength(packets: seq<DataPacket>): nat {
    if packets == [] then 0
    else TotalLength(packets[..|packets| - 1]) + |packets[|packets| - 1].chunk.data|
  }

  lemma {:induction false} PayloadOfPrefix(cs: seq<Chunk>, i: nat)
    requires i < |cs|
    ensures Payload(cs[..i + 1]) == Payload(cs[..i]) + cs[i].data
  {
    if i == 0 {
      assert cs[..1] == [cs[0]] && cs[..0] == [];
      assert cs[..1][1..] == [];
    } else {
      PayloadOfPrefix(cs[1..], i - 1);
      assert cs[..i + 1][1..] == cs[1..][..i] && cs[..i][1..] == cs[1..][..i - 1];
      ConcatAssociative(cs[0].data, Payload(cs[1..][..i - 1]), cs[i].data);
    }
  }

  lemma {:induction false} LengthOfPayload(packets: seq<DataPacket>, cs: seq<Chunk>)
    requires SameChunks(packets, cs)
    ensures TotalLength(packets) == |Payload(cs)|
  {
    if cs != [] {
      var n := |cs| - 1;
      LengthOfPayload(packets[..n], cs[..n]);
      PayloadOfPrefix(cs, n);
      assert cs[..n + 1] == cs;
    }
  }

  /** The two loops of ump_end_receive_internal: the first adds up the lengths, the second
      copies the payloads into a buffer of that size. */
  method Concatenate(packets: seq<DataPacket>, ghost cs: seq<Chunk>) returns (message: seq<Byte>)
    requires SameChunks(packets, cs)
    ensures message == Payload(cs)
  {
    var length, i := 0, 0;
    while i < |packets|
      invariant 0 <= i <= |packets| && length == TotalLength(packets[..i])
    {
      assert packets[..i + 1][..i] == packets[..i];
      length := length + |packets[i].chunk.data|;
      i := i + 1;
    }
    assert packets[..i] == packets && cs[..i] == cs;
    LengthOfPayload(packets, cs);
    var data := new Byte[length];
    var pos := 0;
    i := 0;
    while i < |packets|
      invariant 0 <= i <= |packets| && 0 <= pos <= length
      invariant data[..pos] == Payload(cs[..i])
    {
      PayloadOfPrefix(cs, i);
      PayloadGrows(cs, i + 1);
      CopyInto(data, pos, packets[i].chunk.data);
      pos := pos + |packets[i].chunk.data|;
      i := i + 1;
    }
    message := data[..];
    assert cs[..i] == cs;
  }

  lemma {:induction false} PayloadGrows(cs: seq<Chunk>, i: nat)
    requires i <= |cs|
    ensures |Payload(cs[..i])| <= |Payload(cs)|
    decreases |cs| - i
  {
    if i == |cs| {
      assert cs[..i] == cs;
    } else {
      PayloadOfPrefix(cs, i);
      PayloadGrows(cs, i + 1);
    }
  }

  method CopyInto(data: array<Byte>, pos: nat, bytes: seq<Byte>)
    requires pos + |bytes| <= data.Length
    modifies data
    ensures data[..pos + |bytes|] == old(data[..pos]) + bytes
  {
    forall k | 0 <= k < |bytes| {
      data[pos + k] := bytes[k];
    }
  }

  predicate Contiguous(list: seq<DataPacket>, i: int)
    requires 0 <= i < |list| - 1
    requires list[i].num.Some? && list[i + 1].num.Some?
  {
    Wire(list[i].num.value + 1) == list[i + 1].num.value
  }

  predicate RunBetween(list: seq<DataPacket>, from: int, end: int) {
    && 0 <= from <= end < |list|
    && (forall i :: 0 <= i < |list| ==> list[i].num.Some?)
    && (forall i :: from <= i < end ==> Contiguous(list, i))
    && (end + 1 < |list| ==> !Contiguous(list, end))
  }

  method EndOfRun(list: seq<DataPacket>, from: nat) returns (end: nat)
    requires from < |list| && forall i :: 0 <= i < |list| ==> list[i].num.Some?
    ensures RunBetween(list, from, end)
  {
    end := from;
    while end + 1 < |list| && Wire(list[end].num.value + 1) == list[end + 1].num.value
      invariant from <= end < |list|
      invariant forall i :: from <= i < end ==> Contiguous(list, i)
    {
      end := end + 1;
    }
  }

  predicate NumbersRun(nums: seq<int>, from: int, end: int) {
    && 0 <= from <= end < |nums|
    && (forall i :: from <= i < end ==> nums[i + 1] == nums[i] + 1)
    && (end + 1 < |nums| ==> nums[end + 1] != nums[end] + 1)
  }

  /** From the run's end on, wire numbers follow each other exactly when the numbers do. */
  lemma RunOfNumbers(list: seq<DataPacket>, nums: seq<int>, r: Rcv, limit: int, from: nat, end: nat)
    requires Carried(list, nums) && Placed(list, nums, r, limit)
    requires |r.run| - 1 <= from && RunBetween(list, from, end)
    ensures NumbersRun(nums, from, end)
    ensures Wire(list[end].num.value + 1) == Wire(nums[end] + 1)
  {
    forall i | from <= i < |nums| - 1
      ensures Contiguous(list, i) <==> nums[i + 1] == nums[i] + 1
    {
      WireSucc(nums[i]);
      assert r.base - 1 <= nums[i] <= r.base + HALF && r.base <= nums[i + 1] <= r.base + HALF;
      if Contiguous(list, i) {
        WireEqual(nums[i + 1], nums[i] + 1);
      }
    }
    WireSucc(nums[end]);
  }

  /** Following the numbers to the end of the run is extending the run in the model. */
  lemma {:induction false} ExtendReaches(list: seq<DataPacket>, nums: seq<int>, r: Rcv, limit: int, end: nat)
    requires Placed(list, nums, r, limit) && r.run != []
    requires NumbersRun(nums, |r.run| - 1, end)
    ensures Placed(list, nums, Extend(r), limit)
    ensures |Extend(r).run| - 1 == end && nums[end] + 1 == Extend(r).base
    decreases |r.pending|
  {
    NextIsBase(list, nums, r, limit);
    assert nums[|r.run| - 1] == r.base - 1;
    if r.base in r.pending {
      ExtendOnceKeepsList(list, nums, r, limit);
      ExtendReaches(list, nums, ExtendOnce(r), limit, end);
    }
  }

  lemma RunEnds(list: seq<DataPacket>, nums: seq<int>, r: Rcv, limit: int, end: nat)
    requires Carried(list, nums) && Placed(list, nums, r, limit) && r.run != []
    requires RunBetween(list, |r.run| - 1, end)
    ensures var e := Extend(r);
      && Placed(list, nums, e, e.base + HALF)
      && |e.run| - 1 == end && Wire(list[end].num.value + 1) == Wire(e.base)
  {
    RunOfNumbers(list, nums, r, limit, |r.run| - 1, end);
    ExtendReaches(list, nums, r, limit, end);
    HigherLimit(list, nums, Extend(r), limit);
  }

  lemma HigherLimit(list: seq<DataPacket>, nums: seq<int>, r: Rcv, limit: int)
    requires Placed(list, nums, r, limit)
    ensures Placed(list, nums, r, r.base + HALF)
  {
  }
}
