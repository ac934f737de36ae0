/**
  The window a receiver advertises (ump_sock.c:931-940).  While a complete message waits to
  be read, or the load is high, the window's right edge is held; otherwise it is put
  half a queue ahead of the base.
 */
module Window {
  import opened Circular

  const REC_QUEUE_LIMIT := 100
  const HALF_QUEUE := REC_QUEUE_LIMIT / 2

  /** base: the least packet missing; pos: the last packet of the window as last refreshed. */
  datatype Win = Win(base: int, rwnd: U16, pos: int)

  /** Several packets become contiguous, or the window is refreshed. */
  datatype Event = Arrive(k: nat) | Refresh(constrained: bool)

  function Refreshed(w: Win, constrained: bool): Win {
    if constrained then w.(rwnd := Wire(Min(w.rwnd, w.pos - w.base) + 1))
    else w.(rwnd := HALF_QUEUE, pos := w.base + HALF_QUEUE - 1)
  }

  function Step(w: Win, e: Event): Win {
    match e
    case Arrive(k) => w.(base := w.base + k)
    case Refresh(constrained) => Refreshed(w, constrained)
  }

  function After(w: Win, events: seq<Event>): Win
    decreases |events|
  {
    if events == [] then w else After(Step(w, events[0]), events[1..])
  }

  function Edge(w: Win): int {
    w.base + w.rwnd - 1
  }

  /** The peer has sent nothing past the edge. */
  predicate Inside(w: Win) {
    w.base <= w.pos + 1
  }

  predicate StaysInside(w: Win, events: seq<Event>)
    decreases |events|
  {
    Inside(w) && (events != [] ==> StaysInside(Step(w, events[0]), events[1..]))
  }

  /** The window is at most half a queue and, since the base only grows, at least what is
      left up to its edge. */
  predicate Inv(w: Win) {
    w.rwnd <= HALF_QUEUE && w.pos - w.base < w.rwnd
  }

  lemma FreshWindow(w: Win)
    ensures Inv(Refreshed(w, false)) && Inside(Refreshed(w, false))
    ensures Edge(Refreshed(w, false)) == Refreshed(w, false).pos == w.base + 49
  {
  }

  /** A refresh leaves a window that ends at pos, whatever was advertised before, exactly
      when the peer has kept inside the edge; otherwise it wraps to a huge one. */
  lemma RefreshEndsAtPos(w: Win)
    requires Inv(w) && Near(w.base, w.pos)
    ensures Inside(w) ==> Inv(Refreshed(w, true)) && Edge(Refreshed(w, true)) == w.pos
    ensures Refreshed(w, true).base == w.base && Refreshed(w, true).pos == w.pos
    ensures !Inside(w) ==> Refreshed(w, true).rwnd > HALF
    ensures Inv(Refreshed(w, true)) <==> Inside(w)
  {
  }

  /** As long as the peer stays inside the edge, the edge never moves left, a refresh leaves
      it at pos, and it stays put while the receiver is constrained. */
  lemma {:induction false} EdgeNeverMovesLeft(w: Win, events: seq<Event>)
    requires Inv(w) && StaysInside(w, events)
    ensures Inv(After(w, events)) && Inside(After(w, events))
    ensures After(w, events).pos >= w.pos
    ensures (forall i :: 0 <= i < |events| ==> events[i] != Refresh(false)) ==> After(w, events).pos == w.pos
    ensures events != [] && events[|events| - 1].Refresh? ==>
      Edge(After(w, events)) == After(w, events).pos && 0 <= After(w, events).rwnd <= HALF_QUEUE
    decreases |events|
  {
    if events != [] {
      var next, rest := Step(w, events[0]), events[1..];
      if events[0].Refresh? && events[0].constrained {
        RefreshEndsAtPos(w);
      }
      EdgeNeverMovesLeft(next, rest);
      assert rest != [] ==> rest[|rest| - 1] == events[|events| - 1];
      assert forall i :: 0 <= i < |rest| ==> rest[i] == events[i + 1];
    }
  }

  /** The SYN advertises a whole queue, the window is half of one: a peer that fills the
      first window makes the held window wrap. */
  lemma SynWindowOverflows(base: int)
    ensures var full := Step(Refreshed(Win(base, HALF_QUEUE, 0), false), Arrive(REC_QUEUE_LIMIT));
      !Inside(full) && Refreshed(full, true).rwnd == MODULUS - HALF_QUEUE
  {
    var full := Step(Refreshed(Win(base, HALF_QUEUE, 0), false), Arrive(REC_QUEUE_LIMIT));
    assert full.pos - full.base == -REC_QUEUE_LIMIT + HALF_QUEUE - 1;
  }

  /** The fields of the socket; g is their unbounded state. */
  class AdvertisedWindow {
    var theirDataSeqBase: U16
    var ourRwnd: U16
    var ourRwndPosSeq: U16
    ghost var g: Win

    ghost predicate Valid()
      reads this
    {
      theirDataSeqBase == Wire(g.base) && ourRwnd == g.rwnd && ourRwndPosSeq == Wire(g.pos)
    }

    /** ump_refresh_our_rwnd_pos */
    method RefreshOurRwndPos(msgNum: int, bufferLoad: nat)
      requires Valid() && Near(g.base, g.pos)
      modifies this`ourRwnd, this`ourRwndPosSeq, this`g
      ensures Valid()
      ensures g == Refreshed(old(g), msgNum > 0 || bufferLoad > HALF_QUEUE)
    {
      if msgNum > 0 || bufferLoad > HALF_QUEUE {
        CmpRefinesIntegers(g.base, g.pos, g.base);
        ourRwnd := Wire(Min(ourRwnd, CmpInBase(theirDataSeqBase, ourRwndPosSeq, theirDataSeqBase)) + 1);
        g := Refreshed(g, true);
      } else {
        ourRwnd := HALF_QUEUE;
        WireAdd(g.base, ourRwnd - 1);
        ourRwndPosSeq := RelativeToSeq(theirDataSeqBase, ourRwnd - 1);
        g := Refreshed(g, false);
      }
    }
  }
}
