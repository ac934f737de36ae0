/**
  16-bit circular sequence numbers (ump_sock.c:1577-1622).

  Every window decision of the protocol compares 16-bit numbers around a moving
  base.  The functions below compute what the C functions compute; the lemmas show
  that they agree with unbounded integers as long as the numbers stay within
  [-32768, 32767] of the base, and only then.
 */
module Circular {

  const MODULUS := 65536
  const HALF := 32767 // G_MAXUINT16 >> 1

  type U16 = x: int | 0 <= x < 65536

  /** The 16-bit number that carries the unbounded number n. */
  function Wire(n: int): U16 {
    n % 65536
  }

  function Min(x: int, y: int): int {
    if x <= y then x else y
  }

  function Max(x: int, y: int): int {
    if x >= y then x else y
  }

  /** Numbers up to the circle point belong to the next lap. */
  function Unrolled(circlePoint: U16, x: U16): int {
    if x <= circlePoint then x + MODULUS else x
  }

  /** ump_cmp_in_sndbase and ump_cmp_in_rcvbase; `base` is the socket's base field. */
  function CmpInBase(base: U16, x: U16, y: U16): int {
    var circlePoint := Wire(base + HALF);
    Unrolled(circlePoint, x) - Unrolled(circlePoint, y)
  }

  /** ump_seq_to_relative_via_sndstartseq */
  function SeqToRelative(start: U16, x: U16): int {
    var circlePoint := Wire(start + HALF);
    Unrolled(circlePoint, x) - Unrolled(circlePoint, start)
  }

  /** ump_relative_to_seq_via_sndstartseq and ump_relative_to_seq_via_rcvseq */
  function RelativeToSeq(start: U16, l: nat): U16 {
    Wire(start + l)
  }

  /** The signed distance from base to x along the shorter way round. */
  function Offset(base: U16, x: U16): (d: int)
    ensures -HALF - 1 <= d <= HALF
    ensures Wire(base + d) == x
  {
    var d := Wire(x - base);
    if d <= HALF then d else d - MODULUS
  }

  /** How an endpoint whose base is the unbounded number b reads the 16-bit number x. */
  function Reading(b: int, x: U16): int {
    b + Offset(Wire(b), x)
  }

  predicate Near(b: int, n: int) {
    -HALF - 1 <= n - b <= HALF
  }

  lemma WireEqual(n: int, m: int)
    requires Wire(n) == Wire(m)
    requires -MODULUS < n - m < MODULUS
    ensures n == m
  {
  }

  lemma WireStep(n: int, d: nat)
    requires d < MODULUS
    ensures Wire(n + d) == if Wire(n) + d < MODULUS then Wire(n) + d else Wire(n) + d - MODULUS
  {
  }

  lemma WireAdd(n: int, d: int)
    ensures Wire(Wire(n) + d) == Wire(n + d)
  {
  }

  lemma WireLap(n: int)
    ensures Wire(n) == Wire(n - MODULUS)
  {
  }

  lemma WireSucc(n: int)
    ensures Wire(Wire(n) + 1) == Wire(n + 1)
  {
  }

  lemma OffsetUnique(base: U16, x: U16, d: int)
    requires -HALF - 1 <= d <= HALF
    requires Wire(base + d) == x
    ensures Offset(base, x) == d
  {
    WireEqual(base + d, base + Offset(base, x));
  }

  /** A comparison is the difference of the two signed distances from the base. */
  lemma CmpIsOffsetDifference(base: U16, x: U16, y: U16)
    ensures CmpInBase(base, x, y) == Offset(base, x) - Offset(base, y)
  {
    UnrolledIsOffset(base, x);
    UnrolledIsOffset(base, y);
  }

  lemma UnrolledIsOffset(base: U16, x: U16)
    ensures Unrolled(Wire(base + HALF), x)
         == (if base <= HALF + 1 then base + MODULUS else base) + Offset(base, x)
  {
    var d := Unrolled(Wire(base + HALF), x) - (if base <= HALF + 1 then base + MODULUS else base);
    OffsetUnique(base, x, d);
  }

  /** For every base the comparison is a total order on all 65536 numbers. */
  lemma CmpIsTotalOrder(base: U16, x: U16, y: U16, z: U16)
    ensures CmpInBase(base, x, y) == 0 <==> x == y
    ensures CmpInBase(base, x, y) == -CmpInBase(base, y, x)
    ensures CmpInBase(base, x, y) < 0 && CmpInBase(base, y, z) < 0 ==> CmpInBase(base, x, z) < 0
  {
    CmpIsOffsetDifference(base, x, y);
    CmpIsOffsetDifference(base, y, z);
  }

  /** An endpoint reads a 16-bit number as the unbounded number it came from exactly
      when that number lies inside the half window around the endpoint's base. */
  lemma ReadingIsExact(b: int, n: int)
    ensures Reading(b, Wire(n)) == n <==> Near(b, n)
  {
    if Near(b, n) {
      NearOffset(b, n);
    }
  }

  lemma NearOffset(b: int, n: int)
    requires Near(b, n)
    ensures Offset(Wire(b), Wire(n)) == n - b
  {
    OffsetUnique(Wire(b), Wire(n), n - b);
  }

  lemma ReadingIsNear(b: int, x: U16)
    ensures Near(b, Reading(b, x)) && Wire(Reading(b, x)) == x
  {
  }

  /** Inside the half window the 16-bit comparison is the unbounded one. */
  lemma CmpRefinesIntegers(b: int, n: int, m: int)
    requires Near(b, n) && Near(b, m)
    ensures CmpInBase(Wire(b), Wire(n), Wire(m)) == n - m
  {
    CmpIsOffsetDifference(Wire(b), Wire(n), Wire(m));
    NearOffset(b, n);
    NearOffset(b, m);
  }

  /** The relative position is right exactly inside the half window of the start. */
  lemma RelativeRefinesIntegers(start: int, n: int)
    ensures SeqToRelative(Wire(start), Wire(n)) == n - start <==> Near(start, n)
  {
    CmpIsOffsetDifference(Wire(start), Wire(n), Wire(start));
    OffsetUnique(Wire(start), Wire(start), 0);
    ReadingIsExact(start, n);
  }

  /** Converting a position to a sequence number and back gives the position exactly
      for the positions 0 .. 32767, whatever the start: the limit on a message's size. */
  lemma RelativeRoundTrip(start: U16, l: nat)
    ensures SeqToRelative(start, RelativeToSeq(start, l)) == l <==> l <= HALF
  {
    RelativeRefinesIntegers(start, start + l);
  }

  /** A packet that is a whole lap late is taken for the packet now expected. */
  lemma LapLateIsMisread(b: int)
    ensures Reading(b, Wire(b - MODULUS)) == b
  {
    OffsetUnique(Wire(b), Wire(b - MODULUS), 0);
  }
}
