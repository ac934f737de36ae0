/**
  The retransmission timeout estimator (rtocomputer.c), over the reals.  It is the
  estimator of section 2 of RFC 6298 with gains 1/8 and 1/4.
 */
module Rto {

  const TIMEOUT_LIMIT := 15000 // ump_sock_private.h
  const RTO_MIN := 16.0
  const RTO_MAX := 90000.0
  const MEAN_GAIN := 0.125
  const DEVIATION_GAIN := 0.25

  datatype Estimate = Estimate(a: real, d: real, rto: real)

  function Abs(x: real): real {
    if x < 0.0 then -x else x
  }

  function MaxReal(x: real, y: real): real {
    if x >= y then x else y
  }

  function MinReal(x: real, y: real): real {
    if x <= y then x else y
  }

  function Initial(): Estimate {
    Estimate(0.0, 3000.0, 6000.0)
  }

  function Sample(e: Estimate, m: real): Estimate {
    var a := e.a + MEAN_GAIN * (m - e.a);
    var d := e.d + DEVIATION_GAIN * (Abs(m - e.a) - e.d);
    Estimate(a, d, MaxReal(a + 4.0 * d, RTO_MIN))
  }

  function Backoff(e: Estimate): Estimate {
    e.(rto := MinReal(e.rto * 2.0, RTO_MAX))
  }

  /** rto_get_rto: the cast to glong drops the fraction; the timeout is never negative. */
  function Millis(e: Estimate): int {
    e.rto.Floor
  }

  class RtoComputer {
    var a: real
    var d: real
    var err: real
    var m: real
    var rto: real

    ghost function View(): Estimate
      reads this
    {
      Estimate(a, d, rto)
    }

    constructor ()
      ensures View() == Initial()
    {
      a := 0.0;
      d := 3000.0;
      err := 0.0;
      m := 0.0;
      rto := 0.0 + 2.0 * 3000.0;
    }

    method RefreshRtt(rtt: int)
      modifies this
      ensures View() == Sample(old(View()), rtt as real)
    {
      m := rtt as real;
      err := m - a;
      a := a + MEAN_GAIN * err;
      d := d + DEVIATION_GAIN * (Abs(err) - d);
      rto := MaxReal(a + 4.0 * d, RTO_MIN);
    }

    method TimeoutOccurred()
      modifies this
      ensures View() == Backoff(old(View()))
    {
      rto := MinReal(rto * 2.0, RTO_MAX);
    }

    method GetRto() returns (ms: int)
      ensures ms == Millis(View())
    {
      ms := rto.Floor;
    }

    method GetEstimatedRtt() returns (ms: int)
      ensures ms == View().a.Floor
    {
      ms := a.Floor;
    }
  }

  /** The estimator of section 2 of RFC 6298: the mean moves an eighth of the way to the sample, the
      deviation a quarter of the way to the sample's distance from the old mean, and the timeout is
      the mean and four deviations, at least 16 ms. */
  lemma SampleIsRfc6298(e: Estimate, m: real)
    ensures var t, gap := Sample(e, m), if m >= e.a then m - e.a else e.a - m;
      && 8.0 * t.a == 7.0 * e.a + m && 4.0 * t.d == 3.0 * e.d + gap
      && t.rto == if t.a + 4.0 * t.d >= 16.0 then t.a + 4.0 * t.d else 16.0
  {
  }

  /** Before any sample the mean is zero, the deviation three seconds and the timeout six; the first
      sample m leaves a timeout of nine seconds and 9/8 m. */
  lemma FirstSample(m: real)
    requires m >= 0.0
    ensures Initial().rto == 6000.0
    ensures var t := Sample(Initial(), m); 8.0 * t.a == m && 4.0 * t.d == 9000.0 + m && 8.0 * t.rto == 72000.0 + 9.0 * m
  {
  }

  // ---------- every run of samples and timeouts ----------

  datatype Event = Measured(m: real) | TimedOut

  function After(e: Estimate, es: seq<Event>): Estimate {
    if es == [] then e
    else
      var before := After(e, es[..|es| - 1]);
      match es[|es| - 1]
      case Measured(m) => Sample(before, m)
      case TimedOut => Backoff(before)
  }

  predicate Bounded(e: Estimate, limit: real) {
    && 0.0 <= e.a <= limit
    && 0.0 <= e.d <= MaxReal(3000.0, limit)
    && RTO_MIN <= e.rto <= MaxReal(RTO_MAX, limit + 4.0 * MaxReal(3000.0, limit))
  }

  predicate SamplesWithin(es: seq<Event>, limit: real) {
    forall i :: 0 <= i < |es| && es[i].Measured? ==> 0.0 <= es[i].m <= limit
  }

  /** Samples in [0, limit] keep mean, deviation and timeout bounded, whatever the
      interleaving with timeouts. */
  lemma {:induction false} EstimatesStayBounded(es: seq<Event>, limit: real)
    requires 0.0 <= limit && SamplesWithin(es, limit)
    ensures Bounded(After(Initial(), es), limit)
  {
    if es != [] {
      EstimatesStayBounded(es[..|es| - 1], limit);
    }
  }

  function Pow(x: real, n: nat): real {
    if n == 0 then 1.0 else x * Pow(x, n - 1)
  }

  function Samples(e: Estimate, m: real, n: nat): Estimate {
    if n == 0 then e else Sample(Samples(e, m, n - 1), m)
  }

  lemma {:induction false} PowPositive(x: real, n: nat)
    requires x > 0.0
    ensures Pow(x, n) > 0.0
  {
    if n > 0 {
      PowPositive(x, n - 1);
    }
  }

  /** After n equal samples m the mean has closed all but (7/8)^n of its gap to m. */
  lemma {:induction false} EqualSamplesMean(e: Estimate, m: real, n: nat)
    ensures Samples(e, m, n).a == m + Pow(0.875, n) * (e.a - m)
  {
    if n > 0 {
      EqualSamplesMean(e, m, n - 1);
      MeanStep(Pow(0.875, n - 1), e.a - m);
    }
  }

  function Mix(p: real, q: real, gap: real, d: real): real {
    q * (d - 2.0 * gap) + 2.0 * gap * p
  }

  function DeviationAfter(e: Estimate, m: real, n: nat): real {
    Mix(Pow(0.875, n), Pow(0.75, n), Abs(e.a - m), e.d)
  }

  /** The deviation is then a mix of (3/4)^n and (7/8)^n: it converges to zero too. */
  lemma {:induction false} EqualSamplesDeviation(e: Estimate, m: real, n: nat)
    ensures Samples(e, m, n).d == DeviationAfter(e, m, n)
  {
    if n > 0 {
      EqualSamplesDeviation(e, m, n - 1);
      DeviationNext(e, m, n, Samples(e, m, n - 1));
    }
  }

  lemma DeviationNext(e: Estimate, m: real, n: nat, before: Estimate)
    requires n > 0 && before == Samples(e, m, n - 1)
    requires before.d == DeviationAfter(e, m, n - 1)
    ensures Sample(before, m).d == DeviationAfter(e, m, n)
  {
    var p, q, gap := Pow(0.875, n - 1), Pow(0.75, n - 1), Abs(e.a - m);
    GapShrinks(e, m, n - 1);
    DeviationStep(before, m, p, q, gap, e.d);
    PowStep(0.875, n);
    PowStep(0.75, n);
    assert DeviationAfter(e, m, n) == Mix(0.875 * p, 0.75 * q, gap, e.d);
  }

  lemma PowStep(x: real, n: nat)
    requires n > 0
    ensures Pow(x, n) == x * Pow(x, n - 1)
  {
  }

  lemma GapShrinks(e: Estimate, m: real, n: nat)
    ensures Abs(m - Samples(e, m, n).a) == Pow(0.875, n) * Abs(e.a - m)
  {
    PowPositive(0.875, n);
    EqualSamplesMean(e, m, n);
    AbsOfScaled(Pow(0.875, n), e.a - m);
  }

  lemma AbsOfScaled(p: real, x: real)
    requires p > 0.0
    ensures Abs(-(p * x)) == p * Abs(x)
  {
    assert x < 0.0 <==> p * x < 0.0;
  }

  lemma MeanStep(p: real, x: real)
    ensures (0.875 * p) * x == p * x + 0.125 * -(p * x)
  {
  }

  lemma DeviationStep(before: Estimate, m: real, p: real, q: real, gap: real, d: real)
    requires before.d == Mix(p, q, gap, d)
    requires Abs(m - before.a) == p * gap
    ensures Sample(before, m).d == Mix(0.875 * p, 0.75 * q, gap, d)
  {
    var x, y := q * (d - 2.0 * gap), gap * p;
    assert (0.75 * q) * (d - 2.0 * gap) == 0.75 * x;
    assert 2.0 * gap * (0.875 * p) == 1.75 * y;
    assert 2.0 * gap * p == 2.0 * y;
    assert p * gap == y;
  }

  function Backoffs(e: Estimate, n: nat): Estimate {
    if n == 0 then e else Backoff(Backoffs(e, n - 1))
  }

  lemma {:induction false} BackoffsDouble(e: Estimate, n: nat)
    requires RTO_MIN <= e.rto && n <= 10
    ensures Backoffs(e, n).rto >= RTO_MIN * Pow(2.0, n)
  {
    if n > 0 {
      BackoffsDouble(e, n - 1);
      PowerOfTwoAtMost1024(n);
    }
  }

  lemma {:induction false} PowerOfTwoAtMost1024(n: nat)
    requires n <= 10
    ensures Pow(2.0, n) <= 1024.0
    ensures n == 10 ==> Pow(2.0, n) == 1024.0
    decreases 10 - n
  {
    assert Pow(2.0, 2) == 4.0;
    assert Pow(2.0, 4) == 16.0;
    assert Pow(2.0, 6) == 64.0;
    assert Pow(2.0, 8) == 256.0;
    assert Pow(2.0, 10) == 1024.0;
    if n < 10 {
      PowerOfTwoAtMost1024(n + 1);
      PowPositive(2.0, n);
    }
  }

  /** With no sample in between, at most 10 timeouts are retried: from any estimate the
      timeout value reaches the limit at which the sender gives up (ump_sock.c:685). */
  lemma RetriesAreBounded(e: Estimate, n: nat)
    requires RTO_MIN <= e.rto
    requires forall k :: 0 <= k < n ==> Millis(Backoffs(e, k)) < TIMEOUT_LIMIT
    ensures n <= 10
  {
    BackoffsDouble(e, 10);
    PowerOfTwoAtMost1024(10);
    assert Backoffs(e, 10).rto >= 16384.0;
    assert Millis(Backoffs(e, 10)) >= 16384;
  }

  /** The bound is reached: from the least timeout value ten timeouts are retried. */
  lemma TenRetriesHappen(e: Estimate)
    requires e.rto == RTO_MIN
    ensures forall k :: 0 <= k < 10 ==> Millis(Backoffs(e, k)) < TIMEOUT_LIMIT
  {
    forall k | 0 <= k < 10 ensures Millis(Backoffs(e, k)) < TIMEOUT_LIMIT {
      BackoffsFromMinimum(e, k);
      PowerOfTwoAtMost1024(k + 1);
    }
  }

  lemma {:induction false} BackoffsFromMinimum(e: Estimate, n: nat)
    requires e.rto == RTO_MIN && n <= 10
    ensures Backoffs(e, n).rto == RTO_MIN * Pow(2.0, n)
  {
    if n > 0 {
      BackoffsFromMinimum(e, n - 1);
      PowerOfTwoAtMost1024(n);
    }
  }
}
