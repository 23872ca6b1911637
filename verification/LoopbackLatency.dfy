/** The latency controller of module-loopback.c: the P-controller with drift
    compensation, the Kalman filter in front of it, and the escalation of the
    latency after underruns. */
module LoopbackLatency {
  import opened RateMath

  function Max(a: int, b: int): int { if a > b then a else b }

  /** The conversion of a double to an integer type. */
  function Trunc(x: real): int { if x < 0.0 then -(-x).Floor else x.Floor }

  function Clamp(x: real, low: real, high: real): real {
    if x > high then high else if x < low then low else x
  }

  /** PA_CLIP_SUB */
  function ClipSub(a: int, b: int): int { if a > b then a - b else 0 }

  // ------------------------------------------------------- minimum latency

  const STEP_USEC: nat := 5000

  /** What update_minimum_latency() depends on besides the limit found by
      underruns. */
  datatype Devices = Devices(
    minSinkLatency: nat,
    minSourceLatency: nat,
    fixedAlsaSource: bool,
    fragmentMsec: nat,
    sinkOffset: int,
    sourceOffset: int)
  {
    function Offset(): int { sinkOffset + sourceOffset }

    /** The limit that follows from the latency ranges. */
    function RangeLimit(): nat {
      var l := minSinkLatency + (if fixedAlsaSource then fragmentMsec * 1000 else minSourceLatency);
      (l as real * 1.1).Floor + 1500
    }

    /** update_minimum_latency() */
    function MinimumLatency(underrunLimit: nat): nat {
      var l := if underrunLimit != 0 then underrunLimit else RangeLimit();
      if -Offset() <= l then l + Offset() else 0
    }
  }

  /** Without underruns the minimum latency without the offsets exceeds what source and
      sink need together by 10%, rounded down, and 1.5 ms. */
  lemma RangeLimitHasMargin(d: Devices)
    ensures var need := d.minSinkLatency + if d.fixedAlsaSource then d.fragmentMsec * 1000 else d.minSourceLatency;
            10 * (d.RangeLimit() - 1500) <= 11 * need < 10 * (d.RangeLimit() - 1500) + 10
    ensures d.Offset() >= 0 ==> d.MinimumLatency(0) == d.RangeLimit() + d.Offset()
    ensures d.MinimumLatency(0) == 0 <==> d.RangeLimit() + d.Offset() <= 0
  {
  }

  /** The latency asked for by an escalation from the effective latency `l`. */
  function Escalated(l: nat, maxLatency: nat): nat {
    if maxLatency == 0 || l + STEP_USEC < maxLatency then l + STEP_USEC else maxLatency
  }

  /** The minimum latency after an escalation. */
  function AfterEscalation(d: Devices, latency: nat, maxLatency: nat, minimum: nat): nat {
    d.MinimumLatency(ClipSub(Escalated(Max(latency, minimum), maxLatency), d.Offset()))
  }

  /** From a minimum latency that update_minimum_latency() computed with the same
      offsets, an escalation sets the effective latency to exactly the escalated value
      if and only if there is no maximum or the offsets sum up to less than it. */
  lemma EscalationIsExact(d: Devices, latency: nat, maxLatency: nat, limit: nat)
    requires maxLatency == 0 || latency <= maxLatency
    ensures var minimum := d.MinimumLatency(limit);
            var target := Escalated(Max(latency, minimum), maxLatency);
            var effective := Max(latency, AfterEscalation(d, latency, maxLatency, minimum));
            effective == target <==> maxLatency == 0 || d.Offset() < maxLatency
  {
    var minimum := d.MinimumLatency(limit);
    assert d.Offset() <= minimum;
    assert Escalated(Max(latency, minimum), maxLatency) > d.Offset() || maxLatency != 0;
  }

  /** Offsets that reach the maximum keep the effective latency above it, before and
      after an escalation. */
  lemma OffsetsAboveMaximum(d: Devices, latency: nat, maxLatency: nat, limit: nat)
    requires 0 < maxLatency <= d.Offset()
    ensures var minimum := d.MinimumLatency(limit);
            && minimum > maxLatency
            && AfterEscalation(d, latency, maxLatency, minimum) == d.MinimumLatency(0) > maxLatency
  {
    var minimum := d.MinimumLatency(limit);
    assert d.RangeLimit() > 0;
    assert Escalated(Max(latency, minimum), maxLatency) == maxLatency;
  }

  /** The minimum latency after `n` escalations in a row. */
  function Escalations(d: Devices, latency: nat, maxLatency: nat, minimum: nat, n: nat): nat {
    if n == 0 then minimum
    else AfterEscalation(d, latency, maxLatency, Escalations(d, latency, maxLatency, minimum, n - 1))
  }

  /** Escalations without a change of devices or offsets climb in steps of 5 ms and
      stop at the maximum. */
  lemma {:induction false} EscalationsClimb(d: Devices, latency: nat, maxLatency: nat, limit: nat, n: nat)
    requires maxLatency == 0 || (latency <= maxLatency && d.Offset() < maxLatency)
    requires n > 0
    ensures var minimum := d.MinimumLatency(limit);
            var l := Max(latency, minimum);
            Max(latency, Escalations(d, latency, maxLatency, minimum, n))
            == if maxLatency == 0 || l + n * STEP_USEC < maxLatency then l + n * STEP_USEC else maxLatency
  {
    var minimum := d.MinimumLatency(limit);
    var before := limit;
    if n > 1 {
      EscalationsClimb(d, latency, maxLatency, limit, n - 1);
      before := ClipSub(Escalated(Max(latency, Escalations(d, latency, maxLatency, minimum, n - 2)), maxLatency),
                        d.Offset());
    }
    assert Escalations(d, latency, maxLatency, minimum, n - 1) == d.MinimumLatency(before);
    EscalationIsExact(d, latency, maxLatency, before);
    hide Devices.MinimumLatency, AfterEscalation;
  }

  // ------------------------------------------------------------ Kalman filter

  function Filtered(measured: real, predicted: real, kalman: real, variance: real): real
    requires kalman + variance > 0.0
  {
    (measured * kalman + predicted * variance) / (kalman + variance)
  }

  function NextKalman(kalman: real, variance: real): real
    requires kalman + variance > 0.0
  {
    kalman * variance / (kalman + variance) + variance / 4.0 + 200.0
  }

  function Square(x: real): (r: real)
    ensures r >= 0.0
  {
    x * x
  }

  /** Twice the error is four times the variance. */
  lemma SquareIs(x: real)
    ensures Square(2.0 * x) == 4.0 * Square(x) && Square(-x) == Square(x) && Square(1.0) == 1.0
  {
  }

  function RMin(a: real, b: real): real { if a < b then a else b }
  function RMax(a: real, b: real): real { if a > b then a else b }

  /** The filtered latency lies between the measured and the predicted one. */
  lemma FilteredIsBetween(measured: real, predicted: real, kalman: real, variance: real)
    requires kalman > 0.0 && variance >= 0.0
    ensures RMin(measured, predicted) <= Filtered(measured, predicted, kalman, variance) <= RMax(measured, predicted)
  {
    var x := Filtered(measured, predicted, kalman, variance);
    assert x * (kalman + variance) == measured * kalman + predicted * variance;
    hide Filtered;
    MeanIsAbove(RMin(measured, predicted), x, measured, predicted, kalman, variance);
    MeanIsAbove(-RMax(measured, predicted), -x, -measured, -predicted, kalman, variance);
  }

  /** The filtered latency divides the way from the measured to the predicted one like
      the two variances. */
  ghost predicate Balanced(measured: real, predicted: real, kalman: real, variance: real, x: real) {
    (x - measured) * kalman == (predicted - x) * variance
  }

  /** That is what the filter computes and nothing else does; a measurement without
      variance is taken as it is. */
  lemma FilterBalances(measured: real, predicted: real, kalman: real, variance: real, x: real)
    requires kalman > 0.0 && variance >= 0.0
    ensures Balanced(measured, predicted, kalman, variance, x) <==> x == Filtered(measured, predicted, kalman, variance)
    ensures variance == 0.0 ==> Filtered(measured, predicted, kalman, variance) == measured
  {
    var sum, y := kalman + variance, Filtered(measured, predicted, kalman, variance);
    assert y * sum == measured * kalman + predicted * variance;
    hide Filtered;
    assert (x - measured) * kalman - (predicted - x) * variance == x * sum - (measured * kalman + predicted * variance);
    Differ(x, y, sum);
    Differ(y, measured, sum);
  }

  lemma NotZero(a: real, b: real)
    requires a != 0.0 && b > 0.0
    ensures a * b != 0.0
  {
    if a > 0.0 {
      assert a * b > 0.0;
    } else {
      assert (-a) * b > 0.0;
    }
  }

  lemma Differ(a: real, b: real, d: real)
    requires d > 0.0
    ensures a != b ==> a * d != b * d
  {
    if a != b {
      NotZero(a - b, d);
      assert (a - b) * d == a * d - b * d;
    }
  }

  /** The variance left by the filter, before the margin for the next step is added, is
      what weighs the correction: the same part of the old variance that the filtered
      latency has moved from the measured towards the predicted one. */
  lemma KalmanFollowsFilter(measured: real, predicted: real, kalman: real, variance: real)
    requires kalman > 0.0 && variance >= 0.0
    ensures var left := NextKalman(kalman, variance) - variance / 4.0 - 200.0;
            var x := Filtered(measured, predicted, kalman, variance);
            && left * (kalman + variance) == kalman * variance
            && left * (predicted - measured) == (x - measured) * kalman == (predicted - x) * variance
  {
    var sum, x := kalman + variance, Filtered(measured, predicted, kalman, variance);
    var left := kalman * variance / sum;
    assert left * sum == kalman * variance;
    FilterBalances(measured, predicted, kalman, variance, x);
    assert x * sum == measured * kalman + predicted * variance;
    hide Filtered;
    assert (x - measured) * sum == (predicted - measured) * variance;
    SameQuotient(left * (predicted - measured), (x - measured) * kalman, sum, kalman, variance, left,
                 predicted - measured, x - measured);
  }

  lemma SameQuotient(a: real, b: real, sum: real, k: real, v: real, left: real, p: real, m: real)
    requires sum > 0.0 && left * sum == k * v && m * sum == p * v && a == left * p && b == m * k
    ensures a == b
  {
    assert a * sum == (k * v) * p && b * sum == (p * v) * k;
    Differ(a, b, sum);
  }

  lemma MeanIsAbove(lo: real, x: real, m: real, p: real, k: real, v: real)
    requires k > 0.0 && v >= 0.0 && lo <= m && lo <= p
    requires x * (k + v) == m * k + p * v
    ensures lo <= x
  {
    Product(m - lo, k);
    Product(p - lo, v);
    assert (x - lo) * (k + v) == (m - lo) * k + (p - lo) * v;
    Factor(x - lo, k + v);
  }

  /** The variance of the filter stays positive and is bounded by the variance of
      the measurements. */
  lemma KalmanStaysPositive(kalman: real, variance: real)
    requires kalman > 0.0 && variance >= 0.0
    ensures 200.0 <= NextKalman(kalman, variance) <= variance * 1.25 + 200.0
  {
    var sum := kalman + variance;
    var q := kalman * variance / sum;
    assert q * sum == kalman * variance;
    Product(kalman, variance);
    Product(variance, variance);
    Factor(q, sum);
    assert (variance - q) * sum == variance * variance;
    Factor(variance - q, sum);
  }

  // ---------------------------------------------------------- rate controller

  /** The greatest drift in Hz that the controller accepts. */
  function DriftLimit(baseRate: nat): real {
    (baseRate / 100 + 1) as real
  }

  /** The measured difference between the rates of source and sink, or 0 if it is
      more than 1% of the base rate. */
  function DriftRate(baseRate: nat, oldRate: nat, drift: int, adjustTime: nat): real
    requires adjustTime > 0
  {
    var rate := (drift * oldRate) as real / adjustTime as real + oldRate as real - baseRate as real;
    if Abs(Trunc(rate)) > baseRate / 100 then 0.0 else rate
  }

  /** (1 - FILTER_PARAMETER) * old + FILTER_PARAMETER * x */
  function LowPass(filter: real, x: real): real {
    0.875 * filter + 0.125 * x
  }

  lemma DriftIsLimited(baseRate: nat, oldRate: nat, drift: int, adjustTime: nat)
    requires adjustTime > 0
    ensures RAbs(DriftRate(baseRate, oldRate, drift, adjustTime)) < DriftLimit(baseRate)
  {
    var rate := (drift * oldRate) as real / adjustTime as real + oldRate as real - baseRate as real;
    TruncIsClose(rate);
  }

  lemma TruncIsClose(x: real)
    ensures RAbs(x) < (Abs(Trunc(x)) + 1) as real
  {
  }

  /** If the latency changed as it does when the source delivers at `rate`, measured by the
      sink's clock, the drift is the difference between that rate and the base rate,
      unless it is more than 1%. */
  lemma DriftIsFound(baseRate: nat, oldRate: nat, drift: int, adjustTime: nat, rate: real)
    requires adjustTime > 0 && (rate - oldRate as real) * adjustTime as real == drift as real * oldRate as real
    ensures DriftRate(baseRate, oldRate, drift, adjustTime)
            == if Abs(Trunc(rate - baseRate as real)) > baseRate / 100 then 0.0 else rate - baseRate as real
  {
    var t := adjustTime as real;
    assert (drift * oldRate) as real == drift as real * oldRate as real;
    QuotientIs((drift * oldRate) as real, t, rate - oldRate as real);
  }

  lemma QuotientIs(n: real, d: real, q: real)
    requires d > 0.0 && q * d == n
    ensures n / d == q
  {
    Differ(n / d, q, d);
  }

  /** Every step of the low-pass filter covers an eighth of the way to its input. */
  lemma LowPassApproaches(filter: real, x: real)
    ensures 8.0 * (LowPass(filter, x) - filter) == x - filter
  {
  }

  lemma LowPassKeepsLimit(filter: real, x: real, limit: real)
    requires RAbs(filter) < limit && RAbs(x) < limit
    ensures RAbs(LowPass(filter, x)) < limit
  {
  }

  /** The weight is lowered near the optimum rate, after the second crossing. */
  predicate IsLowered(oldRate: nat, optimum: nat, crossings: nat)
    requires optimum > 0
  {
    Abs(oldRate - optimum) as real / optimum as real < 0.002 && crossings >= 2
  }

  function LeastWeight(baseRate: nat, adjustTime: nat, threshold: nat): (w: real)
    requires baseRate > 0 && threshold > 0
    ensures 0.0 <= w <= 1.0
  {
    Clamp(0.5 / baseRate as real * (100.0 + adjustTime as real / threshold as real), 0.0, 1.0)
  }

  /** The weight of the P-controller. */
  function Weight(baseRate: nat, oldRate: nat, optimum: nat, d: int, adjustTime: nat, threshold: nat,
                  crossings: nat): (w: real)
    requires baseRate > 0 && optimum > 0 && threshold > 0
    ensures 0.0 <= w <= 1.0
  {
    var least := LeastWeight(baseRate, adjustTime, threshold);
    if IsLowered(oldRate, optimum, crossings) then Clamp(Abs(d) as real / threshold as real * least, least, 1.0)
    else 1.0
  }

  /** The rate the P-controller chooses. */
  function ControllerRate(baseRate: nat, oldRate: nat, d: int, adjustTime: nat, weight: real): real
    requires 0 < adjustTime
  {
    Choose(baseRate as real, FirstRate(baseRate, oldRate, d, adjustTime), SecondRate(baseRate, d, adjustTime, weight),
           weight > 0.99)
  }

  /** A rate less than 0.2% of the base rate away from the old one. */
  function FirstRate(baseRate: nat, oldRate: nat, d: int, adjustTime: nat): real
    requires 0 < adjustTime
  {
    oldRate as real + Share(baseRate as real, Correction(d, adjustTime, 0.002))
  }

  /** The best rate for the weighted latency difference, less than 1% away from the base rate. */
  function SecondRate(baseRate: nat, d: int, adjustTime: nat, weight: real): real
    requires 0 < adjustTime
  {
    Share(baseRate as real, 1.0 + Share(weight, Correction(d, adjustTime, 0.01)))
  }

  /** The rate nearer to the base rate, unless the latency is nearly reached. */
  function Choose(base: real, rate1: real, rate2: real, heavy: bool): real {
    if Abs(Trunc(rate1 - base)) < Abs(Trunc(rate2 - base)) && heavy then rate1 else rate2
  }

  /** What the P-controller asks for with the weight that applies. */
  function Asked(baseRate: nat, oldRate: nat, optimum: real, d: int, adjustTime: nat, threshold: nat,
                 crossings: nat): real
    requires baseRate > 0 && optimum >= 1.0 && adjustTime > 0 && threshold > 0
  {
    ControllerRate(baseRate, oldRate, d, adjustTime,
                   Weight(baseRate, oldRate, Trunc(optimum), d, adjustTime, threshold, crossings))
  }

  /** The P-controller stays less than 1% away from the base rate, asks for the
      base rate itself if there is no difference, corrects in the direction of the
      difference, and unless its weight is lowered moves away from the base rate by
      less than 0.2% and 1 Hz per call. */
  lemma ControllerIsBounded(baseRate: nat, oldRate: nat, d: int, adjustTime: nat, weight: real)
    requires 0 < adjustTime && 0 < baseRate && 0.0 <= weight <= 1.0
    ensures var x := ControllerRate(baseRate, oldRate, d, adjustTime, weight);
            var base := baseRate as real;
            && RAbs(x - base) < base / 100.0
            && (weight > 0.99 ==> RAbs(x - base) < RAbs(oldRate as real - base) + base / 500.0 + 1.0)
            && (d == 0 ==> x == base)
            && (d > 0 ==> x >= base || x > oldRate as real)
            && (d < 0 ==> x <= base || x < oldRate as real)
  {
    var base, prev := baseRate as real, oldRate as real;
    var rate1, rate2 := FirstRate(baseRate, oldRate, d, adjustTime), SecondRate(baseRate, d, adjustTime, weight);
    FirstIsNear(baseRate, oldRate, d, adjustTime);
    SecondIsNear(baseRate, d, adjustTime, weight);
    hide FirstRate, SecondRate, Choose;
    ChoiceIsBounded(base, prev, rate1 - prev, rate2 - base, weight > 0.99);
  }

  lemma FirstIsNear(baseRate: nat, oldRate: nat, d: int, adjustTime: nat)
    requires 0 < adjustTime && 0 < baseRate
    ensures var p := FirstRate(baseRate, oldRate, d, adjustTime) - oldRate as real;
            RAbs(p) < baseRate as real / 500.0 && (d > 0 ==> p > 0.0) && (d < 0 ==> p < 0.0)
  {
    CorrectionIsLimited(d, adjustTime, 0.002);
    var c := Correction(d, adjustTime, 0.002);
    hide Correction, Share;
    ShareIsLimited(baseRate as real, c, 0.002, 500.0);
  }

  lemma SecondIsNear(baseRate: nat, d: int, adjustTime: nat, weight: real)
    requires 0 < adjustTime && 0 < baseRate && 0.0 <= weight <= 1.0
    ensures var p := SecondRate(baseRate, d, adjustTime, weight) - baseRate as real;
            && RAbs(p) < baseRate as real / 100.0 && (d == 0 ==> p == 0.0)
            && (d >= 0 ==> p >= 0.0) && (d <= 0 ==> p <= 0.0)
  {
    CorrectionIsLimited(d, adjustTime, 0.01);
    var c := Correction(d, adjustTime, 0.01);
    WeightedCorrection(weight, c, 0.01);
    hide Correction, Share;
    ShareIsLimited(baseRate as real, Share(weight, c), 0.01, 100.0);
  }

  /** The rate that the P-controller chooses makes up for the whole difference at 0.2% per
      cycle, starting from the old rate, or for the weighted one at 1% per cycle, starting
      from the base rate.  With a lowered weight it is always the latter. */
  lemma ControllerMakesUp(baseRate: nat, oldRate: nat, d: int, adjustTime: nat, weight: real)
    requires 0 < adjustTime
    ensures var x := ControllerRate(baseRate, oldRate, d, adjustTime, weight);
            || (weight > 0.99 && MakesUp(x, oldRate as real, 500 * Abs(d) + adjustTime, baseRate as real * d as real))
            || MakesUp(x, baseRate as real, 100 * Abs(d) + adjustTime, weight * baseRate as real * d as real)
  {
    FirstMakesUp(baseRate, oldRate, d, adjustTime);
    SecondMakesUp(baseRate, d, adjustTime, weight);
    hide FirstRate, SecondRate, MakesUp, Trunc, Abs;
  }

  lemma FirstMakesUp(baseRate: nat, oldRate: nat, d: int, adjustTime: nat)
    requires 0 < adjustTime
    ensures MakesUp(FirstRate(baseRate, oldRate, d, adjustTime), oldRate as real, 500 * Abs(d) + adjustTime,
                    baseRate as real * d as real)
  {
    RateMakesUp(baseRate, oldRate as real, d, adjustTime, 0.002, 500, 1.0);
    assert Share(1.0, Correction(d, adjustTime, 0.002)) == Correction(d, adjustTime, 0.002);
    hide Correction, MakesUp;
    assert 1.0 * baseRate as real * d as real == baseRate as real * d as real;
  }

  lemma SecondMakesUp(baseRate: nat, d: int, adjustTime: nat, weight: real)
    requires 0 < adjustTime
    ensures MakesUp(SecondRate(baseRate, d, adjustTime, weight), baseRate as real, 100 * Abs(d) + adjustTime,
                    weight * baseRate as real * d as real)
  {
    RateMakesUp(baseRate, baseRate as real, d, adjustTime, 0.01, 100, weight);
    OneMore(baseRate as real, Share(weight, Correction(d, adjustTime, 0.01)));
    hide Correction, MakesUp, Share;
  }

  lemma OneMore(base: real, c: real)
    ensures Share(base, 1.0 + c) == base + Share(base, c)
  {
  }

  lemma ChoiceIsBounded(base: real, prev: real, p1: real, p2: real, heavy: bool)
    requires RAbs(p1) < base / 500.0 && RAbs(p2) < base / 100.0
    ensures var x := Choose(base, prev + p1, base + p2, heavy);
            && RAbs(x - base) < base / 100.0
            && (heavy ==> RAbs(x - base) < RAbs(prev - base) + base / 500.0 + 1.0)
            && (p2 == 0.0 ==> x == base)
            && (p1 > 0.0 && p2 >= 0.0 ==> x >= base || x > prev)
            && (p1 < 0.0 && p2 <= 0.0 ==> x <= base || x < prev)
  {
    TruncOrder(prev + p1 - base, p2);
    hide Trunc;
  }

  lemma WeightedCorrection(w: real, c: real, limit: real)
    requires 0.0 <= w <= 1.0 && -limit < c < limit
    ensures -limit < Share(w, c) < limit
    ensures c >= 0.0 ==> Share(w, c) >= 0.0
    ensures c <= 0.0 ==> Share(w, c) <= 0.0
  {
    assert (1.0 - w) * c >= 0.0 || c <= 0.0;
    assert (1.0 - w) * c <= 0.0 || c >= 0.0;
    assert (1.0 - w) * c == c - w * c;
  }

  lemma TruncOrder(x: real, y: real)
    ensures Abs(Trunc(x)) < Abs(Trunc(y)) ==> RAbs(x) < RAbs(y)
    ensures Abs(Trunc(x)) >= Abs(Trunc(y)) ==> RAbs(y) < RAbs(x) + 1.0
  {
  }

  /** The rate that is set: within 1% of the base rate. */
  function LimitedRate(rate: real, baseRate: nat): (r: nat)
    ensures baseRate * 99 / 100 <= r <= baseRate * 101 / 100
  {
    if rate > (baseRate * 101 / 100) as real then baseRate * 101 / 100
    else if rate < (baseRate * 99 / 100) as real then baseRate * 99 / 100
    else rate.Floor
  }

  /** The rate is the greatest one within the limits that is not above what was asked for,
      and the lower limit if there is none. */
  lemma LimitedIsNearest(rate: real, baseRate: nat, other: nat)
    requires baseRate * 99 / 100 <= other <= baseRate * 101 / 100
    ensures LimitedRate(rate, baseRate) as real <= rate || LimitedRate(rate, baseRate) == baseRate * 99 / 100
    ensures other as real <= rate ==> other <= LimitedRate(rate, baseRate)
  {
  }

  /** The latency if the sink input ran at the optimum rate. */
  function AtOptimumRate(deviceLatency: int, bufferLatency: nat, rate: nat, optimum: real): int
    requires optimum > 0.0
  {
    Trunc(deviceLatency as real + (bufferLatency * rate) as real / optimum)
  }

  /** The buffer holds the same samples at either rate, up to a microsecond. */
  lemma SameSamples(deviceLatency: int, bufferLatency: nat, rate: nat, optimum: real)
    requires optimum > 0.0
    ensures RAbs((AtOptimumRate(deviceLatency, bufferLatency, rate, optimum) - deviceLatency) as real * optimum
                 - (bufferLatency * rate) as real) < optimum
  {
    var q := (bufferLatency * rate) as real / optimum;
    var x := AtOptimumRate(deviceLatency, bufferLatency, rate, optimum);
    assert q * optimum == (bufferLatency * rate) as real;
    TruncIsNear(deviceLatency as real + q);
    var e := (x - deviceLatency) as real - q;
    assert -1.0 < e < 1.0;
    assert (x - deviceLatency) as real == q + e;
    hide Trunc, AtOptimumRate;
    Stretched(q, e, optimum);
  }

  lemma Stretched(q: real, e: real, o: real)
    requires -1.0 < e < 1.0 && o > 0.0
    ensures RAbs((q + e) * o - q * o) < o
  {
    assert (q + e) * o - q * o == e * o;
    assert (1.0 - e) * o > 0.0 && (1.0 + e) * o > 0.0;
  }

  lemma TruncIsNear(x: real)
    ensures -1.0 < Trunc(x) as real - x < 1.0
  {
  }

  /** The latency gained in one period at the optimum rate while the sink input
      runs at another rate. */
  function Gain(optimum: real, newRate: nat, adjustTime: nat): real
    requires optimum > 0.0
  {
    (optimum - newRate as real) * adjustTime as real / optimum
  }

  /** The latency of the buffer when it is played at the new rate, after a period
      of drift. */
  function Replayed(optimum: real, rate: nat, newRate: nat, adjustTime: nat, bufferLatency: nat): real
    requires newRate > 0
  {
    (bufferLatency as real * rate as real + (optimum - newRate as real) * adjustTime as real) / newRate as real
  }

  /** The formulas of the prediction, as they stand in the source. */
  function Shift(optimum: real, newRate: nat, adjustTime: nat): real
    requires newRate > 0
  {
    (optimum - newRate as real) * adjustTime as real / newRate as real
  }

  function NextAtNewRate(current: int, correction: real, rate: nat, newRate: nat, bufferLatency: nat): real
    requires newRate > 0
  {
    current as real + correction + (rate as real / newRate as real - 1.0) * bufferLatency as real
  }

  function NextAtOptimum(filtered: real, correction: real, newRate: nat, optimum: real): real
    requires optimum > 0.0
  {
    filtered + correction * newRate as real / optimum
  }

  function NextSteady(filtered: real, next: int, optimum: real, adjustTime: nat): real
    requires optimum > 0.0
  {
    (filtered + next as real) / 2.0 + (1.0 - Trunc(optimum) as real / optimum) * adjustTime as real
  }

  lemma ShiftIsGain(optimum: real, rate: nat, newRate: nat, adjustTime: nat, bufferLatency: nat, current: int,
                    filtered: real)
    requires optimum > 0.0 && newRate > 0
    ensures NextAtNewRate(current, Shift(optimum, newRate, adjustTime), rate, newRate, bufferLatency)
            == (current - bufferLatency) as real + Replayed(optimum, rate, newRate, adjustTime, bufferLatency)
    ensures NextAtOptimum(filtered, Shift(optimum, newRate, adjustTime), newRate, optimum)
            == filtered + Gain(optimum, newRate, adjustTime)
  {
    GainAtRate(optimum, rate as real, newRate as real, adjustTime as real, bufferLatency as real);
    GainAtOptimum(optimum, newRate as real, adjustTime as real);
  }

  lemma SteadyIsGain(optimum: real, adjustTime: nat, filtered: real, next: int)
    requires optimum >= 1.0
    ensures Trunc(optimum) >= 0
    ensures NextSteady(filtered, next, optimum, adjustTime)
            == (filtered + next as real) / 2.0 + Gain(optimum, Trunc(optimum), adjustTime)
  {
    SteadyGain(optimum, Trunc(optimum) as real, adjustTime as real);
  }

  lemma GainAtOptimum(o: real, n: real, t: real)
    requires o > 0.0 && n > 0.0
    ensures (o - n) * t / n * n / o == (o - n) * t / o
  {
  }

  lemma GainAtRate(o: real, r: real, n: real, t: real, b: real)
    requires n > 0.0
    ensures (o - n) * t / n + (r / n - 1.0) * b == (b * r + (o - n) * t) / n - b
  {
    assert r / n * b == b * r / n;
  }

  lemma SteadyGain(o: real, n: real, t: real)
    requires o > 0.0
    ensures (1.0 - n / o) * t == (o - n) * t / o
  {
    assert (1.0 - n / o) * o == o - n;
  }

  /** If the source delivers at the optimum rate while the sink input plays at the new
      one, both predictions come true: those of the latency at the optimum rate and of the
      latency at the new rate. */
  lemma PredictionsComeTrue(optimum: real, newRate: nat, adjustTime: nat, rate: nat, bufferLatency: nat, later: real)
    requires optimum > 0.0 && newRate > 0
    requires later == bufferLatency as real * rate as real + (optimum - newRate as real) * adjustTime as real
    ensures bufferLatency as real * rate as real / optimum + Gain(optimum, newRate, adjustTime) == later / optimum
    ensures Replayed(optimum, rate, newRate, adjustTime, bufferLatency) == later / newRate as real
  {
    var b, g := bufferLatency as real * rate as real, (optimum - newRate as real) * adjustTime as real;
    QuotientIs(later, optimum, b / optimum + g / optimum);
  }

  /** What remains after a rate was set is the latency with the same samples in the buffer,
      played at that rate, less the target. */
  lemma RemainingIsLatency(deviceLatency: int, bufferLatency: nat, rate: nat, newRate: nat, finalLatency: nat)
    requires newRate > 0
    requires -0x8000_0000 <= deviceLatency - finalLatency
    requires deviceLatency - finalLatency + bufferLatency * rate / newRate < 0x8000_0000
    ensures var buffer := Remaining(deviceLatency, bufferLatency, rate, newRate, finalLatency)
                          - deviceLatency + finalLatency;
            buffer * newRate <= bufferLatency * rate < (buffer + 1) * newRate
  {
    var q := bufferLatency * rate / newRate;
    assert q * newRate <= bufferLatency * rate < (q + 1) * newRate;
    assert 0 <= q;
    Int32Wraps(deviceLatency + q - finalLatency);
    hide Int32;
  }

  /** The latency difference that remains at the new rate. */
  function Remaining(deviceLatency: int, bufferLatency: nat, rate: nat, newRate: nat, finalLatency: nat): int
    requires newRate > 0
  {
    Int32(deviceLatency + bufferLatency * rate / newRate - finalLatency)
  }

  /** The whole hours that a number of iterations takes. */
  function Hours(iterations: nat, adjustTime: nat): nat { iterations * adjustTime / 1000000 / 3600 }

  lemma HoursAreWhole(iterations: nat, adjustTime: nat)
    ensures var h := Hours(iterations, adjustTime);
            h * 3600 * 1000000 <= iterations * adjustTime < (h + 1) * 3600 * 1000000
  {
    var n := iterations * adjustTime;
  }

  predicate OppositeSigns(a: int, b: int) {
    a * b < 0
  }

  /** The target was crossed exactly if the difference was on one side and is on the other. */
  lemma CrossingIs(a: int, b: int)
    ensures OppositeSigns(a, b) <==> (a < 0 < b) || (b < 0 < a)
  {
  }

  // ------------------------------------------------------------- the controller

  /** What reaches the controller between two calls of adjust_rates(). */
  datatype Callback =
    | SinkOffset(offset: int)
    | SourceOffset(offset: int)
    | Range(minSourceLatency: nat, fixedAlsaSource: bool, minSinkLatency: nat)
    | Gap
    | SinkMove(minSink: nat, newOffset: int)
    | SourceMove(minSource: nat, fixedAlsa: bool, newOffset: int, minSink: nat)
  {
    predicate Quiet() { !Gap? && !SinkMove? && !SourceMove? }
  }

  predicate Quiet(cs: seq<Callback>) { forall i :: 0 <= i < |cs| ==> cs[i].Quiet() }

  /** struct userdata, as far as the main thread's controller goes. */
  class Controller {
    // configuration; the base rate is that of the source output
    const baseRate: nat
    const latency: nat
    const maxLatency: nat
    const adjustTime: nat
    const fastAdjustThreshold: nat
    const adjustThreshold: nat

    var devices: Devices
    var minimumLatency: nat
    var underrunLimit: nat
    var iterationCounter: nat
    var underrunCounter: nat

    var adjustTimeStamp: nat
    var realAdjustTime: nat
    var realAdjustTimeSum: nat
    var adjustCounter: nat

    var lastLatencyDifference: int
    var lastSourceOffset: int
    var lastSinkOffset: int
    var nextLatency: int
    var nextLatencyAtOptimum: int
    var driftFilter: real
    var driftCompensation: real
    var latencyVariance: real
    var kalmanVariance: real
    var latencyError: real
    var crossCounter: nat

    var sourceSinkChanged: bool
    var underrunOccurred: bool
    var sourceOffsetChanged: bool
    var sinkOffsetChanged: bool

    /** The rate of the sink input. */
    var rate: nat

    predicate Configured() {
      && baseRate >= 4000 && adjustTime > 0 && adjustThreshold > 0
      && (maxLatency == 0 || latency <= maxLatency)
    }

    /** What every call of AdjustRates() keeps. */
    predicate Valid()
      reads this
    {
      && Configured()
      && realAdjustTime > 0 && adjustCounter <= realAdjustTimeSum
      && rate > 0
      && RAbs(driftFilter) < DriftLimit(baseRate)
      && RAbs(driftCompensation) < DriftLimit(baseRate)
      && latencyVariance >= 0.0
      && (kalmanVariance > 0.0 || sourceSinkChanged)
      && minimumLatency == devices.MinimumLatency(underrunLimit)
      && (sourceOffsetChanged || lastSourceOffset == devices.sourceOffset)
      && (sinkOffsetChanged || lastSinkOffset == devices.sinkOffset)
    }

    /** Nothing has happened since the last call that set the rate. */
    predicate Settled()
      reads this
    {
      !sourceSinkChanged && !underrunOccurred && !sourceOffsetChanged && !sinkOffsetChanged
    }

    /** The optimum rate, always well above zero. */
    function OptimumRate(): (r: real)
      reads this
      requires Valid()
      ensures r > 3900.0
    {
      driftCompensation + baseRate as real
    }

    /** The devices changed, or the system was asleep, since the last call. */
    predicate Interrupted(now: nat)
      reads this
    {
      sourceSinkChanged || (now - adjustTimeStamp) as real >= adjustTime as real * 1.05
    }

    /** The optimum rate that a call at the given time works with. */
    function OptimumAt(now: nat): (r: real)
      reads this
      requires Valid()
      ensures r > 3900.0
    {
      if Interrupted(now) then baseRate as real else OptimumRate()
    }

    /** What the P-controller asks for, given the latency difference at the optimum
        rate. */
    function Controlled(d: int): real
      reads this
      requires Valid()
    {
      Asked(baseRate, rate, OptimumRate(), d, realAdjustTime, adjustThreshold, crossCounter)
    }

    /** pa__init() */
    constructor (baseRate: nat, latency: nat, maxLatency: nat, adjustTime: nat, fastAdjustThreshold: nat,
                 adjustThreshold: nat, devices: Devices, now: nat)
      requires baseRate >= 4000 && adjustTime > 0 && adjustThreshold > 0
      ensures Valid() && sourceSinkChanged && rate == baseRate
      ensures minimumLatency == devices.MinimumLatency(0)
    {
      this.baseRate, this.latency := baseRate, latency;
      this.maxLatency := if maxLatency > 0 && maxLatency < latency then latency else maxLatency;
      this.adjustTime, this.fastAdjustThreshold := adjustTime, fastAdjustThreshold;
      this.adjustThreshold := adjustThreshold;
      this.devices, minimumLatency, underrunLimit := devices, devices.MinimumLatency(0), 0;
      iterationCounter, underrunCounter, crossCounter := 0, 0, 0;
      adjustTimeStamp, realAdjustTime, realAdjustTimeSum, adjustCounter := now, adjustTime, 0, 0;
      lastLatencyDifference, lastSourceOffset, lastSinkOffset := 0, devices.sourceOffset, devices.sinkOffset;
      nextLatency, nextLatencyAtOptimum := 0, 0;
      driftFilter, driftCompensation, latencyVariance, kalmanVariance, latencyError := 0.0, 0.0, 0.0, 0.0, 0.0;
      sourceSinkChanged, underrunOccurred, sourceOffsetChanged, sinkOffsetChanged := true, false, false, false;
      rate := baseRate;
    }

    /** The start of adjust_rates(): escalate after more than two underruns and
        forgive one underrun per hour. */
    method TrackUnderruns()
      requires Valid()
      modifies this`iterationCounter, this`underrunCounter, this`underrunLimit, this`minimumLatency
      ensures Valid()
      ensures old(underrunCounter) > 2 ==>
                && minimumLatency == AfterEscalation(devices, latency, maxLatency, old(minimumLatency))
                && underrunLimit == ClipSub(Escalated(Max(latency, old(minimumLatency)), maxLatency), devices.Offset())
                && underrunCounter == 0
      ensures old(underrunCounter) <= 2 ==>
                && minimumLatency == old(minimumLatency) && underrunLimit == old(underrunLimit)
                && underrunCounter == ClipSub(old(underrunCounter),
                                              if Hours(old(iterationCounter), realAdjustTime)
                                                 < Hours(iterationCounter, realAdjustTime)
                                              then 1 else 0)
      ensures old(underrunCounter) > 2 ==>
                (Max(latency, minimumLatency) == Escalated(Max(latency, old(minimumLatency)), maxLatency)
                 <==> maxLatency == 0 || devices.Offset() < maxLatency)
      ensures iterationCounter == old(iterationCounter) + 1
    {
      EscalationIsExact(devices, latency, maxLatency, underrunLimit);
      var runHours := Hours(iterationCounter, realAdjustTime);
      iterationCounter := iterationCounter + 1;
      if underrunCounter > 2 {
        var target := Max(latency, minimumLatency) + STEP_USEC;
        if maxLatency == 0 || target < maxLatency {
          underrunLimit := ClipSub(target, devices.Offset());
        } else {
          underrunLimit := ClipSub(maxLatency, devices.Offset());
        }
        minimumLatency := devices.MinimumLatency(underrunLimit);
        underrunCounter := 0;
      }
      if Hours(iterationCounter, realAdjustTime) > runHours {
        underrunCounter := ClipSub(underrunCounter, 1);
      }
    }

    /** The average time between two calls, unless the devices changed or the system
        was asleep. */
    method MeasureAdjustTime(now: nat)
      requires Valid() && now > adjustTimeStamp
      modifies this`adjustCounter, this`realAdjustTimeSum, this`realAdjustTime, this`driftCompensation,
               this`driftFilter, this`sourceSinkChanged, this`adjustTimeStamp
      ensures Valid() && adjustTimeStamp == now
      ensures sourceSinkChanged == old(Interrupted(now)) && OptimumRate() == old(OptimumAt(now))
      ensures sourceSinkChanged ==>
                && driftFilter == 0.0 && driftCompensation == 0.0
                && realAdjustTime == old(realAdjustTime) && realAdjustTimeSum == old(realAdjustTimeSum)
                && adjustCounter == old(adjustCounter)
      ensures !sourceSinkChanged ==>
                && driftFilter == old(driftFilter) && driftCompensation == old(driftCompensation)
                && adjustCounter == old(adjustCounter) + 1
                && realAdjustTimeSum == old(realAdjustTimeSum) + (now - old(adjustTimeStamp))
                && realAdjustTime == realAdjustTimeSum / adjustCounter
    {
      var timePassed := now - adjustTimeStamp;
      if !sourceSinkChanged && timePassed as real < adjustTime as real * 1.05 {
        adjustCounter := adjustCounter + 1;
        realAdjustTimeSum := realAdjustTimeSum + timePassed;
        realAdjustTime := realAdjustTimeSum / adjustCounter;
        assert 1 * adjustCounter <= realAdjustTimeSum;
      } else {
        driftCompensation, driftFilter := 0.0, 0.0;
        sourceSinkChanged := true;
      }
      adjustTimeStamp := now;
    }

    /** The Kalman filter.  `predicted` is the prediction after the correction for
        changed offsets. */
    method FilterLatency(current: int, atOptimum: int) returns (filtered: real, ghost predicted: int)
      requires Valid()
      modifies this`kalmanVariance, this`nextLatency, this`nextLatencyAtOptimum, this`latencyError, this`latencyVariance
      ensures Valid() && kalmanVariance >= 200.0
      ensures sourceSinkChanged || underrunOccurred ==>
                && filtered == atOptimum as real && predicted == atOptimum && kalmanVariance == 10000000.0
                && latencyVariance == old(latencyVariance) && latencyError == old(latencyError)
                && nextLatency == current
      ensures !sourceSinkChanged && !underrunOccurred ==>
                && old(kalmanVariance) > 0.0
                && predicted == old(nextLatencyAtOptimum) + devices.Offset() - lastSourceOffset - lastSinkOffset
                && nextLatency == old(nextLatency) + devices.Offset() - lastSourceOffset - lastSinkOffset
                && latencyError == LowPass(old(latencyError), Abs(Int32(current - nextLatency)) as real)
                && latencyVariance == LowPass(old(latencyVariance), Square(Abs(Int32(atOptimum - predicted)) as real))
                && filtered == Filtered(atOptimum as real, predicted as real, old(kalmanVariance), latencyVariance)
                && Balanced(atOptimum as real, predicted as real, old(kalmanVariance), latencyVariance, filtered)
                && kalmanVariance == NextKalman(old(kalmanVariance), latencyVariance)
      ensures RMin(atOptimum as real, predicted as real) <= filtered <= RMax(atOptimum as real, predicted as real)
    {
      if sourceSinkChanged || underrunOccurred {
        kalmanVariance := 10000000.0;
        filtered, predicted := atOptimum as real, atOptimum;
        nextLatencyAtOptimum, nextLatency := atOptimum, current;
      } else {
        var shift := devices.sourceOffset - lastSourceOffset + (devices.sinkOffset - lastSinkOffset);
        nextLatencyAtOptimum := nextLatencyAtOptimum + shift;
        nextLatency := nextLatency + shift;
        predicted := nextLatencyAtOptimum;
        latencyError := LowPass(latencyError, Abs(Int32(current - nextLatency)) as real);
        var error := Abs(Int32(atOptimum - nextLatencyAtOptimum)) as real;
        latencyVariance := LowPass(latencyVariance, Square(error));
        FilteredIsBetween(atOptimum as real, nextLatencyAtOptimum as real, kalmanVariance, latencyVariance);
        KalmanStaysPositive(kalmanVariance, latencyVariance);
        FilterBalances(atOptimum as real, nextLatencyAtOptimum as real, kalmanVariance, latencyVariance,
                       Filtered(atOptimum as real, nextLatencyAtOptimum as real, kalmanVariance, latencyVariance));
        hide Balanced, LowPass, Square, Int32, DriftLimit;
        filtered := Filtered(atOptimum as real, nextLatencyAtOptimum as real, kalmanVariance, latencyVariance);
        kalmanVariance := NextKalman(kalmanVariance, latencyVariance);
      }
    }

    /** rate_controller() */
    method RateController(atOptimum: int, atBase: int) returns (newRate: nat)
      requires Valid()
      modifies this`driftFilter, this`driftCompensation
      ensures Valid()
      ensures baseRate * 99 / 100 <= newRate <= baseRate * 101 / 100
      ensures newRate == LimitedRate(old(Controlled(atOptimum)) + driftCompensation + 0.5, baseRate)
      ensures atOptimum == 0 ==> newRate == LimitedRate(OptimumRate() + 0.5, baseRate)
      ensures underrunOccurred || sourceSinkChanged || sourceOffsetChanged || sinkOffsetChanged ==>
                driftFilter == old(driftFilter) && driftCompensation == old(driftCompensation)
      ensures !underrunOccurred && !sourceSinkChanged && !sourceOffsetChanged && !sinkOffsetChanged ==>
                && driftFilter == LowPass(old(driftFilter),
                                          DriftRate(baseRate, rate, atBase - lastLatencyDifference, realAdjustTime))
                && driftCompensation == LowPass(old(driftCompensation), driftFilter)
    {
      hide ControllerRate, Weight, DriftRate, LowPass, LimitedRate;
      var optimum := Trunc(OptimumRate());
      var weight := Weight(baseRate, rate, optimum, atOptimum, realAdjustTime, adjustThreshold, crossCounter);
      var controlled := ControllerRate(baseRate, rate, atOptimum, realAdjustTime, weight);
      ControllerIsBounded(baseRate, rate, atOptimum, realAdjustTime, weight);
      if !underrunOccurred && !sourceSinkChanged && !sourceOffsetChanged && !sinkOffsetChanged {
        var drift := DriftRate(baseRate, rate, atBase - lastLatencyDifference, realAdjustTime);
        DriftIsLimited(baseRate, rate, atBase - lastLatencyDifference, realAdjustTime);
        LowPassKeepsLimit(driftFilter, drift, DriftLimit(baseRate));
        driftFilter := LowPass(driftFilter, drift);
        LowPassKeepsLimit(driftCompensation, driftFilter, DriftLimit(baseRate));
        driftCompensation := LowPass(driftCompensation, driftFilter);
      }
      newRate := LimitedRate(controlled + driftCompensation + 0.5, baseRate);
    }

    /** The end of adjust_rates(): what the next call will expect to see. */
    method Predict(newRate: nat, current: int, filtered: real, bufferLatency: nat)
      requires Valid() && newRate > 0
      modifies this`nextLatency, this`nextLatencyAtOptimum
      ensures Valid()
      ensures newRate != Trunc(OptimumRate()) || newRate != rate ==>
                && nextLatencyAtOptimum == Trunc(filtered + Gain(OptimumRate(), newRate, realAdjustTime))
                && nextLatency == Trunc((current - bufferLatency) as real
                                        + Replayed(OptimumRate(), rate, newRate, realAdjustTime, bufferLatency))
      ensures newRate == Trunc(OptimumRate()) && newRate == rate ==>
                && nextLatencyAtOptimum == nextLatency
                && nextLatency
                   == Trunc((filtered + old(nextLatency) as real) / 2.0 + Gain(OptimumRate(), newRate, realAdjustTime))
    {
      hide Trunc, Gain, Replayed, Shift, NextAtNewRate, NextAtOptimum, NextSteady;
      var optimum := OptimumRate();
      var correction := Shift(optimum, newRate, realAdjustTime);
      if newRate != Trunc(optimum) || newRate != rate {
        ShiftIsGain(optimum, rate, newRate, realAdjustTime, bufferLatency, current, filtered);
        nextLatency := Trunc(NextAtNewRate(current, correction, rate, newRate, bufferLatency));
        nextLatencyAtOptimum := Trunc(NextAtOptimum(filtered, correction, newRate, optimum));
      } else {
        SteadyIsGain(optimum, realAdjustTime, filtered, nextLatency);
        nextLatency := Trunc(NextSteady(filtered, nextLatency, optimum, realAdjustTime));
        nextLatencyAtOptimum := nextLatency;
      }
    }

    /** What adjust_rates() remembers for the next call. */
    method Remember(difference: int, remaining: int)
      requires Valid() && kalmanVariance > 0.0
      modifies this`crossCounter, this`lastLatencyDifference, this`sourceSinkChanged, this`underrunOccurred,
               this`lastSourceOffset, this`lastSinkOffset, this`sourceOffsetChanged, this`sinkOffsetChanged
      ensures Valid()
      ensures crossCounter == old(crossCounter) + if OppositeSigns(difference, old(lastLatencyDifference)) then 1 else 0
      ensures lastLatencyDifference == remaining
      ensures Settled()
      ensures lastSourceOffset == devices.sourceOffset && lastSinkOffset == devices.sinkOffset
    {
      if OppositeSigns(difference, lastLatencyDifference) {
        crossCounter := crossCounter + 1;
      }
      lastLatencyDifference := remaining;
      sourceSinkChanged, underrunOccurred := false, false;
      lastSourceOffset, lastSinkOffset := devices.sourceOffset, devices.sinkOffset;
      sourceOffsetChanged, sinkOffsetChanged := false, false;
    }

    /** The second half of adjust_rates(), after the latency has been filtered. */
    method Steer(filtered: real, difference: int, deviceLatency: int, bufferLatency: nat)
      requires Valid() && kalmanVariance >= 200.0
      modifies this`driftFilter, this`driftCompensation, this`crossCounter, this`lastLatencyDifference,
               this`sourceSinkChanged, this`underrunOccurred, this`lastSourceOffset, this`lastSinkOffset,
               this`sourceOffsetChanged, this`sinkOffsetChanged, this`nextLatency, this`nextLatencyAtOptimum, this`rate
      ensures Valid()
      ensures baseRate * 99 / 100 <= rate <= baseRate * 101 / 100 && Settled()
      ensures rate == LimitedRate(old(Controlled(Int32(Trunc(filtered - Max(latency, minimumLatency) as real))))
                                  + driftCompensation + 0.5, baseRate)
      ensures rate > 0
      ensures lastLatencyDifference
              == Remaining(deviceLatency, bufferLatency, old(rate), rate, Max(latency, minimumLatency))
    {
      hide Trunc, Int32, Controlled, LimitedRate, DriftRate, LowPass, Remaining, OppositeSigns, DriftLimit;
      var finalLatency := Max(latency, minimumLatency);
      var newRate := RateController(Int32(Trunc(filtered - finalLatency as real)), difference);
      Remember(difference, Remaining(deviceLatency, bufferLatency, rate, newRate, finalLatency));
      Predict(newRate, deviceLatency + bufferLatency, filtered, bufferLatency);
      rate := newRate;
    }

    /** The first half of adjust_rates(): the latency at the optimum rate, and its
        filtered value. */
    method Observe(now: nat, deviceLatency: int, bufferLatency: nat)
      returns (filtered: real, ghost measured: int, ghost predicted: int)
      requires Valid() && now > adjustTimeStamp
      modifies this`adjustCounter, this`realAdjustTimeSum, this`realAdjustTime, this`driftCompensation,
               this`driftFilter, this`sourceSinkChanged, this`adjustTimeStamp, this`kalmanVariance,
               this`nextLatency, this`nextLatencyAtOptimum, this`latencyError, this`latencyVariance
      ensures Valid() && adjustTimeStamp == now && kalmanVariance >= 200.0
      ensures sourceSinkChanged == old(Interrupted(now)) && OptimumRate() == old(OptimumAt(now))
      ensures measured == AtOptimumRate(deviceLatency, bufferLatency, rate, old(OptimumAt(now)))
      ensures predicted == if old(Interrupted(now)) || underrunOccurred then measured
                           else old(nextLatencyAtOptimum) - lastSourceOffset - lastSinkOffset + devices.Offset()
      ensures RMin(measured as real, predicted as real) <= filtered <= RMax(measured as real, predicted as real)
      ensures old(Interrupted(now)) || underrunOccurred ||
              Balanced(measured as real, predicted as real, old(kalmanVariance), latencyVariance, filtered)
    {
      hide AtOptimumRate, Balanced, DriftLimit, OptimumAt, Interrupted, RMin, RMax;
      MeasureAdjustTime(now);
      var atOptimum := AtOptimumRate(deviceLatency, bufferLatency, rate, OptimumRate());
      var f, p := FilterLatency(deviceLatency + bufferLatency, atOptimum);
      filtered, measured, predicted := f, atOptimum, p;
    }

    /** adjust_rates() after the underruns have been dealt with. */
    method Regulate(now: nat, deviceLatency: int, bufferLatency: nat)
      returns (fast: bool, ghost measured: int, ghost predicted: int, ghost filtered: real)
      requires Valid() && now > adjustTimeStamp
      modifies this`adjustCounter, this`realAdjustTimeSum, this`realAdjustTime, this`driftCompensation,
               this`driftFilter, this`sourceSinkChanged, this`adjustTimeStamp, this`kalmanVariance,
               this`nextLatency, this`nextLatencyAtOptimum, this`latencyError, this`latencyVariance,
               this`crossCounter, this`lastLatencyDifference, this`underrunOccurred, this`lastSourceOffset,
               this`lastSinkOffset,
               this`sourceOffsetChanged, this`sinkOffsetChanged, this`rate
      ensures Valid() && adjustTimeStamp == now && kalmanVariance >= 200.0
      ensures measured == AtOptimumRate(deviceLatency, bufferLatency, old(rate), old(OptimumAt(now)))
      ensures predicted == if old(Interrupted(now) || underrunOccurred) then measured
                           else old(nextLatencyAtOptimum - lastSourceOffset - lastSinkOffset) + devices.Offset()
      ensures RMin(measured as real, predicted as real) <= filtered <= RMax(measured as real, predicted as real)
      ensures old(Interrupted(now) || underrunOccurred) ||
              Balanced(measured as real, predicted as real, old(kalmanVariance), latencyVariance, filtered)
      ensures fast <==> fastAdjustThreshold > 0
                        && Abs(Int32(deviceLatency + bufferLatency - Max(latency, minimumLatency)))
                           > fastAdjustThreshold
      ensures fast ==> rate == old(rate) && sourceSinkChanged
      ensures !fast ==> baseRate * 99 / 100 <= rate <= baseRate * 101 / 100 && Settled()
      ensures !fast ==>
                rate == LimitedRate(Asked(baseRate, old(rate), old(OptimumAt(now)),
                                          Int32(Trunc(filtered - Max(latency, minimumLatency) as real)),
                                          realAdjustTime, adjustThreshold, old(crossCounter))
                                    + driftCompensation + 0.5, baseRate)
    {
      hide Int32, DriftLimit, LimitedRate, Asked, AtOptimumRate, Trunc, RMin, RMax, OptimumAt, Interrupted, Remaining,
           Abs, Max, Balanced;
      var difference := Int32(deviceLatency + bufferLatency - Max(latency, minimumLatency));
      var f, m, p := Observe(now, deviceLatency, bufferLatency);
      measured, predicted, filtered := m, p, f;
      fast := fastAdjustThreshold > 0 && Abs(difference) > fastAdjustThreshold;
      if fast {
        sourceSinkChanged := true;
        crossCounter := 0;
      } else {
        Steer(f, difference, deviceLatency, bufferLatency);
      }
    }

    /** adjust_rates(), given the clock, the latency of source and sink and that of
        the buffer.  `fast` tells that samples were skipped or inserted instead. */
    method AdjustRates(now: nat, deviceLatency: int, bufferLatency: nat)
      returns (fast: bool, ghost measured: int, ghost predicted: int, ghost filtered: real)
      requires Valid() && now > adjustTimeStamp
      modifies this
      ensures Valid() && adjustTimeStamp == now && kalmanVariance >= 200.0 && devices == old(devices)
      ensures measured == AtOptimumRate(deviceLatency, bufferLatency, old(rate), old(OptimumAt(now)))
      ensures predicted == if old(Interrupted(now) || underrunOccurred) then measured
                           else old(nextLatencyAtOptimum - lastSourceOffset - lastSinkOffset) + devices.Offset()
      ensures RMin(measured as real, predicted as real) <= filtered <= RMax(measured as real, predicted as real)
      ensures old(Interrupted(now) || underrunOccurred) ||
              Balanced(measured as real, predicted as real, old(kalmanVariance), latencyVariance, filtered)
      ensures fast <==> fastAdjustThreshold > 0
                        && Abs(Int32(deviceLatency + bufferLatency - Max(latency, minimumLatency)))
                           > fastAdjustThreshold
      ensures fast ==> rate == old(rate) && sourceSinkChanged
      ensures !fast ==> baseRate * 99 / 100 <= rate <= baseRate * 101 / 100 && Settled()
      ensures !fast ==>
                rate == LimitedRate(Asked(baseRate, old(rate), old(OptimumAt(now)),
                                          Int32(Trunc(filtered - Max(latency, minimumLatency) as real)),
                                          realAdjustTime, adjustThreshold, old(crossCounter))
                                    + driftCompensation + 0.5, baseRate)
      ensures minimumLatency == if old(underrunCounter) > 2
                                then AfterEscalation(devices, latency, maxLatency, old(minimumLatency))
                                else old(minimumLatency)
      ensures old(underrunCounter) > 2 ==>
                (Max(latency, minimumLatency) == Escalated(Max(latency, old(minimumLatency)), maxLatency)
                 <==> maxLatency == 0 || devices.Offset() < maxLatency)
    {
      hide AfterEscalation, Int32, DriftLimit, LimitedRate, Asked, AtOptimumRate, Trunc, RMin, RMax, Abs, Escalated,
           Hours, Balanced;
      TrackUnderruns();
      assert OptimumAt(now) == old(OptimumAt(now)) && Interrupted(now) == old(Interrupted(now));
      hide OptimumAt, Interrupted, Max;
      var quick, m, p, f := Regulate(now, deviceLatency, bufferLatency);
      fast, measured, predicted, filtered := quick, m, p, f;
    }

    // ------------------------------------------------ what happens between two calls

    /** sink_port_latency_offset_changed_cb(): until the next adjustment the offset of
        the last one is remembered, however often it changes. */
    method SinkOffsetChanged(offset: int)
      requires Valid()
      modifies this`devices, this`minimumLatency, this`lastSinkOffset, this`sinkOffsetChanged, this`crossCounter
      ensures Valid() && devices == old(devices).(sinkOffset := offset) && sinkOffsetChanged && crossCounter == 0
      ensures lastSinkOffset == if old(sinkOffsetChanged) then old(lastSinkOffset) else old(devices.sinkOffset)
    {
      if !sinkOffsetChanged {
        lastSinkOffset := devices.sinkOffset;
      }
      sinkOffsetChanged := true;
      devices := devices.(sinkOffset := offset);
      minimumLatency := devices.MinimumLatency(underrunLimit);
      crossCounter := 0;
    }

    /** source_port_latency_offset_changed_cb() */
    method SourceOffsetChanged(offset: int)
      requires Valid()
      modifies this`devices, this`minimumLatency, this`lastSourceOffset, this`sourceOffsetChanged, this`crossCounter
      ensures Valid() && devices == old(devices).(sourceOffset := offset) && sourceOffsetChanged && crossCounter == 0
      ensures lastSourceOffset == if old(sourceOffsetChanged) then old(lastSourceOffset) else old(devices.sourceOffset)
    {
      if !sourceOffsetChanged {
        lastSourceOffset := devices.sourceOffset;
      }
      sourceOffsetChanged := true;
      devices := devices.(sourceOffset := offset);
      minimumLatency := devices.MinimumLatency(underrunLimit);
      crossCounter := 0;
    }

    /** What both moving callbacks reset. */
    method Restart()
      requires Valid()
      modifies this`iterationCounter, this`underrunCounter, this`sourceSinkChanged, this`underrunOccurred,
               this`crossCounter,
               this`latencyError, this`rate
      ensures Valid() && sourceSinkChanged && !underrunOccurred && rate == baseRate
      ensures iterationCounter == 0 && underrunCounter == 0 && crossCounter == 0
    {
      iterationCounter, underrunCounter, crossCounter := 0, 0, 0;
      sourceSinkChanged, underrunOccurred := true, false;
      latencyError := 0.0;
      rate := baseRate;
    }

    /** sink_input_moving_cb(): the limit found by underruns is forgotten. */
    method SinkMoved(minSinkLatency: nat, offset: int)
      requires Valid()
      modifies this`devices, this`minimumLatency, this`underrunLimit, this`lastSinkOffset, this`sinkOffsetChanged,
               this`iterationCounter, this`underrunCounter, this`sourceSinkChanged, this`underrunOccurred,
               this`crossCounter,
               this`latencyError, this`rate
      ensures Valid() && sourceSinkChanged && !underrunOccurred && rate == baseRate
      ensures devices == old(devices).(minSinkLatency := minSinkLatency, sinkOffset := offset)
      ensures minimumLatency == devices.MinimumLatency(0) && lastSinkOffset == offset && !sinkOffsetChanged
    {
      underrunLimit, lastSinkOffset := 0, offset;
      devices := devices.(minSinkLatency := minSinkLatency, sinkOffset := offset);
      minimumLatency, sinkOffsetChanged := devices.MinimumLatency(0), false;
      Restart();
    }

    /** source_output_moving_cb(), which looks at the sink's latency range again. */
    method SourceMoved(minSourceLatency: nat, fixedAlsaSource: bool, offset: int, minSinkLatency: nat)
      requires Valid()
      modifies this`devices, this`minimumLatency, this`underrunLimit, this`lastSourceOffset, this`sourceOffsetChanged,
               this`iterationCounter, this`underrunCounter, this`sourceSinkChanged, this`underrunOccurred,
               this`crossCounter,
               this`latencyError, this`rate
      ensures Valid() && sourceSinkChanged && !underrunOccurred && rate == baseRate
      ensures devices == old(devices).(minSourceLatency := minSourceLatency, fixedAlsaSource := fixedAlsaSource,
                                       sourceOffset := offset, minSinkLatency := minSinkLatency)
      ensures minimumLatency == devices.MinimumLatency(0) && lastSourceOffset == offset && !sourceOffsetChanged
    {
      underrunLimit, lastSourceOffset := 0, offset;
      devices := devices.(minSourceLatency := minSourceLatency, fixedAlsaSource := fixedAlsaSource,
                          sourceOffset := offset, minSinkLatency := minSinkLatency);
      minimumLatency, sourceOffsetChanged := devices.MinimumLatency(0), false;
      Restart();
    }

    /** LOOPBACK_MESSAGE_SINK_LATENCY_RANGE_CHANGED and its counterpart for the source,
        when the latency has grown: a limit found by underruns stays in force. */
    method LatencyRangeChanged(minSourceLatency: nat, fixedAlsaSource: bool, minSinkLatency: nat)
      requires Valid()
      modifies this`devices, this`minimumLatency, this`iterationCounter, this`underrunCounter
      ensures Valid() && iterationCounter == 0 && underrunCounter == 0 && devices.Offset() == old(devices.Offset())
      ensures underrunLimit != 0 ==> minimumLatency == old(minimumLatency)
    {
      devices := devices.(minSourceLatency := minSourceLatency, fixedAlsaSource := fixedAlsaSource,
                          minSinkLatency := minSinkLatency);
      minimumLatency := devices.MinimumLatency(underrunLimit);
      iterationCounter, underrunCounter := 0, 0;
    }

    /** LOOPBACK_MESSAGE_UNDERRUN */
    method Underrun()
      requires Valid()
      modifies this`underrunCounter, this`underrunOccurred, this`crossCounter
      ensures Valid() && underrunCounter == old(underrunCounter) + 1 && underrunOccurred && crossCounter == 0
    {
      underrunCounter := underrunCounter + 1;
      underrunOccurred := true;
      crossCounter := 0;
    }

    /** The last offsets are still those from before, and nothing calls for a new start. */
    twostate predicate Undisturbed()
      reads this
    {
      && lastSinkOffset == old(devices.sinkOffset) && lastSourceOffset == old(devices.sourceOffset)
      && !sourceSinkChanged && !underrunOccurred
    }

    /** One callback; only moves and underruns call for a new start. */
    method Handle(c: Callback)
      requires Valid()
      modifies this`devices, this`minimumLatency, this`underrunLimit, this`lastSinkOffset, this`sinkOffsetChanged,
               this`lastSourceOffset, this`sourceOffsetChanged, this`iterationCounter, this`underrunCounter,
               this`sourceSinkChanged, this`underrunOccurred, this`crossCounter, this`latencyError, this`rate
      ensures Valid()
      ensures c.Quiet() ==>
                && sourceSinkChanged == old(sourceSinkChanged) && underrunOccurred == old(underrunOccurred)
                && lastSinkOffset == old(lastSinkOffset) && lastSourceOffset == old(lastSourceOffset)
      ensures sourceSinkChanged || underrunOccurred <==> old(sourceSinkChanged || underrunOccurred) || !c.Quiet()
    {
      hide DriftLimit, Devices.MinimumLatency;
      match c
      case SinkOffset(offset) => SinkOffsetChanged(offset);
      case SourceOffset(offset) => SourceOffsetChanged(offset);
      case Range(minSource, fixed, minSink) => LatencyRangeChanged(minSource, fixed, minSink);
      case Gap => Underrun();
      case SinkMove(minSink, offset) => SinkMoved(minSink, offset);
      case SourceMove(minSource, fixed, offset, minSink) => SourceMoved(minSource, fixed, offset, minSink);
    }

    /** Any callbacks after a settled call: the last offsets are kept unless a move or an
        underrun calls for a new start. */
    method HandleAll(cs: seq<Callback>)
      requires Valid() && Settled()
      modifies this`devices, this`minimumLatency, this`underrunLimit, this`lastSinkOffset, this`sinkOffsetChanged,
               this`lastSourceOffset, this`sourceOffsetChanged, this`iterationCounter, this`underrunCounter,
               this`sourceSinkChanged, this`underrunOccurred, this`crossCounter, this`latencyError, this`rate
      ensures Valid()
      ensures if Quiet(cs) then Undisturbed() else sourceSinkChanged || underrunOccurred
    {
      hide DriftLimit, Devices.MinimumLatency;
      for i := 0 to |cs|
        invariant Valid()
        invariant if Quiet(cs[..i]) then Undisturbed() else sourceSinkChanged || underrunOccurred
      {
        assert Quiet(cs[..i + 1]) <==> Quiet(cs[..i]) && cs[i].Quiet();
        Handle(cs[i]);
      }
      assert cs[..|cs|] == cs;
    }

    /** Any callbacks and then adjust_rates().  Without a move, an underrun or a pause the
        prediction made by the last call is shifted by exactly what the offsets have
        changed since, however often they did; otherwise there is no prediction. */
    method Period(cs: seq<Callback>, now: nat, deviceLatency: int, bufferLatency: nat)
      returns (fast: bool, ghost measured: int, ghost predicted: int, ghost filtered: real)
      requires Valid() && Settled() && now > adjustTimeStamp
      modifies this
      ensures Valid() && (!fast ==> Settled())
      ensures predicted == if Quiet(cs) && (now - old(adjustTimeStamp)) as real < adjustTime as real * 1.05
                           then old(nextLatencyAtOptimum) + devices.Offset() - old(devices.Offset())
                           else measured
      ensures RMin(measured as real, predicted as real) <= filtered <= RMax(measured as real, predicted as real)
    {
      hide DriftLimit, RMin, RMax, Devices.MinimumLatency, Quiet, Callback.Quiet, AfterEscalation, Escalated, Asked,
           LimitedRate, AtOptimumRate, OptimumAt, Int32, Trunc, Balanced;
      HandleAll(cs);
      fast, measured, predicted, filtered := AdjustRates(now, deviceLatency, bufferLatency);
    }
  }
}
