/** What the weight of the P-controller of module-loopback.c is for. */
module LoopbackWeight {
  import opened RateMath
  import opened LoopbackLatency

  /** The least weight, times base rate and threshold, if it does not exceed 1. */
  lemma LeastWeightIs(baseRate: nat, adjustTime: nat, threshold: nat)
    requires baseRate > 0 && threshold > 0 && 100 * threshold + adjustTime <= 2 * baseRate * threshold
    ensures LeastWeight(baseRate, adjustTime, threshold) * (baseRate as real * threshold as real)
            == 50.0 * threshold as real + 0.5 * adjustTime as real
  {
    var b, t, h := baseRate as real, adjustTime as real, threshold as real;
    assert 100.0 * h + t <= 2.0 * (b * h) by {
      assert (2 * baseRate * threshold) as real == 2.0 * (b * h);
      assert (100 * threshold + adjustTime) as real == 100.0 * h + t;
    }
    LeastFits(b, t, h, b * h);
  }

  lemma LeastFits(b: real, t: real, h: real, y: real)
    requires b > 0.0 && h > 0.0 && t >= 0.0 && y == b * h && 100.0 * h + t <= 2.0 * y
    ensures var least := 0.5 / b * (100.0 + t / h);
            0.0 <= least <= 1.0 && least * y == 50.0 * h + 0.5 * t
  {
    var q, r := 0.5 / b, t / h;
    assert q * b == 0.5 && r * h == t;
    Factor(q, b);
    Factor(r, h);
    var least := q * (100.0 + r);
    Product(q, 100.0 + r);
    Regrouped(q, 100.0 + r, b, h);
    var s := (100.0 + r) * h;
    assert s == 100.0 * h + t;
    assert least * y == 0.5 * s;
    assert y > 0.0;
    AtMostOne(least, y, 0.5 * s);
  }

  lemma Regrouped(q: real, s: real, b: real, h: real)
    ensures q * s * (b * h) == (q * b) * (s * h)
  {
  }

  lemma AtMostOne(x: real, y: real, z: real)
    requires y > 0.0 && x * y == z <= y
    ensures x <= 1.0
  {
    assert (1.0 - x) * y >= 0.0;
    Factor(1.0 - x, y);
  }

  /** A lowered weight is at least the least one, and that one for small differences. */
  lemma LoweredWeight(baseRate: nat, oldRate: nat, optimum: nat, d: int, adjustTime: nat, threshold: nat,
                      crossings: nat)
    requires baseRate > 0 && optimum > 0 && threshold > 0 && IsLowered(oldRate, optimum, crossings)
    ensures var w, least := Weight(baseRate, oldRate, optimum, d, adjustTime, threshold, crossings),
                            LeastWeight(baseRate, adjustTime, threshold);
            w >= least && (Abs(d) <= threshold ==> w == least)
  {
    var least, x, h := LeastWeight(baseRate, adjustTime, threshold), Abs(d) as real, threshold as real;
    hide IsLowered, LeastWeight;
    Ratio(x, h, least);
  }

  /** The weight is full until the target was crossed twice, and whenever the rate is 2 per
      mille of the optimum or more away from it. */
  lemma FullWeight(baseRate: nat, oldRate: nat, optimum: nat, d: int, adjustTime: nat, threshold: nat,
                   crossings: nat)
    requires baseRate > 0 && optimum > 0 && threshold > 0
    requires crossings < 2 || 500 * Abs(oldRate - optimum) >= optimum
    ensures Weight(baseRate, oldRate, optimum, d, adjustTime, threshold, crossings) == 1.0
  {
    if crossings >= 2 {
      FarAway(Abs(oldRate - optimum) as real, optimum as real);
    }
    hide LeastWeight;
  }

  lemma FarAway(x: real, o: real)
    requires o > 0.0 && 500.0 * x >= o
    ensures x / o >= 0.002
  {
    var q := x / o;
    assert q * o == x;
    assert (q - 0.002) * o >= 0.0;
    Factor(q - 0.002, o);
  }

  lemma Ratio(x: real, h: real, w: real)
    requires x >= 0.0 && h > 0.0 && w >= 0.0
    ensures x <= h ==> x / h * w <= w
  {
    var q := x / h;
    assert q * h == x;
    if x <= h {
      AtMostOne(q, h, x);
      Product(1.0 - q, w);
      assert (1.0 - q) * w == w - q * w;
    }
  }

  lemma Heavier(w: real, v: real, n: real)
    requires w >= v && n > 0.0
    ensures w * n >= v * n
  {
    Product(w - v, n);
    assert (w - v) * n == w * n - v * n;
  }

  /** The purpose of the weight: once it is lowered, the controller corrects by half a Hz
      or more exactly if the latency difference has reached the threshold.  The condition
      says that the least weight need not be limited. */
  lemma ThresholdIsHalfHertz(baseRate: nat, oldRate: nat, optimum: nat, d: int, adjustTime: nat, threshold: nat,
                             crossings: nat)
    requires baseRate > 0 && optimum > 0 && threshold > 0 && adjustTime > 0
    requires IsLowered(oldRate, optimum, crossings) && 100 * threshold + adjustTime <= 2 * baseRate * threshold
    ensures var w := Weight(baseRate, oldRate, optimum, d, adjustTime, threshold, crossings);
            var correction := RAbs(SecondRate(baseRate, d, adjustTime, w) - baseRate as real);
            && (correction >= 0.5 <==> Abs(d) >= threshold)
            && (Abs(d) == threshold ==> correction == 0.5)
  {
    var w := Weight(baseRate, oldRate, optimum, d, adjustTime, threshold, crossings);
    WeightSuffices(baseRate, oldRate, optimum, d, adjustTime, threshold, crossings);
    CorrectionSize(baseRate, d, adjustTime, w);
    hide Weight, SecondRate, IsLowered, Suffices, IsSized;
    HalfHertz(RAbs(SecondRate(baseRate, d, adjustTime, w) - baseRate as real), w, baseRate as real, Abs(d) as real,
              threshold as real, adjustTime as real);
  }

  /** The weight, where `x` is the latency difference, `h` the threshold and `t` the time. */
  ghost predicate Suffices(w: real, b: real, x: real, h: real, t: real) {
    w * (b * h) >= 50.0 * h + 0.5 * t && (x <= h ==> w * (b * h) == 50.0 * h + 0.5 * t)
  }

  lemma WeightSuffices(baseRate: nat, oldRate: nat, optimum: nat, d: int, adjustTime: nat, threshold: nat,
                       crossings: nat)
    requires baseRate > 0 && optimum > 0 && threshold > 0
    requires IsLowered(oldRate, optimum, crossings) && 100 * threshold + adjustTime <= 2 * baseRate * threshold
    ensures Suffices(Weight(baseRate, oldRate, optimum, d, adjustTime, threshold, crossings), baseRate as real,
                     Abs(d) as real, threshold as real, adjustTime as real)
  {
    LoweredWeight(baseRate, oldRate, optimum, d, adjustTime, threshold, crossings);
    LeastWeightIs(baseRate, adjustTime, threshold);
    var w := Weight(baseRate, oldRate, optimum, d, adjustTime, threshold, crossings);
    var least := LeastWeight(baseRate, adjustTime, threshold);
    hide Weight, LeastWeight, IsLowered;
    var n := baseRate as real * threshold as real;
    assert n > 0.0;
    Heavier(w, least, n);
  }

  /** The size of the correction. */
  ghost predicate IsSized(c: real, w: real, b: real, x: real, t: real) {
    c * (100.0 * x + t) == w * b * x
  }

  lemma CorrectionSize(baseRate: nat, d: int, adjustTime: nat, w: real)
    requires adjustTime > 0 && w >= 0.0
    ensures IsSized(RAbs(SecondRate(baseRate, d, adjustTime, w) - baseRate as real), w, baseRate as real,
                    Abs(d) as real, adjustTime as real)
  {
    SecondMakesUp(baseRate, d, adjustTime, w);
    var c := SecondRate(baseRate, d, adjustTime, w) - baseRate as real;
    assert (100 * Abs(d) + adjustTime) as real == 100.0 * Abs(d) as real + adjustTime as real;
    hide SecondRate;
    Product(w, baseRate as real);
    Absolute(c, 100.0 * Abs(d) as real + adjustTime as real, w * baseRate as real, d);
  }

  lemma Absolute(c: real, n: real, k: real, d: int)
    requires n > 0.0 && k >= 0.0 && c * n == k * d as real
    ensures RAbs(c) * n == k * Abs(d) as real
  {
    if d >= 0 {
      Product(k, d as real);
      Factor(c, n);
    } else {
      Product(k, -(d as real));
      assert (-c) * n == k * -(d as real);
      Factor(-c, n);
    }
  }

  lemma HalfHertz(c: real, w: real, b: real, x: real, h: real, t: real)
    requires x >= 0.0 && h > 0.0 && t > 0.0 && IsSized(c, w, b, x, t) && Suffices(w, b, x, h, t)
    ensures (c >= 0.5 <==> x >= h) && (x == h ==> c == 0.5)
  {
    var n, k, m := 100.0 * x + t, w * (b * h), 50.0 * h + 0.5 * t;
    assert (c * n) * h == k * x;
    Excess(c, n, h, x, t, k, m);
    var e := c - 0.5;
    assert n * h > 0.0;
    if x >= h {
      Product(k - m, x);
      Product(t, x - h);
      Factor(e, n * h);
    } else {
      Below(t, x - h);
      Below(e, n * h);
    }
    Differ(c, 0.5, n * h);
  }

  lemma Excess(c: real, n: real, h: real, x: real, t: real, k: real, m: real)
    requires n == 100.0 * x + t && m == 50.0 * h + 0.5 * t && (c * n) * h == k * x
    ensures (c - 0.5) * (n * h) == (k - m) * x + 0.5 * (t * (x - h))
  {
    assert (c - 0.5) * (n * h) == (c * n) * h - 0.5 * (n * h);
    assert 0.5 * (n * h) == 50.0 * (x * h) + 0.5 * (t * h);
    assert m * x == 50.0 * (x * h) + 0.5 * (t * x);
  }

  /** The signs of a product with a positive factor. */
  lemma Below(a: real, y: real)
    ensures y > 0.0 ==> (a < 0.0 <==> a * y < 0.0)
    ensures a > 0.0 && y < 0.0 ==> a * y < 0.0
  {
    if a >= 0.0 && y > 0.0 {
      Product(a, y);
    }
  }
}
