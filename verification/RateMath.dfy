/** The proportional correction shared by the two rate controllers
    (module-combine-sink.c and module-loopback.c), and the arithmetic around it. */
module RateMath {

  /** The conversion of a 64-bit difference to int32_t. */
  function Int32(x: int): (r: int)
    ensures -0x8000_0000 <= r < 0x8000_0000
  {
    (x + 0x8000_0000) % 0x1_0000_0000 - 0x8000_0000
  }

  /** The conversion keeps what fits into 32 bits, and everything modulo 2^32. */
  lemma Int32Wraps(x: int)
    ensures -0x8000_0000 <= x < 0x8000_0000 ==> Int32(x) == x
    ensures exists k :: x == Int32(x) + k * 0x1_0000_0000
  {
    var k := (x + 0x8000_0000) / 0x1_0000_0000;
    assert x == Int32(x) + k * 0x1_0000_0000;
  }

  function RAbs(x: real): real {
    if x < 0.0 then -x else x
  }

  function Abs(x: int): nat {
    if x < 0 then -x else x
  }

  /** The correction per cycle, as a fraction of the base rate, for a latency
      difference `d`, when a cycle may correct at most the fraction `limit`. */
  function Correction(d: int, adjustTime: nat, limit: real): real
    requires 0 < adjustTime && 0.0 < limit
  {
    var minCycles := Abs(d) as real / adjustTime as real / limit + 1.0;
    assert Abs(d) as real / adjustTime as real / limit >= 0.0;
    d as real / minCycles / adjustTime as real
  }

  /** The given fraction of the base rate. */
  function Share(base: real, c: real): real {
    base * c
  }

  lemma Product(a: real, w: real)
    requires a >= 0.0 && w >= 0.0
    ensures a * w >= 0.0
  {
  }

  lemma Factor(a: real, w: real)
    requires w > 0.0 && a * w >= 0.0
    ensures a >= 0.0
  {
  }

  /** A cycle never corrects more than `limit`, and always in the direction of
      the difference. */
  lemma CorrectionIsLimited(d: int, adjustTime: nat, limit: real)
    requires 0 < adjustTime && 0.0 < limit
    ensures -limit < Correction(d, adjustTime, limit) < limit
    ensures d > 0 ==> Correction(d, adjustTime, limit) > 0.0
    ensures d < 0 ==> Correction(d, adjustTime, limit) < 0.0
    ensures d == 0 ==> Correction(d, adjustTime, limit) == 0.0
  {
    var a := adjustTime as real;
    var x := Abs(d) as real / a;
    var mc := x / limit + 1.0;
    var q := Correction(d, adjustTime, limit);
    assert x >= 0.0 && x / limit >= 0.0;
    assert mc * limit == x + limit;
    var y := d as real / a;
    assert y == x || y == -x;
    assert d as real / mc / a == y / mc by {
      assert d as real == y * a;
      assert d as real / mc == y / mc * a;
    }
    assert q * mc == y;
    assert q >= limit ==> q * mc >= limit * mc;
    assert q <= -limit ==> q * mc <= -limit * mc;
    assert d > 0 ==> y > 0.0;
    assert d < 0 ==> y < 0.0;
  }

  /** Applied for as many cycles as the limit asks for and one more, the correction
      makes up for exactly the difference. */
  lemma CorrectionMakesUp(d: int, adjustTime: nat, limit: real)
    requires 0 < adjustTime && 0.0 < limit
    ensures Correction(d, adjustTime, limit) * (Abs(d) as real / limit + adjustTime as real) == d as real
  {
    var a := adjustTime as real;
    var x := Abs(d) as real;
    var mc := x / a / limit + 1.0;
    assert x / a / limit >= 0.0;
    var q := d as real / mc;
    Swapped(x, a, limit);
    assert mc * a == x / limit + a;
    assert Correction(d, adjustTime, limit) == q / a;
    assert q / a * (mc * a) == q * mc by { Cancelled(q, a, mc); }
    assert q * mc == d as real;
  }

  /** Kept for the given time, the rate makes up for `whole` against another rate. */
  ghost predicate MakesUp(rate: real, other: real, time: nat, whole: real) {
    (rate - other) * time as real == whole
  }

  /** A rate that is corrected by at most 1/parts per cycle makes up for the difference. */
  lemma RateMakesUp(base: nat, prev: real, d: int, adjustTime: nat, limit: real, parts: nat, weight: real)
    requires 0 < adjustTime && 0.0 < limit && limit * parts as real == 1.0
    ensures MakesUp(prev + Share(base as real, Share(weight, Correction(d, adjustTime, limit))), prev,
                    parts * Abs(d) + adjustTime, weight * base as real * d as real)
  {
    var c, x, n := Correction(d, adjustTime, limit), Abs(d) as real, (parts * Abs(d) + adjustTime) as real;
    CorrectionMakesUp(d, adjustTime, limit);
    hide Correction;
    Reciprocal(x, limit, parts as real);
    assert n == x / limit + adjustTime as real;
    Scaled(base as real, weight, c, n, d as real);
  }

  lemma Reciprocal(x: real, limit: real, parts: real)
    requires limit > 0.0 && limit * parts == 1.0
    ensures x / limit == parts * x
  {
    assert x == x * (limit * parts);
    assert x * parts * limit == x;
  }

  lemma Scaled(b: real, w: real, c: real, n: real, d: real)
    requires c * n == d
    ensures b * (w * c) * n == w * b * d
  {
    assert b * (w * c) * n == w * b * (c * n);
  }

  lemma Swapped(x: real, a: real, l: real)
    requires a > 0.0 && l > 0.0
    ensures x / a / l * a == x / l
  {
    assert x / a / l * l == x / a;
    assert (x / a / l * a) * l == x;
  }

  lemma Cancelled(q: real, a: real, m: real)
    requires a > 0.0
    ensures q / a * (m * a) == q * m
  {
    assert q / a * a == q;
    assert q / a * (m * a) == (q / a * a) * m;
  }

  lemma ShareIsLimited(base: real, c: real, limit: real, parts: real)
    requires base > 0.0 && -limit < c < limit && parts > 0.0 && limit * parts == 1.0
    ensures RAbs(Share(base, c)) < base / parts
    ensures Share(base, 1.0 + c) == base + Share(base, c)
    ensures c > 0.0 ==> Share(base, c) > 0.0
    ensures c < 0.0 ==> Share(base, c) < 0.0
    ensures c == 0.0 ==> Share(base, c) == 0.0
  {
    assert base / parts == base * limit by {
      assert base * limit * parts == base * (limit * parts);
    }
    assert base * (limit - c) > 0.0 && base * (limit + c) > 0.0;
  }
}
