/** The curve through given points that module-equalizer-sink.c makes a filter of. */
module EqualizerCurve {
  import opened RateMath

  ghost predicate Increasing(xs: seq<nat>) {
    forall i, j :: 0 <= i < j < |xs| ==> xs[i] < xs[j]
  }

  /** Points from the first to the last of some samples. */
  ghost predicate Spans(xs: seq<nat>, ys: seq<real>, length: nat) {
    |xs| == |ys| >= 2 && Increasing(xs) && xs[0] == 0 && xs[|xs| - 1] == length - 1
  }

  /** The position lies in the segment between points k and k + 1. */
  ghost predicate InSegment(xs: seq<nat>, k: nat, x: nat) {
    k + 1 < |xs| && xs[k] <= x <= xs[k + 1]
  }

  /** The height of the segment after point k. */
  ghost function Height(xs: seq<nat>, ys: seq<real>, k: nat, x: nat): real
    requires |xs| == |ys| && Increasing(xs) && InSegment(xs, k, x)
  {
    ys[k] + Share(ys[k + 1] - ys[k], Fraction(xs, k, x))
  }

  /** How far the position has come in the segment. */
  ghost function Fraction(xs: seq<nat>, k: nat, x: nat): real
    requires Increasing(xs) && InSegment(xs, k, x)
  {
    assert xs[k] < xs[k + 1];
    (x as real - xs[k] as real) / (xs[k + 1] as real - xs[k] as real)
  }

  /** The samples follow the points along straight lines. */
  ghost predicate Follows(samples: seq<real>, xs: seq<nat>, ys: seq<real>) {
    && |xs| == |ys| && Increasing(xs)
    && forall k: nat, x: nat | x < |samples| && InSegment(xs, k, x) :: samples[x] == Height(xs, ys, k, x)
  }

  lemma FractionBounds(xs: seq<nat>, k: nat, x: nat)
    requires Increasing(xs) && InSegment(xs, k, x)
    ensures 0.0 <= Fraction(xs, k, x) <= 1.0
    ensures x == xs[k] ==> Fraction(xs, k, x) == 0.0
    ensures x == xs[k + 1] ==> Fraction(xs, k, x) == 1.0
  {
    assert xs[k] < xs[k + 1];
    Quotient(x as real - xs[k] as real, xs[k + 1] as real - xs[k] as real);
  }

  lemma Quotient(a: real, b: real)
    requires 0.0 <= a <= b && b > 0.0
    ensures 0.0 <= a / b <= 1.0 && (a == 0.0 ==> a / b == 0.0) && (a == b ==> a / b == 1.0)
  {
    var q := a / b;
    assert q * b == a;
    assert (1.0 - q) * b == b - a;
    Factor(q, b);
    Factor(1.0 - q, b);
  }

  lemma ShareBounds(d: real, c: real)
    requires 0.0 <= c <= 1.0
    ensures if d >= 0.0 then 0.0 <= Share(d, c) <= d else d <= Share(d, c) <= 0.0
    ensures (c == 0.0 ==> Share(d, c) == 0.0) && (c == 1.0 ==> Share(d, c) == d)
  {
    var e := 1.0 - c;
    assert d == d * c + d * e;
    if d >= 0.0 {
      Product(d, c);
      Product(d, e);
    } else {
      Product(-d, c);
      Product(-d, e);
      assert d * c == -((-d) * c) && d * e == -((-d) * e);
    }
  }

  /** The weighted mean, written in two ways. */
  lemma Blend(a: real, b: real, c: real)
    ensures (1.0 - c) * a + c * b == a + Share(b - a, c)
  {
  }

  lemma HeightBounds(xs: seq<nat>, ys: seq<real>, k: nat, x: nat)
    requires |xs| == |ys| && Increasing(xs) && InSegment(xs, k, x)
    ensures x == xs[k] ==> Height(xs, ys, k, x) == ys[k]
    ensures x == xs[k + 1] ==> Height(xs, ys, k, x) == ys[k + 1]
    ensures ys[k] <= Height(xs, ys, k, x) <= ys[k + 1] || ys[k + 1] <= Height(xs, ys, k, x) <= ys[k]
  {
    FractionBounds(xs, k, x);
    ShareBounds(ys[k + 1] - ys[k], Fraction(xs, k, x));
    hide Fraction, Share;
  }

  /** Every position has a segment. */
  lemma SegmentOf(xs: seq<nat>, ys: seq<real>, length: nat, x: nat) returns (k: nat)
    requires Spans(xs, ys, length) && x < length
    ensures InSegment(xs, k, x)
  {
    k := 0;
    while x > xs[k + 1]
      invariant k + 1 < |xs| && xs[k] <= x
      decreases |xs| - k
    {
      k := k + 1;
    }
  }

  /** The value lies between those of the two points next to the position. */
  ghost predicate Between(v: real, xs: seq<nat>, ys: seq<real>, x: nat) {
    |xs| == |ys| && exists k: nat :: InSegment(xs, k, x) && (ys[k] <= v <= ys[k + 1] || ys[k + 1] <= v <= ys[k])
  }

  /** The curve goes through all points, and elsewhere lies between the two points
      next to it. */
  lemma CurveFits(samples: seq<real>, xs: seq<nat>, ys: seq<real>)
    requires Spans(xs, ys, |samples|) && Follows(samples, xs, ys)
    ensures forall k :: 0 <= k < |xs| ==> xs[k] < |samples| && samples[xs[k]] == ys[k]
    ensures forall x: nat :: x < |samples| ==> Between(samples[x], xs, ys, x)
  {
    hide Height;
    forall k | 0 <= k < |xs|
      ensures xs[k] < |samples| && samples[xs[k]] == ys[k]
    {
      var s := if k + 1 < |xs| then k else k - 1;
      assert InSegment(xs, s, xs[k]);
      HeightBounds(xs, ys, s, xs[k]);
    }
    forall x: nat | x < |samples|
      ensures Between(samples[x], xs, ys, x)
    {
      var k := SegmentOf(xs, ys, |samples|, x);
      HeightBounds(xs, ys, k, x);
    }
  }

  /** Along a segment the curve rises in proportion to the way along it. */
  lemma SlopeIs(xs: seq<nat>, ys: seq<real>, k: nat, x: nat)
    requires |xs| == |ys| && Increasing(xs) && InSegment(xs, k, x)
    ensures (Height(xs, ys, k, x) - ys[k]) * (xs[k + 1] - xs[k]) as real == (ys[k + 1] - ys[k]) * (x - xs[k]) as real
  {
    assert xs[k] < xs[k + 1];
    Proportion(ys[k + 1] - ys[k], (x - xs[k]) as real, (xs[k + 1] - xs[k]) as real);
  }

  lemma Proportion(d: real, a: real, b: real)
    requires b > 0.0
    ensures Share(d, a / b) * b == d * a
  {
    assert a / b * b == a;
    assert d * (a / b) * b == d * (a / b * b);
  }

  /** Equal steps within a segment change the samples equally. */
  lemma CurveIsStraight(samples: seq<real>, xs: seq<nat>, ys: seq<real>, k: nat, x: nat, y: nat, step: nat)
    requires Follows(samples, xs, ys) && k + 1 < |xs| && xs[k + 1] < |samples|
    requires xs[k] <= x && x + step <= xs[k + 1] && xs[k] <= y && y + step <= xs[k + 1]
    ensures samples[x + step] - samples[x] == samples[y + step] - samples[y]
  {
    hide Height;
    assert xs[k] < xs[k + 1];
    var n, m := (xs[k + 1] - xs[k]) as real, ys[k + 1] - ys[k];
    assert InSegment(xs, k, x) && InSegment(xs, k, x + step) && InSegment(xs, k, y) && InSegment(xs, k, y + step);
    OnLine(samples[x], xs, ys, k, x);
    OnLine(samples[x + step], xs, ys, k, x + step);
    OnLine(samples[y], xs, ys, k, y);
    OnLine(samples[y + step], xs, ys, k, y + step);
    hide Follows, Rises, Increasing, InSegment;
    EqualRise(samples[x] - ys[k], samples[x + step] - ys[k], samples[y] - ys[k], samples[y + step] - ys[k], n, m,
              (x - xs[k]) as real, (y - xs[k]) as real, step as real);
  }

  /** A height above a point, `x` along a segment of length `n` and height `m`. */
  ghost predicate Rises(a: real, n: real, m: real, x: real) {
    a * n == m * x
  }

  lemma OnLine(v: real, xs: seq<nat>, ys: seq<real>, k: nat, x: nat)
    requires |xs| == |ys| && Increasing(xs) && InSegment(xs, k, x) && v == Height(xs, ys, k, x)
    ensures Rises(v - ys[k], (xs[k + 1] - xs[k]) as real, ys[k + 1] - ys[k], (x - xs[k]) as real)
  {
    SlopeIs(xs, ys, k, x);
    hide Height;
  }

  lemma EqualRise(a: real, b: real, c: real, d: real, n: real, m: real, x: real, y: real, step: real)
    requires n > 0.0 && Rises(a, n, m, x) && Rises(b, n, m, x + step) && Rises(c, n, m, y) && Rises(d, n, m, y + step)
    ensures b - a == d - c
  {
    assert (b - a) * n == m * step == (d - c) * n;
    assert ((b - a) - (d - c)) * n == 0.0;
    ZeroFactor((b - a) - (d - c), n);
  }

  lemma ZeroFactor(a: real, n: real)
    requires n > 0.0 && a * n == 0.0
    ensures a == 0.0
  {
    Factor(a, n);
    assert (-a) * n == 0.0;
    Factor(-a, n);
  }

  /** The first n samples follow the points. */
  ghost predicate FollowsTo(samples: seq<real>, xs: seq<nat>, ys: seq<real>, n: nat) {
    && |xs| == |ys| && Increasing(xs) && n <= |samples|
    && forall k: nat, i: nat | i < n && InSegment(xs, k, i) :: samples[i] == Height(xs, ys, k, i)
  }

  lemma FollowsMore(samples: seq<real>, xs: seq<nat>, ys: seq<real>, k: nat, x: nat)
    requires FollowsTo(samples, xs, ys, x) && x < |samples| && InSegment(xs, k, x)
    ensures FollowsTo(samples[x := Height(xs, ys, k, x)], xs, ys, x + 1)
  {
    SegmentsAgree(xs, ys, k, x);
    hide Height, Increasing;
  }

  /** The weighted mean of the source is the height of the segment. */
  lemma MeanIsHeight(xs: seq<nat>, ys: seq<real>, k: nat, x: nat)
    requires |xs| == |ys| && Increasing(xs) && InSegment(xs, k, x)
    ensures 0.0 <= Fraction(xs, k, x) <= 1.0
    ensures (1.0 - Fraction(xs, k, x)) * ys[k] + Fraction(xs, k, x) * ys[k + 1] == Height(xs, ys, k, x)
  {
    FractionBounds(xs, k, x);
    Blend(ys[k], ys[k + 1], Fraction(xs, k, x));
    hide Fraction, Share;
  }

  /** interpolate(), with its assertions. */
  method Interpolate(samples: array<real>, xs: seq<nat>, ys: seq<real>)
    requires Spans(xs, ys, samples.Length)
    modifies samples
    ensures Follows(samples[..], xs, ys)
  {
    hide Height, FollowsTo;
    var n, length := |xs|, samples.Length;
    var x, lower := 0, 0;
    FollowsNone(samples[..], xs, ys);
    while x < length - 1
      invariant 0 <= x <= length - 1 && 0 <= lower < n - 1
      invariant xs[lower] <= x <= xs[lower + 1]
      invariant FollowsTo(samples[..], xs, ys, x)
    {
      assert lower < n - 1;
      var from, to := xs[lower] as real, xs[lower + 1] as real;
      assert from < to && from <= x as real <= to;
      var c0 := (x as real - from) / (to - from);
      assert c0 == Fraction(xs, lower, x);
      hide Fraction;
      MeanIsHeight(xs, ys, lower, x);
      assert 0.0 <= c0 <= 1.0;
      ghost var next := samples[..][x := Height(xs, ys, lower, x)];
      FollowsMore(samples[..], xs, ys, lower, x);
      samples[x] := (1.0 - c0) * ys[lower] + c0 * ys[lower + 1];
      assert samples[..] == next;
      lower := NextSegment(xs, lower, x);
      x := x + 1;
    }
    FollowsLast(samples[..], xs, ys);
    ghost var all := samples[..][length - 1 := ys[n - 1]];
    samples[length - 1] := ys[n - 1];
    assert samples[..] == all;
  }

  /** The inner loop of interpolate(): the segment that the next position is in. */
  method NextSegment(xs: seq<nat>, from: nat, x: nat) returns (lower: nat)
    requires from + 1 < |xs| && xs[from] <= x < xs[|xs| - 1]
    ensures from <= lower < |xs| - 1 && xs[lower] <= x < xs[lower + 1]
  {
    lower := from;
    while x >= xs[lower + 1]
      invariant from <= lower < |xs| - 1 && xs[lower] <= x
      decreases |xs| - lower
    {
      lower := lower + 1;
    }
  }

  lemma FollowsNone(samples: seq<real>, xs: seq<nat>, ys: seq<real>)
    requires |xs| == |ys| && Increasing(xs)
    ensures FollowsTo(samples, xs, ys, 0)
  {
  }

  lemma FollowsLast(samples: seq<real>, xs: seq<nat>, ys: seq<real>)
    requires samples != [] && Spans(xs, ys, |samples|) && FollowsTo(samples, xs, ys, |samples| - 1)
    ensures Follows(samples[|samples| - 1 := ys[|ys| - 1]], xs, ys)
  {
    LastPoint(xs, ys, |samples| - 1);
    hide Height;
  }

  /** Where two segments meet they have the same height. */
  lemma SegmentsAgree(xs: seq<nat>, ys: seq<real>, k: nat, x: nat)
    requires |xs| == |ys| && Increasing(xs) && InSegment(xs, k, x)
    ensures forall j: nat | InSegment(xs, j, x) :: Height(xs, ys, j, x) == Height(xs, ys, k, x)
  {
    hide Height;
    forall j: nat | InSegment(xs, j, x)
      ensures Height(xs, ys, j, x) == Height(xs, ys, k, x)
    {
      HeightBounds(xs, ys, j, x);
      HeightBounds(xs, ys, k, x);
    }
  }

  lemma LastPoint(xs: seq<nat>, ys: seq<real>, x: nat)
    requires Spans(xs, ys, x + 1)
    ensures forall k: nat | InSegment(xs, k, x) :: Height(xs, ys, k, x) == ys[|ys| - 1]
  {
    hide Height;
    HeightBounds(xs, ys, |xs| - 2, x);
    SegmentsAgree(xs, ys, |xs| - 2, x);
  }

  /** is_monotonic() */
  method IsMonotonic(xs: seq<nat>) returns (r: bool)
    ensures r <==> Increasing(xs)
  {
    if |xs| < 2 {
      return true;
    }
    for i := 1 to |xs|
      invariant Increasing(xs[..i])
    {
      if xs[i] <= xs[i - 1] {
        return false;
      }
      assert forall k :: 0 <= k < i ==> xs[k] <= xs[..i][i - 1];
    }
    assert xs[..|xs|] == xs;
    r := true;
  }

  /** Distinct places below a bound are not more than the bound. */
  lemma {:induction false} PlacesFit(xs: seq<nat>, i: nat)
    requires Increasing(xs) && i < |xs|
    ensures xs[i] >= i
  {
    if i > 0 {
      PlacesFit(xs, i - 1);
    }
  }

  /** fix_filter() */
  method FixFilter(h: array<real>, fftSize: nat)
    requires fftSize >= 1
    modifies h
    ensures forall i :: 0 <= i < h.Length ==> h[i] == old(h[i]) / fftSize as real
  {
    for i := 0 to h.Length
      invariant forall k :: 0 <= k < i ==> h[k] == old(h[k]) / fftSize as real
      invariant forall k :: i <= k < h.Length ==> h[k] == old(h[k])
    {
      h[i] := h[i] / fftSize as real;
    }
  }

  /** The conditions of equalizer_handle_seed_filter() admit exactly the points that
      interpolate() can deal with, so none of its assertions can fail; the filter is
      then the curve, divided by the gain of the transform. */
  method SeedFilter(h: array<real>, fftSize: nat, xs: seq<nat>, ys: seq<real>)
    returns (ok: bool, ghost curve: seq<real>)
    requires fftSize >= 1 && h.Length == fftSize / 2 + 1
    modifies h
    ensures ok <==> Spans(xs, ys, fftSize / 2 + 1)
    ensures !ok ==> h[..] == old(h[..])
    ensures ok ==> |curve| == h.Length && Follows(curve, xs, ys)
                   && forall i :: 0 <= i < h.Length ==> h[i] == curve[i] / fftSize as real
  {
    ok, curve := false, [];
    var pointsGood := true;
    for i := 0 to |xs|
      invariant forall k :: 0 <= k < i ==> xs[k] < h.Length
    {
      if xs[i] >= h.Length {
        pointsGood := false;
        break;
      }
    }
    var monotonic := IsMonotonic(xs);
    if monotonic && |xs| >= 1 {
      PlacesFit(xs, |xs| - 1);
      LastIsGreatest(xs);
    }
    if !monotonic || !pointsGood {
      return;
    } else if |xs| != |ys| || |xs| < 2 || |xs| > h.Length {
      return;
    } else if xs[0] != 0 || xs[|xs| - 1] != fftSize / 2 {
      return;
    }
    Interpolate(h, xs, ys);
    curve := h[..];
    FixFilter(h, fftSize);
    ok := true;
  }

  lemma LastIsGreatest(xs: seq<nat>)
    requires Increasing(xs) && |xs| >= 1
    ensures forall i :: 0 <= i < |xs| ==> xs[i] <= xs[|xs| - 1]
  {
  }
}
