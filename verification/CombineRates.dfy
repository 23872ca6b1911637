/** The rate controller of module-combine-sink.c and the choice of the latency
    that all slaves are driven to. */
module CombineRates {
  import opened RateMath

  const U64: nat := 0x1_0000_0000_0000_0000
  // (pa_usec_t) -1, also the mark for "no output seen yet"
  const INVALID: nat := U64 - 1
  const USEC_PER_SEC: nat := 1000000

  function Wrap64(x: int): (r: nat)
    ensures r < U64
  {
    x % U64
  }

  /** pa_bytes_to_usec() for a stream of the given frame size and rate. */
  function BytesToUsec(length: nat, frameSize: nat, rate: nat): (r: nat)
    requires 0 < frameSize && 0 < rate
    ensures r < U64
  {
    Wrap64(length / frameSize * USEC_PER_SEC) / rate
  }

  function NextRate(baseRate: nat, oldRate: nat, d: int, adjustTime: nat): real
    requires 0 < adjustTime
  {
    Nearer(baseRate as real, FirstRate(baseRate, oldRate, d, adjustTime), SecondRate(baseRate, d, adjustTime))
  }

  /** A rate less than 0.2% of the base rate away from the old one. */
  function FirstRate(baseRate: nat, oldRate: nat, d: int, adjustTime: nat): real
    requires 0 < adjustTime
  {
    oldRate as real + Share(baseRate as real, Correction(d, adjustTime, 0.002))
  }

  /** The best rate for the latency difference, less than 1% away from the base rate. */
  function SecondRate(baseRate: nat, d: int, adjustTime: nat): real
    requires 0 < adjustTime
  {
    Share(baseRate as real, 1.0 + Correction(d, adjustTime, 0.01))
  }

  function Nearer(base: real, x: real, y: real): real {
    if RAbs(x - base) < RAbs(y - base) then x else y
  }

  /** rate_controller() */
  function RateController(baseRate: nat, oldRate: nat, d: int, adjustTime: nat): int
    requires 0 < adjustTime
  {
    (NextRate(baseRate, oldRate, d, adjustTime) + 0.5).Floor
  }

  // -------------------------------------------------------- controller results

  function Distance(rate: int, base: int): real {
    RAbs(rate as real - base as real)
  }

  lemma NextRateIsBounded(baseRate: nat, oldRate: nat, d: int, adjustTime: nat)
    requires 0 < adjustTime && 0 < baseRate
    ensures var x := NextRate(baseRate, oldRate, d, adjustTime);
            && RAbs(x - baseRate as real) < baseRate as real / 100.0
            && RAbs(x - baseRate as real) < Distance(oldRate, baseRate) + baseRate as real / 500.0
            && (d == 0 ==> x == baseRate as real)
            && (d > 0 ==> x > baseRate as real || x > oldRate as real)
            && (d < 0 ==> x < baseRate as real || x < oldRate as real)
  {
    CorrectionIsLimited(d, adjustTime, 0.002);
    CorrectionIsLimited(d, adjustTime, 0.01);
    var base := baseRate as real;
    var c1, c2 := Correction(d, adjustTime, 0.002), Correction(d, adjustTime, 0.01);
    hide Correction, Nearer, Share;
    ShareIsLimited(base, c1, 0.002, 500.0);
    ShareIsLimited(base, c2, 0.01, 100.0);
    NearerIsBounded(base, oldRate as real, Share(base, c1), Share(base, c2));
  }

  lemma NearerIsBounded(base: real, prev: real, p1: real, p2: real)
    requires base > 0.0 && RAbs(p1) < base / 500.0 && RAbs(p2) < base / 100.0
    ensures var x := Nearer(base, prev + p1, base + p2);
            && RAbs(x - base) < base / 100.0
            && RAbs(x - base) < RAbs(prev - base) + base / 500.0
            && (p2 == 0.0 ==> x == base)
            && (p1 > 0.0 && p2 > 0.0 ==> x > base || x > prev)
            && (p1 < 0.0 && p2 < 0.0 ==> x < base || x < prev)
  {
  }

  /** The new rate is less than 1% (and rounding) away from the base rate, moves
      away from it by less than 0.2% per call, never turns against the sign of
      the latency difference, and is exactly the base rate without one. */
  lemma RateIsBounded(baseRate: nat, oldRate: nat, d: int, adjustTime: nat)
    requires 0 < adjustTime && 0 < baseRate
    ensures var r := RateController(baseRate, oldRate, d, adjustTime);
            && r > 0
            && Distance(r, baseRate) < baseRate as real / 100.0 + 0.5
            && Distance(r, baseRate) < Distance(oldRate, baseRate) + baseRate as real / 500.0 + 0.5
            && (d == 0 ==> r == baseRate)
            && (d > 0 ==> r >= baseRate || r >= oldRate)
            && (d < 0 ==> r <= baseRate || r <= oldRate)
  {
    NextRateIsBounded(baseRate, oldRate, d, adjustTime);
    hide NextRate;
  }

  /** Kept for as long as 0.2% per cycle asks for, the first rate makes up for exactly the
      latency difference against the old rate; so does the second against the base rate,
      at 1% per cycle. */
  lemma RatesMakeUp(baseRate: nat, oldRate: nat, d: int, adjustTime: nat)
    requires 0 < adjustTime
    ensures MakesUp(FirstRate(baseRate, oldRate, d, adjustTime), oldRate as real, 500 * Abs(d) + adjustTime,
                    baseRate as real * d as real)
    ensures MakesUp(SecondRate(baseRate, d, adjustTime), baseRate as real, 100 * Abs(d) + adjustTime,
                    baseRate as real * d as real)
  {
    var base := baseRate as real;
    var c1, c2 := Correction(d, adjustTime, 0.002), Correction(d, adjustTime, 0.01);
    RateMakesUp(baseRate, oldRate as real, d, adjustTime, 0.002, 500, 1.0);
    RateMakesUp(baseRate, base, d, adjustTime, 0.01, 100, 1.0);
    hide Correction, MakesUp;
    assert Share(1.0, c1) == c1 && Share(1.0, c2) == c2 && 1.0 * base * d as real == base * d as real;
    assert Share(base, 1.0 + c2) == base + Share(base, c2);
    hide Share;
  }

  /** The rate that is set is the nearest whole number of Hz. */
  lemma RateIsRounded(baseRate: nat, oldRate: nat, d: int, adjustTime: nat)
    requires 0 < adjustTime
    ensures var x, r := NextRate(baseRate, oldRate, d, adjustTime), RateController(baseRate, oldRate, d, adjustTime);
            -0.5 < r as real - x <= 0.5
  {
    hide NextRate;
  }

  /** The first rate is the one nearer to the base rate. */
  ghost predicate FirstIsNearer(baseRate: nat, oldRate: nat, d: int, adjustTime: nat)
    requires 0 < adjustTime
  {
    RAbs(FirstRate(baseRate, oldRate, d, adjustTime) - baseRate as real)
    < RAbs(SecondRate(baseRate, d, adjustTime) - baseRate as real)
  }

  /** The old rate is less than 0.2% of the base rate away from the best one. */
  ghost predicate OldIsClose(baseRate: nat, oldRate: nat, d: int, adjustTime: nat)
    requires 0 < adjustTime
  {
    RAbs(oldRate as real - Share(baseRate as real, 1.0 + Correction(d, adjustTime, 0.01))) < baseRate as real / 500.0
  }

  /** A step is smaller than 0.2% of the base rate if and only if the first rate is the
      nearer one or the old rate was that close to the best one.  Every larger step goes
      towards the base rate. */
  lemma StepSize(baseRate: nat, oldRate: nat, d: int, adjustTime: nat)
    requires 0 < adjustTime && 0 < baseRate
    ensures var x, prev := NextRate(baseRate, oldRate, d, adjustTime), oldRate as real;
            && (RAbs(x - prev) < baseRate as real / 500.0 <==>
                  FirstIsNearer(baseRate, oldRate, d, adjustTime) || OldIsClose(baseRate, oldRate, d, adjustTime))
            && (RAbs(x - prev) >= baseRate as real / 500.0 ==>
                  RAbs(x - baseRate as real) < RAbs(prev - baseRate as real))
  {
    CorrectionIsLimited(d, adjustTime, 0.002);
    CorrectionIsLimited(d, adjustTime, 0.01);
    var base := baseRate as real;
    var c1, c2 := Correction(d, adjustTime, 0.002), Correction(d, adjustTime, 0.01);
    hide Correction, Share;
    ShareIsLimited(base, c1, 0.002, 500.0);
    ShareIsLimited(base, c2, 0.01, 100.0);
    StepTowardsBase(base, oldRate as real, Share(base, c1), Share(base, c2));
  }

  lemma StepTowardsBase(base: real, prev: real, p1: real, p2: real)
    requires RAbs(p1) < base / 500.0 && RAbs(p2) < base / 100.0
    requires (p1 > 0.0 && p2 > 0.0) || (p1 < 0.0 && p2 < 0.0) || (p1 == 0.0 && p2 == 0.0)
    ensures var x := Nearer(base, prev + p1, base + p2);
            RAbs(x - prev) >= base / 500.0 ==> RAbs(x - base) < RAbs(prev - base)
  {
  }

  /** The same for the rate that is set, with half a Hz of slack. */
  lemma RoundedStepSize(baseRate: nat, oldRate: nat, d: int, adjustTime: nat)
    requires 0 < adjustTime && 0 < baseRate
    ensures var r := RateController(baseRate, oldRate, d, adjustTime);
            && (FirstIsNearer(baseRate, oldRate, d, adjustTime) || OldIsClose(baseRate, oldRate, d, adjustTime) ==>
                  Distance(r, oldRate) < baseRate as real / 500.0 + 0.5)
            && (Distance(r, oldRate) >= baseRate as real / 500.0 + 0.5 ==>
                  Distance(r, baseRate) < Distance(oldRate, baseRate) + 0.5)
  {
    StepSize(baseRate, oldRate, d, adjustTime);
    hide NextRate, FirstIsNearer, OldIsClose;
  }

  /** A slave that runs 470 Hz fast and has reached its target drops by more than that. */
  lemma StepCanBeLarge()
    ensures RateController(48000, 48470, 1, 10000000) < 48470 - 97
  {
    var baseRate, oldRate, d, adjustTime := 48000, 48470, 1, 10000000;
    LargeStep(baseRate, oldRate, d, adjustTime);
  }

  lemma LargeStep(baseRate: nat, oldRate: nat, d: int, adjustTime: nat)
    requires baseRate == 48000 && oldRate == 48470 && d == 1 && adjustTime == 10000000
    ensures RateController(baseRate, oldRate, d, adjustTime) < 48470 - 97
  {
    RateIsBounded(baseRate, oldRate, d, adjustTime);
    assert SecondRate(baseRate, d, adjustTime) < 48001.0;
    assert FirstRate(baseRate, oldRate, d, adjustTime) > 48400.0;
    hide FirstRate, SecondRate;
  }

  lemma ZeroDifference(baseRate: nat, oldRate: nat, adjustTime: nat)
    requires 0 < adjustTime && 0 < baseRate
    ensures RateController(baseRate, oldRate, Int32(0), adjustTime) == baseRate
  {
    RateIsBounded(baseRate, oldRate, 0, adjustTime);
  }

  // ------------------------------------------------------------ all the slaves

  /** One slave: whether it has an open stream, its latency snapshot, and the
      two values that adjust_rates() computes for it. */
  class Output {
    var sinkInput: bool
    var sinkOpened: bool
    var frameSize: nat
    var snapshotTimestamp: nat
    var sinkLatency: nat
    var memblockqSize: nat
    var receiveCounter: nat
    var totalLatency: nat
    var rate: nat

    predicate Eligible()
      reads this
    {
      sinkInput && sinkOpened
    }

    predicate Sane()
      reads this
    {
      0 < frameSize && 0 < rate && sinkLatency < U64
    }

    /** The latency of this slave at the time of the sink snapshot, in the
        unsigned arithmetic of the source. */
    function Latency(now: nat, sendCounter: nat): (r: nat)
      reads this
      requires Sane()
      ensures r < U64
    {
      Wrap64(sinkLatency + BytesToUsec(memblockqSize, frameSize, rate) - (now - snapshotTimestamp)
             + BytesToUsec(Wrap64(sendCounter - receiveCounter), frameSize, rate))
    }
  }

  /** A slave whose latency comes out as -1 usec looks as if it were not there: one with
      nothing left to play a microsecond before the sink's snapshot. */
  lemma LatencyCanLookAbsent(o: Output, now: nat, sendCounter: nat)
    requires o.Sane() && o.sinkLatency == 0 && o.memblockqSize == 0
    requires now == o.snapshotTimestamp + 1 && sendCounter == o.receiveCounter
    ensures o.Latency(now, sendCounter) == INVALID
  {
    assert Wrap64(0) == 0;
    assert 0 / o.frameSize == 0;
  }

  /** The playing time of whole frames, rounded down. */
  lemma BytesToUsecIsTime(frames: nat, frameSize: nat, rate: nat)
    requires 0 < frameSize && 0 < rate && frames * 1000000 < U64
    ensures var t := BytesToUsec(frames * frameSize, frameSize, rate);
            t * rate <= frames * 1000000 < (t + 1) * rate
  {
    WholeFrames(frames, frameSize);
    var n := frames * USEC_PER_SEC;
    assert Wrap64(n) == n;
    hide Wrap64;
    QuotientBounds(n, rate);
  }

  lemma QuotientBounds(n: nat, r: nat)
    requires r > 0
    ensures n / r * r <= n < (n / r + 1) * r
  {
  }

  lemma WholeFrames(frames: nat, frameSize: nat)
    requires 0 < frameSize
    ensures frames * frameSize / frameSize == frames
  {
    var n, q := frames * frameSize, frames * frameSize / frameSize;
    QuotientBounds(n, frameSize);
    SameProduct(frames, q, frameSize);
  }

  lemma SameProduct(a: nat, q: nat, r: nat)
    requires q * r <= a * r < (q + 1) * r
    ensures a == q
  {
  }

  /** A slave with some frames in its memblockq and some more sent to it since its
      snapshot: its latency is that of its sink and the playing time of all these frames,
      less the time that has passed since, up to two microseconds of rounding. */
  lemma LatencyIsDelay(o: Output, now: nat, sendCounter: nat, queued: nat, sent: nat)
    requires o.Sane() && o.memblockqSize == queued * o.frameSize
    requires sendCounter == o.receiveCounter + sent * o.frameSize && sent * o.frameSize < U64
    requires now - o.snapshotTimestamp <= o.sinkLatency
    requires o.sinkLatency - (now - o.snapshotTimestamp) + (queued + sent) * 1000000 < U64
    ensures var play := o.Latency(now, sendCounter) - o.sinkLatency + (now - o.snapshotTimestamp);
            play * o.rate <= (queued + sent) * 1000000 < (play + 2) * o.rate
  {
    var m, n := queued * USEC_PER_SEC, sent * USEC_PER_SEC;
    assert (queued + sent) * USEC_PER_SEC == m + n;
    BytesToUsecIsTime(queued, o.frameSize, o.rate);
    BytesToUsecIsTime(sent, o.frameSize, o.rate);
    var queuedBytes, sentBytes := queued * o.frameSize, sent * o.frameSize;
    DelayOf(o, now, sendCounter, queuedBytes, sentBytes, m, n);
  }

  lemma DelayOf(o: Output, now: nat, sendCounter: nat, queuedBytes: nat, sentBytes: nat, m: nat, n: nat)
    requires o.Sane() && o.memblockqSize == queuedBytes && sendCounter == o.receiveCounter + sentBytes
    requires sentBytes < U64 && now - o.snapshotTimestamp <= o.sinkLatency
    requires o.sinkLatency - (now - o.snapshotTimestamp) + m + n < U64
    requires var a := BytesToUsec(queuedBytes, o.frameSize, o.rate); a * o.rate <= m < (a + 1) * o.rate
    requires var b := BytesToUsec(sentBytes, o.frameSize, o.rate); b * o.rate <= n < (b + 1) * o.rate
    ensures var play := o.Latency(now, sendCounter) - o.sinkLatency + (now - o.snapshotTimestamp);
            play * o.rate <= m + n < (play + 2) * o.rate
  {
    var a, b := BytesToUsec(queuedBytes, o.frameSize, o.rate), BytesToUsec(sentBytes, o.frameSize, o.rate);
    hide BytesToUsec;
    TimeIsSmall(a, m, o.rate);
    TimeIsSmall(b, n, o.rate);
    Unwrapped(o, now, sendCounter, a, b);
    TimesAdd(a, b, m, n, o.rate);
    hide *;
  }

  /** The latency of a slave when nothing wraps around. */
  lemma Unwrapped(o: Output, now: nat, sendCounter: nat, a: nat, b: nat)
    requires o.Sane() && 0 <= sendCounter - o.receiveCounter < U64
    requires a == BytesToUsec(o.memblockqSize, o.frameSize, o.rate)
    requires b == BytesToUsec(sendCounter - o.receiveCounter, o.frameSize, o.rate)
    requires 0 <= o.sinkLatency - (now - o.snapshotTimestamp) + a + b < U64
    ensures o.Latency(now, sendCounter) == o.sinkLatency - (now - o.snapshotTimestamp) + a + b
  {
    Fits(sendCounter - o.receiveCounter);
    Fits(o.sinkLatency - (now - o.snapshotTimestamp) + a + b);
    hide Wrap64, BytesToUsec;
  }

  lemma Fits(x: int)
    requires 0 <= x < U64
    ensures Wrap64(x) == x
  {
  }

  lemma TimeIsSmall(t: nat, n: nat, rate: nat)
    requires rate > 0 && t * rate <= n
    ensures t <= n
  {
  }

  lemma TimesAdd(a: nat, b: nat, m: nat, n: nat, rate: nat)
    requires a * rate <= m < (a + 1) * rate && b * rate <= n < (b + 1) * rate
    ensures (a + b) * rate <= m + n < (a + b + 2) * rate
  {
    assert (a + b) * rate == a * rate + b * rate;
    assert (a + b + 2) * rate == (a + 1) * rate + (b + 1) * rate;
  }

  /** With whole seconds in the memblockq and on the way nothing is rounded. */
  lemma LatencyInSeconds(o: Output, now: nat, sendCounter: nat, n: nat, k: nat)
    requires o.Sane() && o.memblockqSize == n * o.rate * o.frameSize
    requires sendCounter == o.receiveCounter + k * o.rate * o.frameSize && k * o.rate * o.frameSize < U64
    requires now - o.snapshotTimestamp <= o.sinkLatency
    requires o.sinkLatency - (now - o.snapshotTimestamp) + (n + k) * 1000000 < U64
    requires n * o.rate * 1000000 < U64 && k * o.rate * 1000000 < U64
    ensures o.Latency(now, sendCounter) == o.sinkLatency - (now - o.snapshotTimestamp) + (n + k) * 1000000
  {
    SecondsToUsec(n, o.frameSize, o.rate);
    SecondsToUsec(k, o.frameSize, o.rate);
    hide BytesToUsec;
    assert (n + k) * USEC_PER_SEC == n * USEC_PER_SEC + k * USEC_PER_SEC;
    Unwrapped(o, now, sendCounter, n * USEC_PER_SEC, k * USEC_PER_SEC);
    hide *;
  }

  lemma SecondsToUsec(n: nat, frameSize: nat, rate: nat)
    requires 0 < frameSize && 0 < rate && n * rate * USEC_PER_SEC < U64
    ensures BytesToUsec(n * rate * frameSize, frameSize, rate) == n * USEC_PER_SEC
  {
    WholeFrames(n * rate, frameSize);
    assert Wrap64(n * rate * USEC_PER_SEC) == n * rate * USEC_PER_SEC;
    assert n * rate * USEC_PER_SEC == (n * USEC_PER_SEC) * rate;
    WholeFrames(n * USEC_PER_SEC, rate);
    hide Wrap64;
  }

  ghost predicate Sane(outputs: seq<Output>)
    reads outputs
  {
    && (forall i, j :: 0 <= i < j < |outputs| ==> outputs[i] != outputs[j])
    && (forall i :: 0 <= i < |outputs| ==> outputs[i].Sane())
  }

  /** What the choice of the target depends on. */
  datatype Slave = Slave(eligible: bool, sinkLatency: nat, latency: nat)

  /** All slaves at the time of the sink snapshot. */
  ghost function Slaves(outputs: seq<Output>, now: nat, sendCounter: nat): (r: seq<Slave>)
    reads outputs
    requires Sane(outputs)
    ensures |r| == |outputs|
    ensures forall i :: 0 <= i < |outputs| ==>
              r[i] == Slave(outputs[i].sinkInput && outputs[i].sinkOpened, outputs[i].sinkLatency,
                            outputs[i].Latency(now, sendCounter))
  {
    seq(|outputs|, i requires 0 <= i < |outputs| && outputs[i].Sane() reads outputs =>
      Slave(outputs[i].sinkInput && outputs[i].sinkOpened, outputs[i].sinkLatency,
            outputs[i].Latency(now, sendCounter)))
  }

  /** Some slave has a latency that can be told from the mark for "none seen". */
  ghost predicate SomeVisible(slaves: seq<Slave>) {
    exists i :: 0 <= i < |slaves| && slaves[i].eligible && slaves[i].latency != INVALID
  }

  /** Some slave has less latency in total than the sink of some slave needs alone. */
  ghost predicate SinkNeedsMore(slaves: seq<Slave>) {
    exists i, j :: 0 <= i < |slaves| && 0 <= j < |slaves| && slaves[i].eligible && slaves[j].eligible
                   && slaves[i].latency < slaves[j].sinkLatency
  }

  /** Slave `k` has the latency all slaves are driven to: the slave whose sink alone needs
      the most, if that is more than some slave has in total, and one with the smallest
      total latency otherwise. */
  ghost predicate IsAnchor(slaves: seq<Slave>, k: nat) {
    && k < |slaves| && slaves[k].eligible
    && if SinkNeedsMore(slaves) then
         forall i :: 0 <= i < |slaves| && slaves[i].eligible ==> slaves[i].sinkLatency <= slaves[k].sinkLatency
       else
         forall i :: 0 <= i < |slaves| && slaves[i].eligible ==> slaves[k].latency <= slaves[i].latency
  }

  /** The first loop of adjust_rates(): the total latency of every slave and the
      choice of the target.  `oMax` is -1 while the source's o_max is unset. */
  method SelectTarget(outputs: seq<Output>, now: nat, sendCounter: nat)
    returns (valid: bool, target: nat, ghost k: nat)
    requires Sane(outputs)
    modifies outputs`totalLatency
    ensures Sane(outputs)
    ensures var slaves := old(Slaves(outputs, now, sendCounter));
            && (forall i :: 0 <= i < |outputs| ==>
                  outputs[i].totalLatency == if slaves[i].eligible then slaves[i].latency
                                             else old(outputs[i].totalLatency))
            && (valid <==> SomeVisible(slaves))
            && (valid ==> IsAnchor(slaves, k) && k < |slaves| && slaves[k].eligible && target == slaves[k].latency)
  {
    hide Output.Latency;
    valid, target, k := false, 0, 0;
    var maxSinkLatency, minTotal, oMax := 0, INVALID, -1;
    ghost var kMin := -1;
    ghost var slaves := Slaves(outputs, now, sendCounter);
    for x := 0 to |outputs|
      invariant Sane(outputs)
      invariant forall i :: 0 <= i < |outputs| ==>
                  outputs[i].totalLatency == if i < x && slaves[i].eligible then slaves[i].latency
                                             else old(outputs[i].totalLatency)
      invariant minTotal <= INVALID
      invariant forall i :: 0 <= i < x && slaves[i].eligible ==>
                  minTotal <= slaves[i].latency && slaves[i].sinkLatency <= maxSinkLatency
      invariant -1 <= kMin < x && -1 <= oMax < x
      invariant kMin == -1 ==> minTotal == INVALID && forall i :: 0 <= i < x ==> !slaves[i].eligible
      invariant kMin != -1 ==> slaves[kMin].eligible && slaves[kMin].latency == minTotal
      invariant oMax == -1 ==> maxSinkLatency == 0
      invariant oMax != -1 ==> slaves[oMax].eligible && slaves[oMax].sinkLatency == maxSinkLatency
    {
      var o := outputs[x];
      if o.Eligible() {
        o.totalLatency := o.Latency(now, sendCounter);
        if minTotal == INVALID || o.totalLatency < minTotal {
          minTotal := o.totalLatency;
          kMin := x;
        }
        if o.sinkLatency > maxSinkLatency {
          maxSinkLatency := o.sinkLatency;
          oMax := x;
        }
      }
    }
    if minTotal == INVALID {
      return;
    }
    valid := true;
    if maxSinkLatency > minTotal {
      target, k := outputs[oMax].totalLatency, oMax;
    } else {
      target, k := minTotal, kMin;
    }
  }

  ghost function Eligible(slaves: seq<Slave>): nat {
    if slaves == [] then 0 else Eligible(slaves[..|slaves| - 1]) + if slaves[|slaves| - 1].eligible then 1 else 0
  }

  /** The latencies of all eligible slaves together. */
  ghost function TotalLatency(slaves: seq<Slave>): nat {
    if slaves == [] then 0
    else
      var last := slaves[|slaves| - 1];
      TotalLatency(slaves[..|slaves| - 1]) + if last.eligible then last.latency else 0
  }

  lemma WrapTwice(a: int, b: int)
    ensures Wrap64(Wrap64(a) + b) == Wrap64(a + b)
  {
    var k := a / U64;
    assert a == k * U64 + Wrap64(a);
    Shifted(Wrap64(a) + b, k);
  }

  lemma {:induction false} Shifted(x: int, k: int)
    ensures Wrap64(k * U64 + x) == Wrap64(x)
    decreases if k < 0 then -k else k
  {
    if k > 0 {
      Shifted(x, k - 1);
      assert k * U64 + x == ((k - 1) * U64 + x) + U64;
    } else if k < 0 {
      Shifted(x, k + 1);
      assert k * U64 + x == ((k + 1) * U64 + x) - U64;
    }
  }

  lemma OneMoreSlave(slaves: seq<Slave>, x: nat)
    requires x < |slaves|
    ensures Eligible(slaves[..x + 1]) == Eligible(slaves[..x]) + if slaves[x].eligible then 1 else 0
    ensures TotalLatency(slaves[..x + 1])
            == TotalLatency(slaves[..x]) + if slaves[x].eligible then slaves[x].latency else 0
  {
    assert slaves[..x + 1][..x] == slaves[..x];
  }

  /** The sum of the latencies, which wraps around, and their number.  The source forms
      both in its first loop. */
  method AddLatencies(outputs: seq<Output>, ghost slaves: seq<Slave>) returns (sum: nat, n: nat)
    requires |slaves| == |outputs|
    requires forall i :: 0 <= i < |outputs| ==> slaves[i].eligible == outputs[i].Eligible()
    requires forall i :: 0 <= i < |outputs| && slaves[i].eligible ==> outputs[i].totalLatency == slaves[i].latency
    ensures sum == Wrap64(TotalLatency(slaves)) && n == Eligible(slaves)
    ensures forall i :: 0 <= i < |slaves| && slaves[i].eligible ==> n > 0
  {
    assert Wrap64(0) == 0;
    hide Eligible, TotalLatency, Wrap64;
    sum, n := 0, 0;
    NoSlaves();
    assert slaves[..0] == [] && slaves[..|slaves|] == slaves;
    for x := 0 to |outputs|
      invariant n == Eligible(slaves[..x]) && sum == Wrap64(TotalLatency(slaves[..x]))
      invariant forall i :: 0 <= i < x && slaves[i].eligible ==> n > 0
    {
      OneMoreSlave(slaves, x);
      WrapTwice(TotalLatency(slaves[..x]), slaves[x].latency);
      if outputs[x].Eligible() {
        sum, n := Wrap64(sum + outputs[x].totalLatency), n + 1;
      }
    }
  }

  /** The latency told to the sink: the average over the slaves. */
  method AverageLatency(outputs: seq<Output>, ghost slaves: seq<Slave>) returns (avg: nat)
    requires |slaves| == |outputs| && exists i :: 0 <= i < |slaves| && slaves[i].eligible
    requires forall i :: 0 <= i < |outputs| ==> slaves[i].eligible == outputs[i].Eligible()
    requires forall i :: 0 <= i < |outputs| && slaves[i].eligible ==> outputs[i].totalLatency == slaves[i].latency
    ensures Eligible(slaves) > 0 && avg == Wrap64(TotalLatency(slaves)) / Eligible(slaves)
  {
    hide Eligible, TotalLatency, Wrap64;
    var sum, n := AddLatencies(outputs, slaves);
    avg := sum / n;
  }

  lemma NoSlaves()
    ensures Eligible([]) == 0 && TotalLatency([]) == 0
  {
  }

  /** The second loop of adjust_rates(). */
  method SetRates(outputs: seq<Output>, target: nat, baseRate: nat, adjustTime: nat)
    requires Sane(outputs) && 0 < adjustTime && 0 < baseRate
    modifies outputs`rate
    ensures Sane(outputs)
    ensures forall i :: 0 <= i < |outputs| ==>
              outputs[i].rate == if outputs[i].Eligible()
                                 then RateController(baseRate, old(outputs[i].rate),
                                                     Int32(outputs[i].totalLatency - target), adjustTime)
                                 else old(outputs[i].rate)
  {
    hide RateController, Int32;
    for x := 0 to |outputs|
      invariant Sane(outputs)
      invariant forall i :: 0 <= i < |outputs| ==>
                  outputs[i].rate == if i < x && outputs[i].Eligible()
                                     then RateController(baseRate, old(outputs[i].rate),
                                                         Int32(outputs[i].totalLatency - target), adjustTime)
                                     else old(outputs[i].rate)
    {
      var o := outputs[x];
      if o.Eligible() {
        var d := Int32(o.totalLatency - target);
        RateIsBounded(baseRate, o.rate, d, adjustTime);
        o.rate := RateController(baseRate, o.rate, d, adjustTime);
      }
    }
  }

  /** adjust_rates().  The rates are set exactly if some slave has a latency that
      can be told from the mark for "none seen".  If so, one slave runs at the base
      rate exactly, and every other one close to it. */
  method AdjustRates(outputs: seq<Output>, sinkRunning: bool, now: nat, sendCounter: nat, baseRate: nat,
                     adjustTime: nat)
    returns (adjusted: bool, avg: nat, ghost anchor: nat)
    requires Sane(outputs) && 0 < adjustTime && 0 < baseRate
    modifies outputs`totalLatency, outputs`rate
    ensures Sane(outputs)
    ensures adjusted <==> sinkRunning && now != 0 && SomeVisible(old(Slaves(outputs, now, sendCounter)))
    ensures adjusted ==>
              var slaves := old(Slaves(outputs, now, sendCounter));
              Eligible(slaves) > 0 && avg == Wrap64(TotalLatency(slaves)) / Eligible(slaves)
    ensures adjusted ==> anchor < |outputs| && outputs[anchor].rate == baseRate
                         && IsAnchor(old(Slaves(outputs, now, sendCounter)), anchor)
    ensures adjusted ==> forall i :: 0 <= i < |outputs| && outputs[i].Eligible() ==>
              && outputs[i].totalLatency == old(Slaves(outputs, now, sendCounter))[i].latency
              && outputs[i].rate == RateController(baseRate, old(outputs[i].rate),
                                                   Int32(outputs[i].totalLatency - outputs[anchor].totalLatency),
                                                   adjustTime)
              && Distance(outputs[i].rate, baseRate) < baseRate as real / 100.0 + 0.5
              && Distance(outputs[i].rate, baseRate)
                 < Distance(old(outputs[i].rate), baseRate) + baseRate as real / 500.0 + 0.5
    ensures forall i :: 0 <= i < |outputs| && (!adjusted || !outputs[i].Eligible()) ==>
              outputs[i].rate == old(outputs[i].rate)
  {
    hide Output.Latency, RateController, Int32, IsAnchor, Distance, TotalLatency, Eligible, Wrap64;
    adjusted, avg, anchor := false, 0, 0;
    if |outputs| <= 0 || !sinkRunning || now == 0 {
      return;
    }
    var valid, target, k := SelectTarget(outputs, now, sendCounter);
    if !valid {
      return;
    }
    adjusted, anchor := true, k;
    avg := AverageLatency(outputs, old(Slaves(outputs, now, sendCounter)));
    SetRates(outputs, target, baseRate, adjustTime);
    ZeroDifference(baseRate, old(outputs[k].rate), adjustTime);
    forall i | 0 <= i < |outputs| && outputs[i].Eligible()
      ensures Distance(outputs[i].rate, baseRate) < baseRate as real / 100.0 + 0.5
      ensures Distance(outputs[i].rate, baseRate)
              < Distance(old(outputs[i].rate), baseRate) + baseRate as real / 500.0 + 0.5
    {
      RateIsBounded(baseRate, old(outputs[i].rate), Int32(outputs[i].totalLatency - target), adjustTime);
    }
  }
}
