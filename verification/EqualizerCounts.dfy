/** How many samples module-equalizer-sink.c asks for, keeps and hands on. */
module EqualizerCounts {
  import opened OverlapAdd

  /** Whether no block was processed yet, the samples in the input buffers, and
      the size of the input buffers. */
  datatype Counts = Counts(first: bool, gathered: nat, max: nat)

  function RoundUp(n: nat, r: nat): nat
    requires r >= 1
  {
    (n + r - 1) / r * r
  }

  /** The number of samples to be gathered for a request. */
  function Target(cfg: Config, first: bool, n: nat): nat
    requires cfg.window >= 1
  {
    var up := RoundUp(n, cfg.R());
    if first then (if up > cfg.window then up else cfg.window) else up + cfg.Overlap()
  }

  /** The input that is missing for a request. */
  function Missing(cfg: Config, k: Counts, n: nat): nat
    requires cfg.window >= 1
  {
    if Target(cfg, k.first, n) > k.gathered then Target(cfg, k.first, n) - k.gathered else 0
  }

  function Iterations(cfg: Config, gathered: nat): nat
    requires cfg.window >= 1 && gathered >= cfg.Overlap()
  {
    (gathered - cfg.Overlap()) / cfg.R()
  }

  /** The state between two pops. */
  ghost predicate Ready(cfg: Config, k: Counts)
    requires cfg.window >= 1
  {
    if k.first then k.gathered == 0 else cfg.Overlap() <= k.gathered < cfg.window && k.gathered <= k.max
  }

  ghost function Next(cfg: Config, k: Counts, n: nat): Counts
    requires cfg.window >= 3
  {
    TargetIsEnough(cfg, k.first, n);
    var target := Target(cfg, k.first, n);
    DivRest(target - cfg.Overlap(), cfg.R());
    Counts(false, target - Iterations(cfg, target) * cfg.R(), if target > k.max then target else k.max)
  }

  lemma DivRest(n: nat, r: nat)
    requires r >= 1
    ensures 0 <= n - n / r * r < r
  {
  }

  lemma DivUnique(q: nat, a: nat, r: nat)
    requires a < r
    ensures (q * r + a) / r == q
  {
    var n := q * r + a;
    DivRest(n, r);
    if n / r < q {
      ProductsRise(n / r, q, r);
    } else if n / r > q {
      ProductsRise(q, n / r, r);
    }
  }

  lemma {:induction false} ProductsRise(a: nat, b: nat, r: nat)
    requires a < b
    ensures a * r + r <= b * r
  {
    assert b * r == (b - 1) * r + r;
    if a < b - 1 {
      ProductsRise(a, b - 1, r);
    }
  }

  /** The request in hops, rounded up. */
  lemma RoundedUp(n: nat, r: nat) returns (q: nat)
    requires r >= 1
    ensures RoundUp(n, r) == q * r && n <= q * r < n + r
    ensures (q >= 1 <==> n >= 1) && (q >= 2 <==> n > r)
  {
    q := (n + r - 1) / r;
    DivRest(n + r - 1, r);
    if q >= 2 {
      ProductsRise(1, q, r);
    }
  }

  lemma TargetIsEnough(cfg: Config, first: bool, n: nat)
    requires cfg.window >= 3
    ensures Target(cfg, first, n) >= cfg.Overlap()
    ensures first || n >= 1 ==> Target(cfg, first, n) >= cfg.window
  {
    var q := RoundedUp(n, cfg.R());
    if q >= 2 {
      ProductsRise(1, q, cfg.R());
    }
  }

  /** How many blocks a request makes and how many samples are left over. */
  lemma TargetBlocks(cfg: Config, first: bool, n: nat)
    requires cfg.Proper() && (first || n >= 1)
    ensures
      var target := Target(cfg, first, n);
      && target >= cfg.window && Iterations(cfg, target) >= 1
      && target - Iterations(cfg, target) * cfg.R() == cfg.Overlap() + if first && n > cfg.R() then 1 else 0
  {
    hide RoundUp;
    TargetIsEnough(cfg, first, n);
    var q := RoundedUp(n, cfg.R());
    if !first {
      Divided(cfg, Target(cfg, first, n), q, 0);
    } else if q >= 2 {
      ProductsRise(1, q, cfg.R());
      LessOne(q, cfg.R());
      Divided(cfg, Target(cfg, first, n), q - 1, 1);
    } else {
      Divided(cfg, Target(cfg, first, n), 1, 0);
    }
  }

  /** The frames that a request is answered with.  Every refill but the first makes the
      least number of blocks that covers the request; the first one makes a block less when
      more than one hop is asked for. */
  lemma RequestIsMet(cfg: Config, first: bool, n: nat)
    requires cfg.Proper() && (first || n >= 1)
    ensures Target(cfg, first, n) >= cfg.Overlap()
    ensures
      var frames := Iterations(cfg, Target(cfg, first, n)) * cfg.R();
      if !first then n <= frames < n + cfg.R()
      else if n > cfg.R() then n <= frames + cfg.R() < n + cfg.R()
      else n <= frames == cfg.R()
  {
    TargetBlocks(cfg, first, n);
    var q := RoundedUp(n, cfg.R());
    hide RoundUp, Iterations;
  }

  lemma LessOne(q: nat, r: nat)
    requires q >= 1
    ensures q * r == (q - 1) * r + r
  {
  }

  lemma Divided(cfg: Config, target: nat, q: nat, a: nat)
    requires cfg.Proper() && a < cfg.R() && target == q * cfg.R() + cfg.Overlap() + a
    ensures Iterations(cfg, target) == q && target - Iterations(cfg, target) * cfg.R() == cfg.Overlap() + a
  {
    DivUnique(q, a, cfg.R());
  }

  /** Between pops after the first the buffers hold at least the overlap and less
      than a window; more than the overlap only right after a first request for
      more than one hop. Every pop needs input, and makes at least one block. */
  lemma PopCounts(cfg: Config, k: Counts, n: nat)
    requires cfg.Proper() && Ready(cfg, k) && (k.first || n >= 1)
    ensures Ready(cfg, Next(cfg, k, n)) && !Next(cfg, k, n).first
    ensures k.gathered < Target(cfg, k.first, n) <= Next(cfg, k, n).max
    ensures Iterations(cfg, Target(cfg, k.first, n)) >= 1
    ensures Next(cfg, k, n).gathered == cfg.Overlap() + if k.first && n > cfg.R() then 1 else 0
  {
    hide Target, Iterations;
    TargetBlocks(cfg, k.first, n);
  }

  lemma FillCounts(cfg: Config, k: Counts, n: nat)
    requires cfg.Proper() && Ready(cfg, k) && (k.first || n >= 1)
    ensures
      var target := Target(cfg, k.first, n);
      && cfg.window <= target && k.gathered < target && Missing(cfg, k, n) == target - k.gathered
      && Next(cfg, k, n).max == if target > k.max then target else k.max
  {
    hide Target, Iterations;
    PopCounts(cfg, k, n);
    TargetIsEnough(cfg, k.first, n);
  }

  /** After the first pop, input is needed if and only if a frame is asked for. */
  lemma NeedsInput(cfg: Config, k: Counts, n: nat)
    requires cfg.Proper() && Ready(cfg, k) && !k.first
    ensures Target(cfg, false, n) > k.gathered <==> n >= 1
  {
    var q := RoundedUp(n, cfg.R());
    if n >= 1 {
      TargetBlocks(cfg, false, n);
    }
  }

  // ------------------------------------------------------------------ growing buffers

  /** The buffers are replaced by larger ones, to which only the overlap is copied,
      although they hold one sample more. */
  ghost predicate Loses(cfg: Config, k: Counts, n: nat)
    requires cfg.window >= 1
  {
    !k.first && k.gathered > cfg.Overlap() && Target(cfg, false, n) > k.max
  }

  ghost function After(cfg: Config, k: Counts, ns: seq<nat>): Counts
    requires cfg.window >= 3
  {
    if ns == [] then k else Next(cfg, After(cfg, k, ns[..|ns| - 1]), ns[|ns| - 1])
  }

  lemma {:induction false} RunCounts(cfg: Config, ns: seq<nat>)
    requires cfg.Proper() && ns != [] && forall i :: 0 <= i < |ns| ==> ns[i] >= 1
    ensures
      var k := After(cfg, Counts(true, 0, 0), ns);
      && Ready(cfg, k) && !k.first
      && k.gathered == cfg.Overlap() + if |ns| == 1 && ns[0] > cfg.R() then 1 else 0
  {
    var init := ns[..|ns| - 1];
    if init == [] {
      assert After(cfg, Counts(true, 0, 0), init) == Counts(true, 0, 0);
    } else {
      RunCounts(cfg, init);
    }
    PopCounts(cfg, After(cfg, Counts(true, 0, 0), init), ns[|ns| - 1]);
    hide Next, Target, Iterations;
  }

  /** In every run of pops, a sample is lost by growing exactly at the second pop
      that processes anything, when the first asked for more than a hop and the
      second for as many hops or more. */
  lemma LosesExactly(cfg: Config, ns: seq<nat>, n: nat)
    requires cfg.Proper() && n >= 1 && forall i :: 0 <= i < |ns| ==> ns[i] >= 1
    ensures Loses(cfg, After(cfg, Counts(true, 0, 0), ns), n)
            <==> |ns| == 1 && ns[0] > cfg.R() && RoundUp(n, cfg.R()) >= RoundUp(ns[0], cfg.R())
  {
    hide Next, Target, RoundUp;
    if ns != [] {
      RunCounts(cfg, ns);
      if |ns| == 1 && ns[0] > cfg.R() {
        SecondPop(cfg, ns[0], n);
        assert ns[..0] == [];
      }
    }
  }

  lemma SecondPop(cfg: Config, n1: nat, n2: nat)
    requires cfg.Proper() && n1 > cfg.R() && n2 >= 1
    ensures Target(cfg, false, n2) > Next(cfg, Counts(true, 0, 0), n1).max <==>
            RoundUp(n2, cfg.R()) >= RoundUp(n1, cfg.R())
  {
    hide RoundUp;
    var r := cfg.R();
    var p := RoundedUp(n1, r);
    var q := RoundedUp(n2, r);
    ProductsRise(1, p, r);
    if p > q {
      ProductsRise(q, p, r);
    } else if p < q {
      ProductsRise(p, q, r);
    }
  }

  /** Two requests for a little more than a hop lose a sample. */
  lemma SampleCanBeLost(cfg: Config)
    requires cfg.Proper()
    ensures Loses(cfg, After(cfg, Counts(true, 0, 0), [cfg.R() + 1]), cfg.R() + 1)
  {
    LosesExactly(cfg, [cfg.R() + 1], cfg.R() + 1);
    hide Loses, After, RoundUp;
  }
}
