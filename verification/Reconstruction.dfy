/** What overlap-add with a window gives back: perfect reconstruction when the
    transform changes nothing, and silence for silence. */
module Reconstruction {
  import opened OverlapAdd

  /** The sum of two windows a hop apart. */
  ghost function BothWindows(cfg: Config, j: nat): real
    requires cfg.Proper() && j < cfg.Overlap()
  {
    cfg.w[j] + cfg.w[cfg.R() + j]
  }

  /** The windows always sum up to one (constant overlap-add). */
  ghost predicate Cola(cfg: Config)
    requires cfg.Proper()
  {
    (forall j | 0 <= j < cfg.Overlap() :: BothWindows(cfg, j) == 1.0) && cfg.w[cfg.R() - 1] == 1.0
  }

  ghost function Amplified(g: real, x: real): real { g * x }

  /** The transform gives back its argument, and the channel has a constant gain. */
  ghost predicate Flat(cfg: Config, c: nat, g: real) {
    (forall m, s :: cfg.transform(m, c, s) == s) && forall m :: cfg.gain(m, c) == g
  }

  lemma FlatBlock(cfg: Config, c: nat, s: seq<real>, m: nat, j: nat, g: real)
    requires cfg.Proper() && Flat(cfg, c, g) && HasBlock(cfg, s, m) && j < cfg.window
    ensures Block(cfg, c, s, m)[j] == Amplified(Amplified(g, cfg.w[j]), s[Start(cfg, m) + j])
  {
    hide Start;
    var src := s[Start(cfg, m)..Start(cfg, m) + cfg.window];
    assert Filtered(cfg, m, c, src) == Windowed(cfg, m, c, src);
    assert src[j] == s[Start(cfg, m) + j];
  }

  lemma Halves(g: real, a: real, b: real, x: real)
    requires a + b == 1.0
    ensures Amplified(Amplified(g, a), x) + Amplified(Amplified(g, b), x) == Amplified(g, x)
  {
    assert g * a * x + g * b * x == g * x * (a + b);
  }

  lemma Whole(g: real, x: real)
    ensures Amplified(Amplified(g, 1.0), x) == Amplified(g, x)
  {
  }

  /** Every block but the first is the stream itself, times the gain. */
  lemma PerfectReconstruction(cfg: Config, c: nat, s: seq<real>, m: nat, i: nat, g: real)
    requires cfg.Proper() && Flat(cfg, c, g) && Cola(cfg) && i < cfg.R()
    requires m >= 1 && HasBlock(cfg, s, m) && HasBlock(cfg, s, m - 1)
    ensures Sum(cfg, c, s, m, i) == Amplified(g, s[Start(cfg, m) + i])
  {
    StartStep(cfg, m - 1);
    hide Block, Start, Flat, Amplified;
    FlatBlock(cfg, c, s, m, i, g);
    if i < cfg.Overlap() {
      FlatBlock(cfg, c, s, m - 1, cfg.R() + i, g);
      assert BothWindows(cfg, i) == 1.0;
      Halves(g, cfg.w[i], cfg.w[cfg.R() + i], s[Start(cfg, m) + i]);
    } else {
      assert i == cfg.R() - 1;
      Whole(g, s[Start(cfg, m) + i]);
    }
  }

  /** So is the first one once its window is undone, wherever the window is not too small
      for that. */
  lemma FirstReconstruction(cfg: Config, c: nat, s: seq<real>, i: nat, g: real)
    requires cfg.Proper() && Flat(cfg, c, g) && Cola(cfg) && i < cfg.R() && HasBlock(cfg, s, 0)
    requires cfg.w[i] > FLT_EPSILON
    ensures Unwindowed(cfg, true, i, Sum(cfg, c, s, 0, i)) == Amplified(g, s[i])
  {
    StartStep(cfg, 0);
    FlatBlock(cfg, c, s, 0, i, g);
    hide Block, Flat, Amplified;
    if i < cfg.Overlap() {
      Undone(g, cfg.w[i], s[i]);
    } else {
      assert i == cfg.R() - 1;
      Whole(g, s[i]);
    }
  }

  lemma Undone(g: real, w: real, x: real)
    requires w > 0.0
    ensures Amplified(Amplified(g, w), x) / w == Amplified(g, x)
  {
    assert g * w * x == (g * x) * w;
  }

  lemma FlatExpected(cfg: Config, c: nat, s: seq<real>, m: nat, i: nat, g: real)
    requires cfg.Proper() && Flat(cfg, c, g) && Cola(cfg) && i < cfg.R()
    requires HasBlock(cfg, s, m) && (if m > 0 then HasBlock(cfg, s, m - 1) else cfg.w[i] > FLT_EPSILON)
    ensures Start(cfg, m) + i < |s| && Expected(cfg, c, s, m, i) == Clamp(Amplified(g, s[Start(cfg, m) + i]))
  {
    if m == 0 {
      StartStep(cfg, 0);
      FirstReconstruction(cfg, c, s, i, g);
    } else {
      PerfectReconstruction(cfg, c, s, m, i, g);
    }
    hide Sum, Start, Flat, Cola, Amplified;
  }

  ghost predicate Silent(s: seq<real>) {
    forall j :: 0 <= j < |s| ==> s[j] == 0.0
  }

  /** A transform that adds nothing to silence leaves a silent stream silent. */
  lemma SilenceStays(cfg: Config, c: nat, s: seq<real>, m: nat, i: nat)
    requires cfg.Proper() && i < cfg.R() && HasBlock(cfg, s, m) && (m > 0 ==> HasBlock(cfg, s, m - 1))
    requires Silent(s) && forall k, x :: Silent(x) ==> Silent(cfg.transform(k, c, x))
    ensures Expected(cfg, c, s, m, i) == 0.0
  {
    SilentBlock(cfg, c, s, m);
    if m > 0 {
      SilentBlock(cfg, c, s, m - 1);
    }
    hide Block, Start;
  }

  lemma SilentBlock(cfg: Config, c: nat, s: seq<real>, m: nat)
    requires cfg.Proper() && HasBlock(cfg, s, m)
    requires Silent(s) && forall k, x :: Silent(x) ==> Silent(cfg.transform(k, c, x))
    ensures Silent(Block(cfg, c, s, m))
  {
    hide Start;
    var src := s[Start(cfg, m)..Start(cfg, m) + cfg.window];
    assert Silent(src);
    assert Silent(Windowed(cfg, m, c, src));
  }

  /** Limiting a sample moves it no farther than needed. */
  lemma ClampIsNearest(v: real, t: real)
    requires -1.0 <= t <= 1.0
    ensures (Clamp(v) - v) * (Clamp(v) - v) <= (t - v) * (t - v)
    ensures v <= t ==> v <= Clamp(v) <= t
    ensures t <= v ==> t <= Clamp(v) <= v
  {
    var x := Clamp(v);
    Nearer(x - v, t - v);
  }

  lemma Nearer(a: real, b: real)
    requires 0.0 <= a <= b || b <= a <= 0.0
    ensures a * a <= b * b
  {
  }
}
