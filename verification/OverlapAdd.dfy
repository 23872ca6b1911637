/** Overlap-add filtering of whole streams, without any state: what the sliding
    buffers of module-equalizer-sink.c are to compute. The transform stands for
    the Fourier transform, the filter and the inverse transform; it and the gain
    may change from block to block. */
module OverlapAdd {

  const FLT_EPSILON: real := 1.0 / 8388608.0

  datatype Config = Config(
    channels: nat,
    window: nat,
    fft: nat,
    w: seq<real>,
    gain: (nat, nat) -> real,
    transform: (nat, nat, seq<real>) -> seq<real>)
  {
    /** The hop between two windows. */
    function R(): nat { (window + 1) / 2 }

    function Overlap(): nat
      requires window >= 1
    {
      window - R()
    }

    ghost predicate Proper() {
      && channels >= 1 && window >= 3 && window % 2 == 1 && fft >= window && |w| == window
      && forall m, c, s :: |transform(m, c, s)| == |s|
    }
  }

  function Clamp(v: real): (r: real)
    ensures -1.0 <= r <= 1.0 && (-1.0 <= v <= 1.0 ==> r == v)
  {
    if v < -1.0 then -1.0 else if v > 1.0 then 1.0 else v
  }

  /** Where block m starts in the stream. */
  function Start(cfg: Config, m: nat): nat { m * cfg.R() }

  lemma StartStep(cfg: Config, m: nat)
    ensures Start(cfg, m + 1) == Start(cfg, m) + cfg.R() && Start(cfg, 0) == 0
  {
  }

  /** The windowed input of block m, padded with zeros. */
  ghost function Windowed(cfg: Config, m: nat, c: nat, src: seq<real>): (r: seq<real>)
    requires cfg.Proper() && |src| == cfg.window
    ensures |r| == cfg.fft
  {
    seq(cfg.fft, j requires 0 <= j < cfg.fft => if j < cfg.window then cfg.gain(m, c) * cfg.w[j] * src[j] else 0.0)
  }

  ghost function Filtered(cfg: Config, m: nat, c: nat, src: seq<real>): (r: seq<real>)
    requires cfg.Proper() && |src| == cfg.window
    ensures |r| == cfg.fft
  {
    cfg.transform(m, c, Windowed(cfg, m, c, src))
  }

  ghost predicate HasBlock(cfg: Config, s: seq<real>, m: nat) {
    Start(cfg, m) + cfg.window <= |s|
  }

  /** Block m of a stream: the transform of the window at its offset. */
  ghost function Block(cfg: Config, c: nat, s: seq<real>, m: nat): (r: seq<real>)
    requires cfg.Proper() && HasBlock(cfg, s, m)
    ensures |r| == cfg.fft
  {
    Filtered(cfg, m, c, s[Start(cfg, m)..Start(cfg, m) + cfg.window])
  }

  /** What block m - 1 reaches into block m. */
  ghost function Tail(cfg: Config, c: nat, s: seq<real>, m: nat, j: nat): real
    requires cfg.Proper() && j < cfg.Overlap() && (m > 0 ==> HasBlock(cfg, s, m - 1))
  {
    if m == 0 then 0.0 else Block(cfg, c, s, m - 1)[cfg.R() + j]
  }

  /** The first block is ramped in by the window, which is undone. */
  function Unwindowed(cfg: Config, first: bool, i: nat, v: real): real
    requires i < |cfg.w| && cfg.window >= 1
  {
    if first && i < cfg.Overlap() && cfg.w[i] > FLT_EPSILON then v / cfg.w[i] else v
  }

  /** The sum of block m and the tail of the block before it. */
  ghost function Sum(cfg: Config, c: nat, s: seq<real>, m: nat, i: nat): real
    requires cfg.Proper() && i < cfg.R() && HasBlock(cfg, s, m) && (m > 0 ==> HasBlock(cfg, s, m - 1))
  {
    Block(cfg, c, s, m)[i] + if i < cfg.Overlap() then Tail(cfg, c, s, m, i) else 0.0
  }

  /** The sample that overlap-add gives at position i of block m. */
  ghost function Expected(cfg: Config, c: nat, s: seq<real>, m: nat, i: nat): real
    requires cfg.Proper() && i < cfg.R() && HasBlock(cfg, s, m) && (m > 0 ==> HasBlock(cfg, s, m - 1))
  {
    Clamp(Unwindowed(cfg, m == 0, i, Sum(cfg, c, s, m, i)))
  }

  /** The place of a sample in interleaved data. */
  ghost function Slot(channels: nat, f: nat, c: nat): nat { f * channels + c }

  lemma {:induction false} SlotsRise(channels: nat, f: nat, c: nat, g: nat)
    requires c < channels && f < g
    ensures Slot(channels, f, c) < g * channels
  {
    assert g * channels == (g - 1) * channels + channels;
    if f < g - 1 {
      SlotsRise(channels, f, c, g - 1);
    }
  }

  /** No two samples share a place. */
  lemma SlotsDiffer(channels: nat, f: nat, c: nat, g: nat, d: nat)
    requires c < channels && d < channels
    ensures Slot(channels, f, c) == Slot(channels, g, d) <==> f == g && c == d
  {
    if f < g {
      SlotsRise(channels, f, c, g);
    } else if g < f {
      SlotsRise(channels, g, d, f);
    }
  }

  lemma FewerFrames(channels: nat, f: nat, n: nat)
    requires channels >= 1
    ensures f * channels < n * channels ==> f < n
  {
    if n < f {
      SlotsRise(channels, n, 0, f);
    }
  }

  /** Every place below n * channels is that of a sample of the first n frames. */
  lemma SlotsCover(channels: nat, n: nat, k: nat)
    requires channels >= 1 && k < n * channels
    ensures k == Slot(channels, k / channels, k % channels) && k / channels < n
  {
    FewerFrames(channels, k / channels, n);
  }
}
