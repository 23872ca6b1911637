/** The sliding buffers of module-equalizer-sink.c. */
module EqualizerBlocks {
  import opened OverlapAdd

  /** Part of a row of a buffer. */
  ghost function Row(a: array2<real>, c: nat, from: nat, n: nat): (r: seq<real>)
    requires c < a.Length0 && from + n <= a.Length1
    reads a
    ensures |r| == n && forall i :: 0 <= i < n ==> r[i] == a[c, from + i]
  {
    seq(n, i requires 0 <= i < n reads a => a[c, from + i])
  }

  twostate predicate OtherRowsStay(a: array2<real>, c: nat)
    reads a
  {
    forall d, i | 0 <= d < a.Length0 && 0 <= i < a.Length1 && d != c :: a[d, i] == old(a[d, i])
  }

  // --------------------------------------------------------------------- dsp_logic

  /** The data is windowed and the rest of the work buffer cleared. */
  method WindowData(cfg: Config, m: nat, c: nat, dst: array<real>, src: array2<real>)
    requires cfg.Proper() && dst.Length == cfg.fft && c < src.Length0 && cfg.window <= src.Length1
    modifies dst
    ensures dst[..] == Windowed(cfg, m, c, Row(src, c, 0, cfg.window))
  {
    ghost var row := Row(src, c, 0, cfg.window);
    var x := cfg.gain(m, c);
    for j := 0 to cfg.window
      invariant forall k :: 0 <= k < j ==> dst[k] == Windowed(cfg, m, c, row)[k]
    {
      dst[j] := x * cfg.w[j] * src[c, j];
    }
    for j := cfg.window to cfg.fft
      invariant forall k :: 0 <= k < j ==> dst[k] == Windowed(cfg, m, c, row)[k]
    {
      dst[j] := 0.0;
    }
  }

  /** The transform works in place. */
  method TransformData(cfg: Config, m: nat, c: nat, dst: array<real>)
    requires cfg.Proper() && dst.Length == cfg.fft
    modifies dst
    ensures dst[..] == cfg.transform(m, c, old(dst[..]))
  {
    var t := cfg.transform(m, c, dst[..]);
    for j := 0 to cfg.fft
      invariant dst[..j] == t[..j]
    {
      dst[j] := t[j];
    }
    assert dst[..] == dst[..cfg.fft] && t == t[..cfg.fft];
  }

  /** The tail of the last block is added, and that of this one saved in its place;
      reading ahead in the same buffer is safe because the tail lies beyond R. */
  method AddOverlap(cfg: Config, c: nat, dst: array<real>, overlap: array2<real>)
    requires cfg.Proper() && dst.Length == cfg.fft && c < overlap.Length0 && overlap.Length1 == cfg.Overlap()
    modifies dst, overlap
    ensures forall j :: 0 <= j < cfg.Overlap() ==> dst[j] == old(dst[j]) + old(overlap[c, j])
    ensures forall j :: cfg.Overlap() <= j < cfg.fft ==> dst[j] == old(dst[j])
    ensures forall j :: 0 <= j < cfg.Overlap() ==> overlap[c, j] == old(dst[cfg.R() + j])
    ensures OtherRowsStay(overlap, c)
  {
    var r, n := cfg.R(), cfg.Overlap();
    for j := 0 to n
      invariant forall k :: 0 <= k < j ==> dst[k] == old(dst[k]) + old(overlap[c, k])
      invariant forall k :: j <= k < cfg.fft ==> dst[k] == old(dst[k])
      invariant forall k :: 0 <= k < j ==> overlap[c, k] == old(dst[r + k])
      invariant forall k :: j <= k < n ==> overlap[c, k] == old(overlap[c, k])
      invariant OtherRowsStay(overlap, c)
    {
      dst[j] := dst[j] + overlap[c, j];
      overlap[c, j] := dst[r + j];
    }
  }

  /** The input that later windows need is moved to the front. */
  method ShiftInput(c: nat, src: array2<real>, r: nat, gathered: nat)
    requires c < src.Length0 && r <= gathered <= src.Length1
    modifies src
    ensures forall i :: 0 <= i < gathered - r ==> src[c, i] == old(src[c, i + r])
    ensures OtherRowsStay(src, c)
  {
    for i := 0 to gathered - r
      invariant forall k :: 0 <= k < i ==> src[c, k] == old(src[c, k + r])
      invariant forall k :: i <= k < src.Length1 ==> src[c, k] == old(src[c, k])
      invariant OtherRowsStay(src, c)
    {
      src[c, i] := src[c, i + r];
    }
  }

  /** dsp_logic() for one channel. */
  method DspLogic(cfg: Config, m: nat, c: nat, dst: array<real>, src: array2<real>, overlap: array2<real>,
                  gathered: nat)
    requires cfg.Proper() && dst.Length == cfg.fft && src != overlap
    requires c < src.Length0 && cfg.window <= gathered <= src.Length1
    requires c < overlap.Length0 && overlap.Length1 == cfg.Overlap()
    modifies dst, src, overlap
    ensures
      var b := old(Filtered(cfg, m, c, Row(src, c, 0, cfg.window)));
      && (forall j :: 0 <= j < cfg.fft ==> dst[j] == b[j] + if j < cfg.Overlap() then old(overlap[c, j]) else 0.0)
      && (forall j :: 0 <= j < cfg.Overlap() ==> overlap[c, j] == b[cfg.R() + j])
    ensures forall i :: 0 <= i < gathered - cfg.R() ==> src[c, i] == old(src[c, i + cfg.R()])
    ensures OtherRowsStay(src, c) && OtherRowsStay(overlap, c)
  {
    WindowData(cfg, m, c, dst, src);
    TransformData(cfg, m, c, dst);
    ghost var b := dst[..];
    AddOverlap(cfg, c, dst, overlap);
    ShiftInput(c, src, cfg.R(), gathered);
  }

  // --------------------------------------------------------------- process_samples

  /** All rows of a buffer. */
  ghost function Rows(a: array2<real>): (r: seq<seq<real>>)
    reads a
    ensures |r| == a.Length0 && forall c :: 0 <= c < a.Length0 ==> r[c] == Row(a, c, 0, a.Length1)
  {
    seq(a.Length0, c requires 0 <= c < a.Length0 reads a => Row(a, c, 0, a.Length1))
  }

  /** A channel stands before block m with n samples left: its buffer holds the
      stream from there on, and the tail of the last block was saved. */
  ghost predicate Before(cfg: Config, c: nat, row: seq<real>, tail: seq<real>, s: seq<real>, m: nat, n: nat) {
    && cfg.Proper() && c < cfg.channels && n <= |row| && |tail| == cfg.Overlap()
    && Start(cfg, m) + n <= |s| && (m > 0 ==> HasBlock(cfg, s, m - 1))
    && (forall i :: 0 <= i < n ==> row[i] == s[Start(cfg, m) + i])
    && (forall j :: 0 <= j < cfg.Overlap() ==> tail[j] == Tail(cfg, c, s, m, j))
  }

  /** One channel of one block has been written to its places. */
  ghost predicate Written(cfg: Config, out: seq<real>, frame: nat, c: nat, s: seq<real>, m: nat) {
    && cfg.Proper() && HasBlock(cfg, s, m) && (m > 0 ==> HasBlock(cfg, s, m - 1))
    && forall g | frame <= g < frame + cfg.R() ::
         Slot(cfg.channels, g, c) < |out| && out[Slot(cfg.channels, g, c)] == Expected(cfg, c, s, m, g - frame)
  }

  /** The places of other channels and other frames are the same. */
  ghost predicate OtherPlacesSame(channels: nat, was: seq<real>, now: seq<real>, frame: nat, n: nat, c: nat) {
    && |now| == |was|
    && forall g, d | 0 <= g && 0 <= d < channels && Slot(channels, g, d) < |now|
      && !(d == c && frame <= g < frame + n) ::
         now[Slot(channels, g, d)] == was[Slot(channels, g, d)]
  }

  /** Copies samples to every channels-th place, limiting them. */
  method ClampOut(channels: nat, out: array<real>, frame: nat, c: nat, src: array<real>, n: nat)
    requires c < channels && n <= src.Length && out != src && (frame + n) * channels <= out.Length
    modifies out
    ensures forall g | frame <= g < frame + n ::
              Slot(channels, g, c) < out.Length && out[Slot(channels, g, c)] == Clamp(src[g - frame])
    ensures forall g, d | 0 <= g && 0 <= d < channels && Slot(channels, g, d) < out.Length
            && !(d == c && frame <= g < frame + n) ::
              out[Slot(channels, g, d)] == old(out[Slot(channels, g, d)])
  {
    hide Slot;
    for i := 0 to n
      invariant forall g | frame <= g < frame + i ::
                  Slot(channels, g, c) < out.Length && out[Slot(channels, g, c)] == Clamp(src[g - frame])
      invariant forall g, d | 0 <= g && 0 <= d < channels && Slot(channels, g, d) < out.Length
                && !(d == c && frame <= g < frame + i) ::
                  out[Slot(channels, g, d)] == old(out[Slot(channels, g, d)])
    {
      SlotAt(channels, frame, i, n, c);
      forall g, d | 0 <= g && 0 <= d < channels
        ensures Slot(channels, frame + i, c) == Slot(channels, g, d) <==> frame + i == g && c == d
      {
        SlotsDiffer(channels, frame + i, c, g, d);
      }
      out[frame * channels + c + i * channels] := Clamp(src[i]);
    }
  }

  lemma SlotAt(channels: nat, frame: nat, i: nat, n: nat, c: nat)
    requires c < channels && i < n
    ensures frame * channels + c + i * channels == Slot(channels, frame + i, c) < (frame + n) * channels
  {
    SlotsRise(channels, frame + i, c, frame + n);
  }

  /** The first block is divided by the window again, where that is not too small. */
  method Unwindow(cfg: Config, work: array<real>)
    requires cfg.Proper() && work.Length == cfg.fft
    modifies work
    ensures forall i :: 0 <= i < cfg.R() ==> work[i] == Unwindowed(cfg, true, i, old(work[i]))
  {
    for i := 0 to cfg.Overlap()
      invariant forall k :: 0 <= k < i ==> work[k] == Unwindowed(cfg, true, k, old(work[k]))
      invariant forall k :: i <= k < cfg.fft ==> work[k] == old(work[k])
    {
      work[i] := if cfg.w[i] <= FLT_EPSILON then work[i] else work[i] / cfg.w[i];
    }
  }

  lemma RowIsWindow(cfg: Config, a: array2<real>, c: nat, tail: seq<real>, s: seq<real>, m: nat, n: nat)
    requires c < a.Length0 && n >= cfg.window && Before(cfg, c, Rows(a)[c], tail, s, m, n)
    ensures HasBlock(cfg, s, m) && Filtered(cfg, m, c, Row(a, c, 0, cfg.window)) == Block(cfg, c, s, m)
  {
    assert forall i :: 0 <= i < cfg.window ==> Row(a, c, 0, cfg.window)[i] == Rows(a)[c][i];
    assert Row(a, c, 0, cfg.window) == s[Start(cfg, m)..Start(cfg, m) + cfg.window];
  }

  /** dsp_logic() brings a channel from block m to block m + 1. */
  method FilterChannel(cfg: Config, m: nat, c: nat, work: array<real>, input: array2<real>, overlap: array2<real>,
                       gathered: nat, ghost s: seq<real>)
    requires work.Length == cfg.fft && input != overlap && gathered >= cfg.window && c < input.Length0
             && c < overlap.Length0
    requires Before(cfg, c, Rows(input)[c], Rows(overlap)[c], s, m, gathered)
    modifies work, input, overlap
    ensures HasBlock(cfg, s, m) && forall i :: 0 <= i < cfg.R() ==> work[i] == Sum(cfg, c, s, m, i)
    ensures Before(cfg, c, Rows(input)[c], Rows(overlap)[c], s, m + 1, gathered - cfg.R())
    ensures forall d :: 0 <= d < input.Length0 && d != c ==> Rows(input)[d] == old(Rows(input)[d])
    ensures forall d :: 0 <= d < overlap.Length0 && d != c ==> Rows(overlap)[d] == old(Rows(overlap)[d])
  {
    RowIsWindow(cfg, input, c, Rows(overlap)[c], s, m, gathered);
    assert cfg.Proper() && c < cfg.channels && (m > 0 ==> HasBlock(cfg, s, m - 1)) && gathered <= input.Length1;
    ghost var row, tail, b := Rows(input)[c], Rows(overlap)[c], Block(cfg, c, s, m);
    SumIs(cfg, c, row, tail, s, m, gathered);
    assert |tail| == overlap.Length1 == cfg.Overlap();
    hide Before, HasBlock, Filtered, Start, Block, Sum;
    DspLogic(cfg, m, c, work, input, overlap, gathered);
    assert forall i :: 0 <= i < gathered - cfg.R() ==> Rows(input)[c][i] == row[i + cfg.R()];
    assert forall j :: 0 <= j < cfg.Overlap() ==> Rows(overlap)[c][j] == b[cfg.R() + j];
    BeforeStep(cfg, c, row, Rows(input)[c], tail, Rows(overlap)[c], s, m, gathered);
  }

  lemma SumIs(cfg: Config, c: nat, row: seq<real>, tail: seq<real>, s: seq<real>, m: nat, n: nat)
    requires Before(cfg, c, row, tail, s, m, n) && HasBlock(cfg, s, m)
    ensures forall i :: 0 <= i < cfg.R() ==>
              Sum(cfg, c, s, m, i) == Block(cfg, c, s, m)[i] + if i < cfg.Overlap() then tail[i] else 0.0
  {
    hide Block, Start;
  }

  lemma BeforeStep(cfg: Config, c: nat, row: seq<real>, row': seq<real>, tail: seq<real>, tail': seq<real>,
                   s: seq<real>, m: nat, n: nat)
    requires Before(cfg, c, row, tail, s, m, n) && n >= cfg.window && HasBlock(cfg, s, m)
    requires |row'| == |row| && forall i :: 0 <= i < n - cfg.R() ==> row'[i] == row[i + cfg.R()]
    requires |tail'| == |tail| && forall j :: 0 <= j < cfg.Overlap() ==> tail'[j] == Block(cfg, c, s, m)[cfg.R() + j]
    ensures Before(cfg, c, row', tail', s, m + 1, n - cfg.R())
  {
    StartStep(cfg, m);
    hide Block, Start;
  }

  /** The work on one channel of block m. */
  method ProcessChannel(cfg: Config, m: nat, first: bool, c: nat, frame: nat, work: array<real>, input: array2<real>,
                        overlap: array2<real>, out: array<real>, gathered: nat, ghost s: seq<real>)
    requires work.Length == cfg.fft && input != overlap && out != work && first == (m == 0)
    requires gathered >= cfg.window && c < input.Length0 && c < overlap.Length0
    requires (frame + cfg.R()) * cfg.channels <= out.Length
    requires Before(cfg, c, Rows(input)[c], Rows(overlap)[c], s, m, gathered)
    modifies work, input, overlap, out
    ensures Before(cfg, c, Rows(input)[c], Rows(overlap)[c], s, m + 1, gathered - cfg.R())
    ensures forall d :: 0 <= d < input.Length0 && d != c ==> Rows(input)[d] == old(Rows(input)[d])
    ensures forall d :: 0 <= d < overlap.Length0 && d != c ==> Rows(overlap)[d] == old(Rows(overlap)[d])
    ensures Written(cfg, out[..], frame, c, s, m)
            && OtherPlacesSame(cfg.channels, old(out[..]), out[..], frame, cfg.R(), c)
  {
    assert cfg.Proper() && c < cfg.channels && (m > 0 ==> HasBlock(cfg, s, m - 1));
    hide Slot, Sum, Start, Clamp, Before;
    FilterChannel(cfg, m, c, work, input, overlap, gathered, s);
    if first {
      Unwindow(cfg, work);
    }
    assert forall i :: 0 <= i < cfg.R() ==> Clamp(work[i]) == Expected(cfg, c, s, m, i);
    ClampOut(cfg.channels, out, frame, c, work, cfg.R());
  }

  /** All channels stand before block m. */
  ghost predicate AllBefore(cfg: Config, rows: seq<seq<real>>, tails: seq<seq<real>>, streams: seq<seq<real>>, m: nat,
                            n: nat) {
    && cfg.Proper() && |rows| == |tails| == |streams| == cfg.channels
    && forall c | 0 <= c < cfg.channels :: Before(cfg, c, rows[c], tails[c], streams[c], m, n)
  }

  /** Block m has been written for all channels. */
  ghost predicate AllWritten(cfg: Config, out: seq<real>, frame: nat, streams: seq<seq<real>>, m: nat) {
    |streams| == cfg.channels && forall c | 0 <= c < cfg.channels :: Written(cfg, out, frame, c, streams[c], m)
  }

  /** The first c channels are through with block m, the others stand before it. */
  ghost predicate Halfway(cfg: Config, rows: seq<seq<real>>, tails: seq<seq<real>>, streams: seq<seq<real>>, m: nat,
                          n: nat, frame: nat, out: seq<real>, c: nat) {
    && cfg.Proper() && n >= cfg.window && |rows| == |tails| == |streams| == cfg.channels && c <= cfg.channels
    && (forall d | 0 <= d < c :: Before(cfg, d, rows[d], tails[d], streams[d], m + 1, n - cfg.R()))
    && (forall d | 0 <= d < c :: Written(cfg, out, frame, d, streams[d], m))
    && (forall d | c <= d < cfg.channels :: Before(cfg, d, rows[d], tails[d], streams[d], m, n))
  }

  lemma WrittenStays(cfg: Config, was: seq<real>, now: seq<real>, frame: nat, c: nat, d: nat, s: seq<real>, m: nat)
    requires d < cfg.channels && d != c && Written(cfg, was, frame, d, s, m)
    requires OtherPlacesSame(cfg.channels, was, now, frame, cfg.R(), c)
    ensures Written(cfg, now, frame, d, s, m)
  {
    hide Slot, Expected, HasBlock;
  }

  /** The places of frames outside the block are the same. */
  ghost predicate OtherFramesSame(cfg: Config, was: seq<real>, now: seq<real>, frame: nat) {
    && |now| == |was|
    && forall g, d | 0 <= g && 0 <= d < cfg.channels && Slot(cfg.channels, g, d) < |now|
      && !(frame <= g < frame + cfg.R()) ::
         now[Slot(cfg.channels, g, d)] == was[Slot(cfg.channels, g, d)]
  }

  /** The next channel of block m. */
  method ProcessNext(cfg: Config, m: nat, first: bool, c: nat, frame: nat, work: array<real>, input: array2<real>,
                     overlap: array2<real>, out: array<real>, gathered: nat, ghost streams: seq<seq<real>>)
    requires work.Length == cfg.fft && input != overlap && out != work && first == (m == 0) && c < cfg.channels
    requires (frame + cfg.R()) * cfg.channels <= out.Length
    requires Halfway(cfg, Rows(input), Rows(overlap), streams, m, gathered, frame, out[..], c)
    modifies work, input, overlap, out
    ensures Halfway(cfg, Rows(input), Rows(overlap), streams, m, gathered, frame, out[..], c + 1)
    ensures OtherFramesSame(cfg, old(out[..]), out[..], frame)
  {
    hide Slot, Before, Written, Row;
    ghost var was := out[..];
    ProcessChannel(cfg, m, first, c, frame, work, input, overlap, out, gathered, streams[c]);
    forall d | 0 <= d < c
      ensures Written(cfg, out[..], frame, d, streams[d], m)
    {
      WrittenStays(cfg, was, out[..], frame, c, d, streams[d], m);
    }
  }

  /** The work on all channels of block m. */
  method ProcessBlock(cfg: Config, m: nat, first: bool, frame: nat, work: array<real>, input: array2<real>,
                      overlap: array2<real>, out: array<real>, gathered: nat, ghost streams: seq<seq<real>>)
    requires work.Length == cfg.fft && input != overlap && out != work && first == (m == 0) && gathered >= cfg.window
    requires (frame + cfg.R()) * cfg.channels <= out.Length
    requires AllBefore(cfg, Rows(input), Rows(overlap), streams, m, gathered)
    modifies work, input, overlap, out
    ensures AllBefore(cfg, Rows(input), Rows(overlap), streams, m + 1, gathered - cfg.R())
    ensures AllWritten(cfg, out[..], frame, streams, m) && OtherFramesSame(cfg, old(out[..]), out[..], frame)
  {
    hide Slot, Before, Written, Rows;
    for c := 0 to cfg.channels
      invariant Halfway(cfg, Rows(input), Rows(overlap), streams, m, gathered, frame, out[..], c)
      invariant OtherFramesSame(cfg, old(out[..]), out[..], frame)
    {
      ghost var was := out[..];
      ProcessNext(cfg, m, first, c, frame, work, input, overlap, out, gathered, streams);
    }
  }

  /** The blocks from m on have been written, n of them, from the start of the buffer. */
  ghost predicate Blocks(cfg: Config, out: seq<real>, streams: seq<seq<real>>, m: nat, n: nat) {
    forall k | 0 <= k < n :: AllWritten(cfg, out, Start(cfg, k), streams, m + k)
  }

  lemma {:induction false} StartsRise(cfg: Config, k: nat, n: nat)
    requires k < n
    ensures Start(cfg, k) + cfg.R() <= Start(cfg, n)
  {
    StartStep(cfg, n - 1);
    if k < n - 1 {
      StartsRise(cfg, k, n - 1);
    }
  }

  lemma EarlierBlockStays(cfg: Config, was: seq<real>, now: seq<real>, frame: nat, earlier: nat,
                          streams: seq<seq<real>>, m: nat)
    requires OtherFramesSame(cfg, was, now, frame) && earlier + cfg.R() <= frame
             && AllWritten(cfg, was, earlier, streams, m)
    ensures AllWritten(cfg, now, earlier, streams, m)
  {
    hide Slot, Expected, HasBlock;
  }

  lemma BlocksGrow(cfg: Config, was: seq<real>, now: seq<real>, streams: seq<seq<real>>, m: nat, n: nat)
    requires Blocks(cfg, was, streams, m, n) && OtherFramesSame(cfg, was, now, Start(cfg, n))
    requires AllWritten(cfg, now, Start(cfg, n), streams, m + n)
    ensures Blocks(cfg, now, streams, m, n + 1)
  {
    hide AllWritten, OtherFramesSame, Start;
    forall k | 0 <= k < n
      ensures AllWritten(cfg, now, Start(cfg, k), streams, m + k)
    {
      StartsRise(cfg, k, n);
      EarlierBlockStays(cfg, was, now, Start(cfg, n), Start(cfg, k), streams, m + k);
    }
  }

  lemma PlaceMoves(channels: nat, out: seq<real>, piece: seq<real>, base: nat, size: nat, g: nat, c: nat)
    requires |out| == base * channels && c < channels && base <= g < base + size && size * channels <= |piece|
    ensures Slot(channels, g, c) < |out| + size * channels && Slot(channels, g - base, c) < |piece|
    ensures (out + piece[..size * channels])[Slot(channels, g, c)] == piece[Slot(channels, g - base, c)]
  {
    SlotsRise(channels, g - base, c, size);
    SlotMoves(channels, base, g - base, c);
    hide Slot;
  }

  lemma ChannelMoves(cfg: Config, out: seq<real>, piece: seq<real>, base: nat, size: nat, frame: nat, c: nat,
                     s: seq<real>, m: nat)
    requires Written(cfg, piece, frame, c, s, m) && |out| == base * cfg.channels && c < cfg.channels
    requires frame + cfg.R() <= size && size * cfg.channels <= |piece|
    ensures Written(cfg, out + piece[..size * cfg.channels], base + frame, c, s, m)
  {
    hide Expected, HasBlock, Slot;
    var now := out + piece[..size * cfg.channels];
    forall g | base + frame <= g < base + frame + cfg.R()
      ensures Slot(cfg.channels, g, c) < |now|
              && now[Slot(cfg.channels, g, c)] == Expected(cfg, c, s, m, g - (base + frame))
    {
      PlaceMoves(cfg.channels, out, piece, base, size, g, c);
    }
  }

  /** A block written after a whole number of frames, in a longer buffer. */
  lemma BlockMoves(cfg: Config, out: seq<real>, piece: seq<real>, base: nat, size: nat, frame: nat,
                   streams: seq<seq<real>>, m: nat)
    requires AllWritten(cfg, piece, frame, streams, m) && |out| == base * cfg.channels
    requires frame + cfg.R() <= size && size * cfg.channels <= |piece|
    ensures AllWritten(cfg, out + piece[..size * cfg.channels], base + frame, streams, m)
  {
    hide Written;
    forall c | 0 <= c < cfg.channels
      ensures Written(cfg, out + piece[..size * cfg.channels], base + frame, c, streams[c], m)
    {
      ChannelMoves(cfg, out, piece, base, size, frame, c, streams[c], m);
    }
  }

  lemma SlotMoves(channels: nat, base: nat, g: nat, c: nat)
    ensures Slot(channels, base + g, c) == base * channels + Slot(channels, g, c)
  {
  }

  lemma BlockStays(cfg: Config, out: seq<real>, more: seq<real>, frame: nat, streams: seq<seq<real>>, m: nat)
    requires AllWritten(cfg, out, frame, streams, m)
    ensures AllWritten(cfg, out + more, frame, streams, m)
  {
    hide Expected, HasBlock, Slot;
    forall c | 0 <= c < cfg.channels
      ensures Written(cfg, out + more, frame, c, streams[c], m)
    {
      assert Written(cfg, out, frame, c, streams[c], m);
    }
  }

  /** Blocks written to a buffer, appended to all blocks before them. */
  lemma BlocksAppend(cfg: Config, out: seq<real>, piece: seq<real>, streams: seq<seq<real>>, m: nat, n: nat)
    requires Blocks(cfg, out, streams, 0, m) && |out| == Start(cfg, m) * cfg.channels
    requires Blocks(cfg, piece, streams, m, n) && Start(cfg, n) * cfg.channels <= |piece|
    ensures Blocks(cfg, out + piece[..Start(cfg, n) * cfg.channels], streams, 0, m + n)
    ensures |out + piece[..Start(cfg, n) * cfg.channels]| == Start(cfg, m + n) * cfg.channels
  {
    hide AllWritten, Start;
    var now := out + piece[..Start(cfg, n) * cfg.channels];
    StartsAdd(cfg, m, n);
    forall k | 0 <= k < m + n
      ensures AllWritten(cfg, now, Start(cfg, k), streams, 0 + k)
    {
      if k < m {
        BlockStays(cfg, out, piece[..Start(cfg, n) * cfg.channels], Start(cfg, k), streams, 0 + k);
      } else {
        StartsRise(cfg, k - m, n);
        StartsAdd(cfg, m, k - m);
        BlockMoves(cfg, out, piece, Start(cfg, m), Start(cfg, n), Start(cfg, k - m), streams, m + (k - m));
      }
    }
  }

  lemma StartsAdd(cfg: Config, m: nat, n: nat)
    ensures Start(cfg, m + n) == Start(cfg, m) + Start(cfg, n)
    ensures Start(cfg, m + n) * cfg.channels == Start(cfg, m) * cfg.channels + Start(cfg, n) * cfg.channels
  {
  }

  // --------------------------------------------------------- streams that agree for a while

  ghost predicate AgreeTo(s: seq<real>, t: seq<real>, x: nat) {
    x <= |s| && x <= |t| && s[..x] == t[..x]
  }

  /** How far the blocks before m reach. */
  ghost function Reach(cfg: Config, m: nat): nat
    requires cfg.Proper()
  {
    if m == 0 then 0 else Start(cfg, m) + cfg.Overlap()
  }

  lemma BlockAgrees(cfg: Config, c: nat, s: seq<real>, t: seq<real>, k: nat, m: nat)
    requires cfg.Proper() && k < m && AgreeTo(s, t, Reach(cfg, m))
    ensures HasBlock(cfg, s, k) && HasBlock(cfg, t, k) && Block(cfg, c, s, k) == Block(cfg, c, t, k)
  {
    StartsRise(cfg, k, m);
    var a, x := Start(cfg, k), Reach(cfg, m);
    assert a + cfg.window <= x;
    assert s[a..a + cfg.window] == s[..x][a..a + cfg.window] == t[..x][a..a + cfg.window] == t[a..a + cfg.window];
    hide Filtered;
  }

  lemma ExpectedAgrees(cfg: Config, c: nat, s: seq<real>, t: seq<real>, k: nat, m: nat, i: nat)
    requires cfg.Proper() && k < m && AgreeTo(s, t, Reach(cfg, m)) && i < cfg.R()
    requires HasBlock(cfg, s, k) && HasBlock(cfg, t, k)
    requires k > 0 ==> HasBlock(cfg, s, k - 1) && HasBlock(cfg, t, k - 1)
    ensures Expected(cfg, c, s, k, i) == Expected(cfg, c, t, k, i)
  {
    BlockAgrees(cfg, c, s, t, k, m);
    if k > 0 {
      BlockAgrees(cfg, c, s, t, k - 1, m);
    }
    hide Block, HasBlock, Reach;
  }

  lemma WrittenAgrees(cfg: Config, out: seq<real>, frame: nat, c: nat, s: seq<real>, t: seq<real>, k: nat, m: nat)
    requires k < m && Written(cfg, out, frame, c, s, k) && AgreeTo(s, t, Reach(cfg, m))
    ensures Written(cfg, out, frame, c, t, k)
  {
    BlockAgrees(cfg, c, s, t, k, m);
    if k > 0 {
      BlockAgrees(cfg, c, s, t, k - 1, m);
    }
    hide HasBlock, Expected, Slot, Reach, Block, AgreeTo;
    forall i | 0 <= i < cfg.R()
      ensures Expected(cfg, c, s, k, i) == Expected(cfg, c, t, k, i)
    {
      ExpectedAgrees(cfg, c, s, t, k, m, i);
    }
  }

  /** What has been put out does not depend on anything beyond its reach. */
  lemma BlocksAgree(cfg: Config, out: seq<real>, streams: seq<seq<real>>, streams': seq<seq<real>>, m: nat)
    requires cfg.Proper() && |streams| == |streams'| == cfg.channels && Blocks(cfg, out, streams, 0, m)
    requires forall c :: 0 <= c < cfg.channels ==> AgreeTo(streams[c], streams'[c], Reach(cfg, m))
    ensures Blocks(cfg, out, streams', 0, m)
  {
    hide Written, AgreeTo, Reach, Start;
    forall k | 0 <= k < m
      ensures AllWritten(cfg, out, Start(cfg, k), streams', 0 + k)
    {
      assert AllWritten(cfg, out, Start(cfg, k), streams, 0 + k);
      forall c | 0 <= c < cfg.channels
        ensures Written(cfg, out, Start(cfg, k), c, streams'[c], k)
      {
        WrittenAgrees(cfg, out, Start(cfg, k), c, streams[c], streams'[c], k, m);
      }
    }
  }

  /** A buffer that holds n samples of another stream with the same past. */
  lemma BeforeAgrees(cfg: Config, c: nat, row: seq<real>, row': seq<real>, tail: seq<real>, s: seq<real>, t: seq<real>,
                     m: nat, n: nat, n': nat)
    requires Before(cfg, c, row, tail, s, m, n) && AgreeTo(s, t, Reach(cfg, m))
    requires n' <= |row'| && Start(cfg, m) + n' <= |t| && forall i :: 0 <= i < n' ==> row'[i] == t[Start(cfg, m) + i]
    ensures Before(cfg, c, row', tail, t, m, n')
  {
    if m > 0 {
      BlockAgrees(cfg, c, s, t, m - 1, m);
    }
    hide HasBlock, Block, Start, Reach, AgreeTo;
  }
}
