/** The pop callback of module-equalizer-sink.c with its buffers. */
module EqualizerSink {
  import opened EqualizerBlocks
  import opened EqualizerCounts
  import opened OverlapAdd
  import opened Reconstruction

  /** One channel of interleaved data, limited. */
  ghost function Deinterleaved(channels: nat, chunk: seq<real>, n: nat, c: nat): (r: seq<real>)
    requires c < channels && n * channels <= |chunk|
    ensures |r| == n
  {
    seq(n, i requires 0 <= i < n => SlotsRise(channels, i, c, n); Clamp(chunk[Slot(channels, i, c)]))
  }

  /** Every sample of the data goes to the channel and the frame that its place stands for. */
  lemma DeinterleavedIs(channels: nat, chunk: seq<real>, n: nat, k: nat)
    requires channels >= 1 && k < n * channels <= |chunk|
    ensures k / channels < n && Deinterleaved(channels, chunk, n, k % channels)[k / channels] == Clamp(chunk[k])
  {
    SlotsCover(channels, n, k);
    hide Slot;
  }

  ghost function Extended(cfg: Config, streams: seq<seq<real>>, chunk: seq<real>, n: nat): (r: seq<seq<real>>)
    requires |streams| == cfg.channels && n * cfg.channels <= |chunk|
    ensures |r| == cfg.channels
    ensures forall c :: 0 <= c < cfg.channels ==> r[c] == streams[c] + Deinterleaved(cfg.channels, chunk, n, c)
  {
    seq(cfg.channels, c requires 0 <= c < cfg.channels => streams[c] + Deinterleaved(cfg.channels, chunk, n, c))
  }

  /** Everything beyond the overlap of the next block replaced by silence. */
  ghost function Forgotten(cfg: Config, streams: seq<seq<real>>, keep: nat): (r: seq<seq<real>>)
    requires forall c :: 0 <= c < |streams| ==> keep <= |streams[c]|
    ensures |r| == |streams|
    ensures forall c :: 0 <= c < |streams| ==> r[c] == streams[c][..keep] + seq(|streams[c]| - keep, _ => 0.0)
  {
    seq(|streams|, c requires 0 <= c < |streams| => streams[c][..keep] + seq(|streams[c]| - keep, _ => 0.0))
  }

  /** The inner loop of input_buffer() for one channel. */
  method ClampIn(channels: nat, input: array2<real>, c: nat, from: nat, chunk: seq<real>, n: nat)
    requires c < channels == input.Length0 && from + n <= input.Length1 && n * channels <= |chunk|
    modifies input
    ensures Row(input, c, from, n) == Deinterleaved(channels, chunk, n, c)
    ensures forall d, i | 0 <= d < channels && 0 <= i < input.Length1 && !(d == c && from <= i < from + n) ::
              input[d, i] == old(input[d, i])
  {
    for i := 0 to n
      invariant forall k :: 0 <= k < i ==> input[c, from + k] == Deinterleaved(channels, chunk, n, c)[k]
      invariant forall d, k | 0 <= d < channels && 0 <= k < input.Length1 && !(d == c && from <= k < from + i) ::
                  input[d, k] == old(input[d, k])
    {
      SlotsRise(channels, i, c, n);
      input[c, from + i] := Clamp(chunk[i * channels + c]);
    }
  }

  /** The copying in input_buffer(). */
  method TakeIn(channels: nat, input: array2<real>, from: nat, chunk: seq<real>, n: nat)
    requires channels == input.Length0 && from + n <= input.Length1 && n * channels <= |chunk|
    modifies input
    ensures forall c | 0 <= c < channels :: Row(input, c, from, n) == Deinterleaved(channels, chunk, n, c)
    ensures forall c, i | 0 <= c < channels && 0 <= i < from :: input[c, i] == old(input[c, i])
  {
    for c := 0 to channels
      invariant forall d | 0 <= d < c :: Row(input, d, from, n) == Deinterleaved(channels, chunk, n, d)
      invariant forall d, i | 0 <= d < channels && 0 <= i < from :: input[d, i] == old(input[d, i])
    {
      hide Deinterleaved;
      ClampIn(channels, input, c, from, chunk, n);
    }
  }

  /** The same, seen as rows. */
  method TakeRowsIn(channels: nat, input: array2<real>, from: nat, chunk: seq<real>, n: nat)
    requires channels == input.Length0 && from + n <= input.Length1 && n * channels <= |chunk|
    modifies input
    ensures forall c :: 0 <= c < channels ==>
              && |Rows(input)[c]| == input.Length1 && Rows(input)[c][..from] == old(Rows(input)[c])[..from]
              && Rows(input)[c][from..from + n] == Deinterleaved(channels, chunk, n, c)
  {
    hide Deinterleaved;
    TakeIn(channels, input, from, chunk, n);
    forall c | 0 <= c < channels
      ensures Rows(input)[c][from..from + n] == Deinterleaved(channels, chunk, n, c)
    {
      assert Rows(input)[c][from..from + n] == Row(input, c, from, n);
    }
  }

  lemma ReachBound(cfg: Config, s: seq<real>, m: nat)
    requires cfg.Proper() && (m > 0 ==> HasBlock(cfg, s, m - 1))
    ensures Reach(cfg, m) <= |s|
  {
    if m > 0 {
      StartStep(cfg, m - 1);
    }
  }

  /** A row holds the first n samples of a stream from block m on. */
  ghost predicate Holds(cfg: Config, row: seq<real>, s: seq<real>, m: nat, n: nat) {
    n <= |row| && Start(cfg, m) + n <= |s| && forall i :: 0 <= i < n ==> row[i] == s[Start(cfg, m) + i]
  }

  /** Replacing buffers and streams beyond the reach of the past. */
  lemma AllBeforeAgrees(cfg: Config, rows: seq<seq<real>>, rows': seq<seq<real>>, tails: seq<seq<real>>,
                        streams: seq<seq<real>>, streams': seq<seq<real>>, m: nat, n: nat, n': nat)
    requires AllBefore(cfg, rows, tails, streams, m, n) && |rows'| == |streams'| == cfg.channels
    requires forall c :: 0 <= c < cfg.channels ==> AgreeTo(streams[c], streams'[c], Reach(cfg, m))
    requires forall c :: 0 <= c < cfg.channels ==> Holds(cfg, rows'[c], streams'[c], m, n')
    ensures AllBefore(cfg, rows', tails, streams', m, n')
  {
    hide Before, AgreeTo, Reach, Start;
    forall c | 0 <= c < cfg.channels
      ensures Before(cfg, c, rows'[c], tails[c], streams'[c], m, n')
    {
      BeforeAgrees(cfg, c, rows[c], rows'[c], tails[c], streams[c], streams'[c], m, n, n');
    }
  }

  method CopyOverlap(dst: array2<real>, src: array2<real>, channels: nat, n: nat)
    requires dst != src && channels == dst.Length0 == src.Length0 && n <= dst.Length1 && n <= src.Length1
    modifies dst
    ensures forall c, i | 0 <= c < channels && 0 <= i < n :: dst[c, i] == src[c, i]
    ensures forall c, i | 0 <= c < channels && n <= i < dst.Length1 :: dst[c, i] == old(dst[c, i])
  {
    for c := 0 to channels
      invariant forall d, i | 0 <= d < c && 0 <= i < n :: dst[d, i] == src[d, i]
      invariant forall d, i | 0 <= d < channels && n <= i < dst.Length1 :: dst[d, i] == old(dst[d, i])
    {
      for k := 0 to n
        invariant forall d, i | 0 <= d < c && 0 <= i < n :: dst[d, i] == src[d, i]
        invariant forall i | 0 <= i < k :: dst[c, i] == src[c, i]
        invariant forall d, i | 0 <= d < channels && n <= i < dst.Length1 :: dst[d, i] == old(dst[d, i])
      {
        dst[c, k] := src[c, k];
      }
    }
  }

  /** Larger buffers, with the first n samples of the old ones. */
  method GrownRows(cfg: Config, input: array2<real>, min: nat, n: nat) returns (tmp: array2<real>)
    requires input.Length0 == cfg.channels && n <= input.Length1 <= min
    ensures fresh(tmp) && tmp.Length0 == cfg.channels && tmp.Length1 == min
    ensures IsGrown(cfg.channels, Rows(input), Rows(tmp), min, n)
  {
    tmp := new real[cfg.channels, min]((c, i) => 0.0);
    CopyOverlap(tmp, input, cfg.channels, n);
  }

  ghost predicate IsGrown(channels: nat, rows: seq<seq<real>>, rows': seq<seq<real>>, min: nat, n: nat) {
    && |rows| == |rows'| == channels
    && (forall c | 0 <= c < channels :: |rows'[c]| == min && n <= |rows[c]| && n <= min)
    && forall c, i | 0 <= c < channels && 0 <= i < min :: rows'[c][i] == if i < n then rows[c][i] else 0.0
  }

  /** New buffers that hold the overlap and silence after it. */
  lemma KeepsPast(cfg: Config, rows: seq<seq<real>>, rows': seq<seq<real>>, tails: seq<seq<real>>,
                  streams: seq<seq<real>>, kept: seq<seq<real>>, m: nat, g: nat, min: nat)
    requires AllBefore(cfg, rows, tails, streams, m, g) && g <= min
    requires forall c :: 0 <= c < cfg.channels ==> |streams[c]| == Start(cfg, m) + g
    requires if m == 0 then g == 0 && kept == streams
             else g >= cfg.Overlap() && kept == Forgotten(cfg, streams, Start(cfg, m) + cfg.Overlap())
    requires IsGrown(cfg.channels, rows, rows', min, if m == 0 then 0 else cfg.Overlap())
    ensures forall c :: 0 <= c < cfg.channels ==> AgreeTo(streams[c], kept[c], Reach(cfg, m))
    ensures forall c :: 0 <= c < cfg.channels ==> Holds(cfg, rows'[c], kept[c], m, g)
  {
    forall c | 0 <= c < cfg.channels
      ensures AgreeTo(streams[c], kept[c], Reach(cfg, m)) && Holds(cfg, rows'[c], kept[c], m, g)
    {
      assert Before(cfg, c, rows[c], tails[c], streams[c], m, g);
      hide Start, Before;
    }
  }

  /** Growing the buffers keeps everything but the samples beyond the overlap. */
  lemma Regrown(cfg: Config, rows: seq<seq<real>>, rows': seq<seq<real>>, tails: seq<seq<real>>,
                streams: seq<seq<real>>, kept: seq<seq<real>>, out: seq<real>, m: nat, g: nat, min: nat)
    requires AllBefore(cfg, rows, tails, streams, m, g) && g <= min && Blocks(cfg, out, streams, 0, m)
    requires forall c :: 0 <= c < cfg.channels ==> |streams[c]| == Start(cfg, m) + g
    requires if m == 0 then g == 0 && kept == streams
             else g >= cfg.Overlap() && kept == Forgotten(cfg, streams, Start(cfg, m) + cfg.Overlap())
    requires IsGrown(cfg.channels, rows, rows', min, if m == 0 then 0 else cfg.Overlap())
    ensures AllBefore(cfg, rows', tails, kept, m, g) && Blocks(cfg, out, kept, 0, m)
    ensures |kept| == cfg.channels && forall c :: 0 <= c < cfg.channels ==> |kept[c]| == |streams[c]|
  {
    KeepsPast(cfg, rows, rows', tails, streams, kept, m, g, min);
    hide Before, Blocks, Start, Reach, AgreeTo, Holds;
    AllBeforeAgrees(cfg, rows, rows', tails, streams, kept, m, g, g);
    BlocksAgree(cfg, out, streams, kept, m);
  }

  class Equalizer {
    const cfg: Config
    const work: array<real>
    const overlap: array2<real>
    var input: array2<real>
    var gathered: nat
    var first: bool
    var output: array<real>
    var outputQ: seq<real>

    /** The number of blocks processed. */
    var blocks: nat
    /** All samples taken in, per channel, and what became of them in the buffers. */
    ghost var received: seq<seq<real>>
    ghost var heard: seq<seq<real>>
    /** All samples ever put into the output queue. */
    ghost var produced: seq<real>

    ghost predicate Sound()
      reads this, work, overlap, input, output
    {
      && cfg.Proper() && work.Length == cfg.fft && input != overlap && output != work && first == (blocks == 0)
      && |received| == |heard| == cfg.channels
    }

    /** The buffers hold what was heard from the next block on, and all that was put
        out is the overlap-add of what was heard. */
    ghost predicate Valid()
      reads this, work, overlap, input, output
    {
      && Sound()
      && AllBefore(cfg, Rows(input), Rows(overlap), heard, blocks, gathered)
      && (forall c | 0 <= c < cfg.channels :: |heard[c]| == |received[c]| == Start(cfg, blocks) + gathered)
      && Blocks(cfg, produced, heard, 0, blocks) && |produced| == Start(cfg, blocks) * cfg.channels
    }

    /** pa__init() clears all buffers; the input buffers come with the first pop. */
    constructor (config: Config)
      requires config.Proper()
      ensures Valid() && cfg == config && State() == Counts(true, 0, 0) && outputQ == []
      ensures fresh(work) && fresh(overlap) && fresh(input) && fresh(output)
      ensures received == heard == seq(config.channels, _ => []) && produced == []
    {
      cfg := config;
      work := new real[config.fft](_ => 0.0);
      overlap := new real[config.channels, config.Overlap()]((c, j) => 0.0);
      input := new real[config.channels, 0];
      output := new real[0];
      gathered, first, blocks, outputQ := 0, true, 0, [];
      received, heard, produced := seq(config.channels, _ => []), seq(config.channels, _ => []), [];
    }

    function State(): Counts
      reads this
    {
      Counts(first, gathered, input.Length1)
    }

    /** The frames taken in are the frames put out and those still in the buffers. */
    lemma FramesAddUp(c: nat)
      requires Valid() && c < cfg.channels
      ensures |received[c]| * cfg.channels == |produced| + gathered * cfg.channels
    {
      hide AllBefore, Blocks, Start;
    }

    /** What was put out for a channel of a block is the overlap-add of what was heard. */
    lemma OutputIsOverlapAdd(m: nat, i: nat, c: nat)
      requires Valid() && m < blocks && i < cfg.R() && c < cfg.channels
      ensures HasBlock(cfg, heard[c], m) && (m > 0 ==> HasBlock(cfg, heard[c], m - 1))
      ensures Slot(cfg.channels, Start(cfg, m) + i, c) < |produced|
      ensures produced[Slot(cfg.channels, Start(cfg, m) + i, c)] == Expected(cfg, c, heard[c], m, i)
    {
      assert AllWritten(cfg, produced, Start(cfg, m), heard, 0 + m);
      assert Written(cfg, produced, Start(cfg, m), c, heard[c], m);
      hide Expected, HasBlock, Slot, Start;
    }

    /** And nothing else was put out. */
    lemma EverySample(k: nat) returns (m: nat, i: nat, c: nat)
      requires Valid() && k < |produced|
      ensures m < blocks && i < cfg.R() && c < cfg.channels && k == Slot(cfg.channels, Start(cfg, m) + i, c)
    {
      SoundSizes();
      hide Valid, Start, Slot;
      var f := k / cfg.channels;
      SlotsCover(cfg.channels, Start(cfg, blocks), k);
      BlockOf(cfg, f, blocks);
      m, i, c := f / cfg.R(), f % cfg.R(), k % cfg.channels;
    }

    /** With a flat filter the equalizer only amplifies: every sample put out, except
        where the window is too small at the very start, is that of the stream, times the
        gain and limited. */
    lemma FlatFilterAmplifies(m: nat, i: nat, c: nat, g: real)
      requires Valid() && m < blocks && i < cfg.R() && c < cfg.channels
      requires Flat(cfg, c, g) && Cola(cfg) && (m == 0 ==> cfg.w[i] > FLT_EPSILON)
      ensures Start(cfg, m) + i < |heard[c]| && Slot(cfg.channels, Start(cfg, m) + i, c) < |produced|
      ensures produced[Slot(cfg.channels, Start(cfg, m) + i, c)] == Clamp(Amplified(g, heard[c][Start(cfg, m) + i]))
    {
      hide Valid, Sound, Expected, Slot, Flat, Cola, Start, Clamp, HasBlock, Amplified;
      SoundSizes();
      OutputIsOverlapAdd(m, i, c);
      FlatExpected(cfg, c, heard[c], m, i, g);
    }

    // ------------------------------------------------------------- process_samples

    /** flatten_to_memblockq(): the output is queued in pieces of limited size. */
    method Flatten(length: nat, mbs: nat)
      requires length <= output.Length && mbs >= 1
      modifies this`outputQ
      ensures outputQ == old(outputQ) + output[..length]
    {
      var i := 0;
      while i < length
        invariant 0 <= i <= length && outputQ == old(outputQ) + output[..i]
      {
        var n := if length - i < mbs then length - i else mbs;
        assert output[..i + n] == output[..i] + output[i..i + n];
        outputQ := outputQ + output[i..i + n];
        i := i + n;
      }
    }

    /** The loop of process_samples(). */
    method ProcessBlocks(iterations: nat)
      requires Valid() && Start(cfg, iterations) + cfg.Overlap() <= gathered
      requires Start(cfg, iterations) * cfg.channels <= output.Length
      modifies this`gathered, this`first, this`blocks, work, overlap, input, output
      ensures Sound() && blocks == old(blocks) + iterations && gathered == old(gathered) - Start(cfg, iterations)
      ensures AllBefore(cfg, Rows(input), Rows(overlap), heard, blocks, gathered)
      ensures Blocks(cfg, output[..], heard, old(blocks), iterations)
    {
      hide AllBefore, Blocks, AllWritten, Rows, OtherFramesSame, Start;
      StartStep(cfg, 0);
      ghost var b, g := blocks, gathered;
      NoBlocks(cfg, output[..], heard, b);
      for iter := 0 to iterations
        invariant Sound() && blocks == b + iter && gathered == g - Start(cfg, iter)
        invariant AllBefore(cfg, Rows(input), Rows(overlap), heard, blocks, gathered)
        invariant Blocks(cfg, output[..], heard, b, iter)
      {
        StartStep(cfg, iter);
        RoomForBlock(cfg, iter, iterations);
        ghost var was := output[..];
        ProcessBlock(cfg, blocks, first, Start(cfg, iter), work, input, overlap, output, gathered, heard);
        BlocksGrow(cfg, was, output[..], heard, b, iter);
        first := false;
        gathered := gathered - cfg.R();
        blocks := blocks + 1;
      }
    }

    /** The output buffer grows when the output would not fit. */
    method GrowOutput(length: nat)
      requires Valid()
      modifies this`output
      ensures Valid() && output.Length >= length && (output == old(output) || fresh(output))
    {
      hide AllBefore, Blocks, Rows, Start;
      if length > output.Length {
        output := new real[length];
      }
    }

    /** All blocks are processed, queued and recorded. */
    method QueueBlocks(iterations: nat, mbs: nat)
      requires Valid() && Start(cfg, iterations) + cfg.Overlap() <= gathered && mbs >= 1
      requires Start(cfg, iterations) * cfg.channels <= output.Length
      modifies this`gathered, this`first, this`blocks, this`outputQ, this`produced, work, overlap, input, output
      ensures Valid() && blocks == old(blocks) + iterations && gathered == old(gathered) - Start(cfg, iterations)
      ensures produced == old(produced) + output[..Start(cfg, iterations) * cfg.channels]
      ensures outputQ == old(outputQ) + output[..Start(cfg, iterations) * cfg.channels]
    {
      hide AllBefore, Blocks, Rows, Start;
      ghost var b, done := blocks, produced;
      var length := Start(cfg, iterations) * cfg.channels;
      ProcessBlocks(iterations);
      Flatten(length, mbs);
      BlocksAppend(cfg, done, output[..], heard, b, iterations);
      StartsAdd(cfg, b, iterations);
      assert output[..][..length] == output[..length];
      produced := done + output[..length];
    }

    /** process_samples() */
    method ProcessSamples(mbs: nat)
      requires Valid() && gathered >= cfg.window && mbs >= 1
      modifies this, work, overlap, input, output
      ensures Valid() && (output == old(output) || fresh(output)) && input == old(input)
      ensures heard == old(heard) && received == old(received)
      ensures
        var n := Iterations(cfg, old(gathered));
        blocks == old(blocks) + n && gathered == old(gathered) - Start(cfg, n)
      ensures old(produced) <= produced && outputQ == old(outputQ) + produced[|old(produced)|..]
    {
      IterationsFit(cfg, gathered);
      hide Valid, Iterations, Start;
      var iterations := Iterations(cfg, gathered);
      GrowOutput(Start(cfg, iterations) * cfg.channels);
      QueueBlocks(iterations, mbs);
    }

    // ---------------------------------------------------------------- taking input

    /** input_buffer() */
    method InputBuffer(chunk: seq<real>, n: nat)
      requires Valid() && n * cfg.channels <= |chunk| && gathered + n <= input.Length1
      modifies this`gathered, this`heard, this`received, input
      ensures Valid() && gathered == old(gathered) + n
      ensures heard == Extended(cfg, old(heard), chunk, n) && received == Extended(cfg, old(received), chunk, n)
    {
      hide AllBefore, Blocks, Rows, Row, Start, AgreeTo, Reach, Holds, Extended;
      ghost var rows, tails, was := Rows(input), Rows(overlap), heard;
      heard := Extended(cfg, was, chunk, n);
      received := Extended(cfg, received, chunk, n);
      ExtendedAgrees(cfg, rows, tails, was, heard, chunk, blocks, gathered, n);
      BlocksAgree(cfg, produced, was, heard, blocks);
      RowsFit(cfg, input, tails, was, blocks, gathered);
      TakeRowsIn(cfg.channels, input, gathered, chunk, n);
      HoldsMore(cfg, rows, Rows(input), tails, was, heard, chunk, blocks, gathered, n);
      AllBeforeAgrees(cfg, rows, Rows(input), tails, was, heard, blocks, gathered, gathered + n);
      gathered := gathered + n;
    }

    // ------------------------------------------------------------- growing buffers

    /** alloc_input_buffers(): only the overlap is copied to the new buffers. */
    method AllocInputBuffers(min: nat)
      requires Valid() && Ready(cfg, State()) && (first || min >= cfg.window)
      modifies this`input, this`heard
      ensures Valid() && (input == old(input) || fresh(input))
      ensures input.Length1 == if min > old(input.Length1) then min else old(input.Length1)
      ensures heard == if min > old(input.Length1) && !first
              then Forgotten(cfg, old(heard), Start(cfg, blocks) + cfg.Overlap())
                       else old(heard)
    {
      hide Valid, Ready, Forgotten, Start;
      if min > input.Length1 {
        Grow(min);
      }
    }

    /** The buffers are replaced by larger ones. */
    method Grow(min: nat)
      requires Valid() && Ready(cfg, State()) && min > input.Length1
      modifies this`input, this`heard
      ensures Valid() && fresh(input) && input.Length1 == min
      ensures heard == if first then old(heard) else Forgotten(cfg, old(heard), Start(cfg, blocks) + cfg.Overlap())
    {
      hide Valid, AllBefore, Blocks, Rows, Row, Forgotten, IsGrown, Start;
      Parts();
      ghost var rows, tails := Rows(input), Rows(overlap);
      ghost var kept := heard;
      var n := 0;
      if !first {
        n := cfg.Overlap();
        kept := Forgotten(cfg, heard, Start(cfg, blocks) + cfg.Overlap());
      }
      var tmp := GrownRows(cfg, input, min, n);
      Regrown(cfg, rows, Rows(tmp), tails, heard, kept, produced, blocks, gathered, min);
      Replace(tmp, kept);
    }

    lemma Parts()
      requires Valid()
      ensures cfg.Proper() && first == (blocks == 0) && input.Length0 == cfg.channels && gathered <= input.Length1
      ensures AllBefore(cfg, Rows(input), Rows(overlap), heard, blocks, gathered)
              && Blocks(cfg, produced, heard, 0, blocks)
      ensures |heard| == cfg.channels
              && forall c :: 0 <= c < cfg.channels ==> |heard[c]| == Start(cfg, blocks) + gathered
    {
      SoundSizes();
      RowsFit(cfg, input, Rows(overlap), heard, blocks, gathered);
    }

    method Replace(tmp: array2<real>, ghost kept: seq<seq<real>>)
      requires Valid() && tmp != overlap && |kept| == cfg.channels
      requires AllBefore(cfg, Rows(tmp), Rows(overlap), kept, blocks, gathered)
               && Blocks(cfg, produced, kept, 0, blocks)
      requires forall c :: 0 <= c < cfg.channels ==> |kept[c]| == |heard[c]|
      modifies this`input, this`heard
      ensures Valid() && input == tmp && heard == kept
    {
      hide AllBefore, Blocks, Rows, Start;
      heard := kept;
      input := tmp;
    }

    // ------------------------------------------------------------------------- pop

    /** The loop that gathers input, in chunks of any size. */
    method Gather(missing: nat, upstream: seq<real>)
      requires Valid() && gathered + missing <= input.Length1 && missing * cfg.channels <= |upstream|
      modifies this`gathered, this`heard, this`received, input
      ensures Valid() && gathered == old(gathered) + missing
      ensures heard == Extended(cfg, old(heard), upstream, missing)
      ensures received == Extended(cfg, old(received), upstream, missing)
    {
      hide Valid, Extended, Deinterleaved;
      ghost var g := gathered;
      var target := gathered + missing;
      var used := 0;
      SoundSizes();
      ExtendedByNone(cfg, heard, upstream);
      ExtendedByNone(cfg, received, upstream);
      while gathered < target
        invariant Valid() && g <= gathered <= target && used == (gathered - g) * cfg.channels <= |upstream|
        invariant |old(heard)| == |old(received)| == cfg.channels
        invariant heard == Extended(cfg, old(heard), upstream, gathered - g)
        invariant received == Extended(cfg, old(received), upstream, gathered - g)
      {
        var remaining := target - gathered;
        var n :| 1 <= n <= remaining;
        ChunkFits(cfg, gathered - g, n, missing, |upstream|);
        var chunk := upstream[used..used + n * cfg.channels];
        ExtendedTwice(cfg, old(heard), upstream, gathered - g, n);
        ExtendedTwice(cfg, old(received), upstream, gathered - g, n);
        InputBuffer(chunk, n);
        used := used + n * cfg.channels;
      }
    }

    /** What is left of the stream when the buffers have been fitted to a request. */
    ghost function Remembered(request: nat): (r: seq<seq<real>>)
      requires Valid() && Ready(cfg, State())
      reads this, work, overlap, input, output
      ensures |r| == cfg.channels
    {
      if Loses(cfg, State(), request) then Forgotten(cfg, heard, Start(cfg, blocks) + cfg.Overlap()) else heard
    }

    /** The buffers are fitted to a request. */
    method Fit(request: nat)
      requires Valid() && Ready(cfg, State()) && (first || request >= 1)
      modifies this`input, this`heard
      ensures Valid() && (input == old(input) || fresh(input)) && heard == old(Remembered(request))
      ensures input.Length1 == Next(cfg, old(State()), request).max >= Target(cfg, first, request)
    {
      SoundSizes();
      FillCounts(cfg, State(), request);
      RememberedIs(request);
      hide Valid, Ready, Target, Missing, Next, Forgotten, Loses, Start, Remembered;
      AllocInputBuffers(Target(cfg, first, request));
    }

    /** The buffers are fitted to a request and filled. */
    method Fill(request: nat, upstream: seq<real>)
      requires Valid() && Ready(cfg, State()) && (first || request >= 1)
      requires Missing(cfg, State(), request) * cfg.channels <= |upstream|
      modifies this`gathered, this`input, this`heard, this`received, input
      ensures Valid() && (input == old(input) || fresh(input))
      ensures gathered == Target(cfg, first, request) >= cfg.window
              && input.Length1 == Next(cfg, old(State()), request).max
      ensures heard == Extended(cfg, old(Remembered(request)), upstream, Missing(cfg, old(State()), request))
      ensures received == Extended(cfg, old(received), upstream, Missing(cfg, old(State()), request))
    {
      SoundSizes();
      FillCounts(cfg, State(), request);
      hide Valid, Ready, Target, Missing, Next, Extended, Remembered;
      var missing := Missing(cfg, State(), request);
      Fit(request);
      Gather(missing, upstream);
    }

    /** What sink_input_pop_cb() does when nothing is queued. */
    method Refill(request: nat, upstream: seq<real>, mbs: nat)
      requires Valid() && Ready(cfg, State()) && mbs >= 1 && (first || request >= 1)
      requires Missing(cfg, State(), request) * cfg.channels <= |upstream|
      modifies this, work, overlap, input, output
      ensures Valid() && (output == old(output) || fresh(output)) && (input == old(input) || fresh(input))
      ensures State() == Next(cfg, old(State()), request) && blocks > old(blocks)
      ensures heard == Extended(cfg, old(Remembered(request)), upstream, Missing(cfg, old(State()), request))
      ensures received == Extended(cfg, old(received), upstream, Missing(cfg, old(State()), request))
      ensures old(produced) < produced && outputQ == old(outputQ) + produced[|old(produced)|..]
    {
      PopCounts(cfg, State(), request);
      SoundSizes();
      Parts();
      hide Valid, Target, Missing, Extended, Iterations, Loses;
      Fill(request, upstream);
      ghost var b := blocks;
      ProcessSamples(mbs);
      SoundSizes();
      Parts();
      MoreProduced(cfg, b, blocks);
    }

    /** sink_input_pop_cb(). What is handed out is what was put out, in order. What
        was taken in is heard unchanged as long as growing buffers lose nothing but
        silence. */
    method Pop(request: nat, upstream: seq<real>, mbs: nat) returns (chunk: seq<real>)
      requires Valid() && Ready(cfg, State()) && mbs >= 1 && request >= 1
      requires outputQ == [] ==> Missing(cfg, State(), request) * cfg.channels <= |upstream|
      modifies this, work, overlap, input, output
      ensures Valid() && Ready(cfg, State()) && (output == old(output) || fresh(output))
              && (input == old(input) || fresh(input))
      ensures chunk != [] && old(produced) <= produced && chunk + outputQ == old(outputQ) + produced[|old(produced)|..]
      ensures old(outputQ) != [] ==> State() == old(State()) && produced == old(produced)
                                     && heard == old(heard) && received == old(received)
      ensures old(outputQ) == [] ==>
                && State() == Next(cfg, old(State()), request)
                && heard == Extended(cfg, old(Remembered(request)), upstream, Missing(cfg, old(State()), request))
                && received == Extended(cfg, old(received), upstream, Missing(cfg, old(State()), request))
      ensures old(outputQ) == [] && old(heard) == old(received) ==>
                (heard == received <==> Loses(cfg, old(State()), request) ==> old(SilentBeyondOverlap()))
    {
      SoundSizes();
      PopCounts(cfg, State(), request);
      hide Valid, Extended, Missing, Loses, Next, Remembered, SilentBeyondOverlap;
      if outputQ == [] {
        FaithfulWhen(request, upstream);
        Refill(request, upstream, mbs);
      }
      chunk := Hand();
    }

    /** Some of what is queued is handed out. */
    method Hand() returns (chunk: seq<real>)
      requires Valid() && outputQ != []
      modifies this`outputQ
      ensures Valid() && chunk != [] && chunk + outputQ == old(outputQ)
    {
      hide AllBefore, Blocks;
      var n :| 1 <= n <= |outputQ|;
      chunk := outputQ[..n];
      outputQ := outputQ[n..];
    }

    ghost predicate SilentBeyondOverlap()
      requires Valid()
      reads this, work, overlap, input, output
    {
      forall c, i | 0 <= c < cfg.channels && Start(cfg, blocks) + cfg.Overlap() <= i < |heard[c]| :: heard[c][i] == 0.0
    }

    lemma FaithfulWhen(request: nat, upstream: seq<real>)
      requires Valid() && Ready(cfg, State()) && Missing(cfg, State(), request) * cfg.channels <= |upstream|
      ensures
        var n := Missing(cfg, State(), request);
        heard == received ==>
          (Extended(cfg, Remembered(request), upstream, n) == Extended(cfg, received, upstream, n)
           <==> (Loses(cfg, State(), request) ==> SilentBeyondOverlap()))
    {
      SoundSizes();
      hide Valid, Extended, Missing, Loses, Forgotten;
      if heard == received {
        if Loses(cfg, State(), request) {
          ForgottenIs(cfg, heard, Start(cfg, blocks) + cfg.Overlap());
        }
        ExtendedInjective(cfg, Remembered(request), received, upstream, Missing(cfg, State(), request));
      }
    }

    lemma SoundSizes()
      requires Valid()
      ensures |heard| == |received| == cfg.channels && cfg.Proper() && gathered <= input.Length1
      ensures |produced| == Start(cfg, blocks) * cfg.channels
      ensures forall c :: 0 <= c < cfg.channels ==> |heard[c]| == Start(cfg, blocks) + gathered
    {
      assert Before(cfg, 0, Rows(input)[0], Rows(overlap)[0], heard[0], blocks, gathered);
      hide Blocks, Before;
    }

    /** Copying the overlap forgets something only if there is more than the overlap. */
    lemma RememberedIs(request: nat)
      requires Valid() && Ready(cfg, State())
      ensures Target(cfg, first, request) > input.Length1 && !first ==>
                Remembered(request) == Forgotten(cfg, heard, Start(cfg, blocks) + cfg.Overlap())
      ensures !(Target(cfg, first, request) > input.Length1 && !first) ==> Remembered(request) == heard
    {
      SoundSizes();
      hide Valid, Target, Start;
      if !first && gathered == cfg.Overlap() {
        NothingForgotten(cfg, heard, Start(cfg, blocks) + cfg.Overlap());
      }
    }
  }

  lemma ExtendedAgrees(cfg: Config, rows: seq<seq<real>>, tails: seq<seq<real>>, streams: seq<seq<real>>,
                       streams': seq<seq<real>>, chunk: seq<real>, m: nat, g: nat, n: nat)
    requires AllBefore(cfg, rows, tails, streams, m, g) && n * cfg.channels <= |chunk|
    requires streams' == Extended(cfg, streams, chunk, n)
    ensures forall c :: 0 <= c < cfg.channels ==> AgreeTo(streams[c], streams'[c], Reach(cfg, m))
  {
    forall c | 0 <= c < cfg.channels
      ensures AgreeTo(streams[c], streams'[c], Reach(cfg, m))
    {
      assert Before(cfg, c, rows[c], tails[c], streams[c], m, g);
      ReachBound(cfg, streams[c], m);
      hide Reach;
    }
  }

  lemma HoldsMore(cfg: Config, rows: seq<seq<real>>, rows': seq<seq<real>>, tails: seq<seq<real>>,
                  streams: seq<seq<real>>, streams': seq<seq<real>>, chunk: seq<real>, m: nat, g: nat, n: nat)
    requires AllBefore(cfg, rows, tails, streams, m, g) && n * cfg.channels <= |chunk| && |rows'| == cfg.channels
    requires streams' == Extended(cfg, streams, chunk, n)
    requires forall c :: 0 <= c < cfg.channels ==> |streams[c]| == Start(cfg, m) + g
    requires forall c :: 0 <= c < cfg.channels ==> g + n <= |rows'[c]| && rows'[c][..g] == rows[c][..g]
                                                   && rows'[c][g..g + n] == Deinterleaved(cfg.channels, chunk, n, c)
    ensures forall c :: 0 <= c < cfg.channels ==> Holds(cfg, rows'[c], streams'[c], m, g + n)
  {
    hide Start, Deinterleaved;
    forall c | 0 <= c < cfg.channels
      ensures Holds(cfg, rows'[c], streams'[c], m, g + n)
    {
      assert Before(cfg, c, rows[c], tails[c], streams[c], m, g);
      var row := rows'[c];
      assert forall i :: 0 <= i < g ==> row[i] == row[..g][i] == rows[c][..g][i];
      assert forall i :: g <= i < g + n ==> row[i] == row[g..g + n][i - g];
    }
  }

  lemma RowsFit(cfg: Config, a: array2<real>, tails: seq<seq<real>>, streams: seq<seq<real>>, m: nat, n: nat)
    requires AllBefore(cfg, Rows(a), tails, streams, m, n)
    ensures a.Length0 == cfg.channels && |tails| == cfg.channels && cfg.Proper()
  {
  }

  lemma ExtendedByNone(cfg: Config, streams: seq<seq<real>>, chunk: seq<real>)
    requires |streams| == cfg.channels
    ensures Extended(cfg, streams, chunk, 0) == streams
  {
    assert forall c :: 0 <= c < cfg.channels ==> Extended(cfg, streams, chunk, 0)[c] == streams[c];
  }

  /** The part of the data that follows the first k frames. */
  lemma ChunkFits(cfg: Config, k: nat, n: nat, total: nat, length: nat)
    requires k + n <= total && total * cfg.channels <= length
    ensures k * cfg.channels + n * cfg.channels == (k + n) * cfg.channels <= length
  {
    if k + n < total {
      ProductsRise(k + n, total, cfg.channels);
    }
  }

  lemma DeinterleavedParts(channels: nat, data: seq<real>, k: nat, n: nat, c: nat)
    requires c < channels && k * channels + n * channels == (k + n) * channels <= |data|
    ensures Deinterleaved(channels, data, k + n, c)
            == Deinterleaved(channels, data, k, c)
               + Deinterleaved(channels, data[k * channels..k * channels + n * channels], n, c)
  {
    var part := data[k * channels..k * channels + n * channels];
    forall i | 0 <= i < n
      ensures Deinterleaved(channels, part, n, c)[i] == Deinterleaved(channels, data, k + n, c)[k + i]
    {
      SlotsRise(channels, i, c, n);
      SlotMoves(channels, k, i, c);
    }
    hide Slot;
  }

  lemma ExtendedTwice(cfg: Config, streams: seq<seq<real>>, data: seq<real>, k: nat, n: nat)
    requires |streams| == cfg.channels && k * cfg.channels + n * cfg.channels == (k + n) * cfg.channels <= |data|
    ensures
      var part := data[k * cfg.channels..k * cfg.channels + n * cfg.channels];
      Extended(cfg, Extended(cfg, streams, data, k), part, n) == Extended(cfg, streams, data, k + n)
  {
    hide Deinterleaved;
    var part := data[k * cfg.channels..k * cfg.channels + n * cfg.channels];
    forall c | 0 <= c < cfg.channels
      ensures Extended(cfg, Extended(cfg, streams, data, k), part, n)[c] == Extended(cfg, streams, data, k + n)[c]
    {
      DeinterleavedParts(cfg.channels, data, k, n, c);
    }
  }

  lemma ExtendedInjective(cfg: Config, a: seq<seq<real>>, b: seq<seq<real>>, chunk: seq<real>, n: nat)
    requires |a| == |b| == cfg.channels && n * cfg.channels <= |chunk|
    requires forall c :: 0 <= c < cfg.channels ==> |a[c]| == |b[c]|
    ensures Extended(cfg, a, chunk, n) == Extended(cfg, b, chunk, n) <==> a == b
  {
    hide Deinterleaved;
    var x, y := Extended(cfg, a, chunk, n), Extended(cfg, b, chunk, n);
    assert forall c :: 0 <= c < cfg.channels ==> x[c][..|a[c]|] == a[c] && y[c][..|b[c]|] == b[c];
  }

  lemma ForgottenIs(cfg: Config, streams: seq<seq<real>>, keep: nat)
    requires forall c :: 0 <= c < |streams| ==> keep <= |streams[c]|
    ensures |Forgotten(cfg, streams, keep)| == |streams|
    ensures forall c :: 0 <= c < |streams| ==> |Forgotten(cfg, streams, keep)[c]| == |streams[c]|
    ensures Forgotten(cfg, streams, keep) == streams
            <==> forall c, i | 0 <= c < |streams| && keep <= i < |streams[c]| :: streams[c][i] == 0.0
  {
    var f := Forgotten(cfg, streams, keep);
    assert forall c, i | 0 <= c < |streams| && keep <= i < |streams[c]| :: f[c][i] == 0.0;
    if forall c, i | 0 <= c < |streams| && keep <= i < |streams[c]| :: streams[c][i] == 0.0 {
      assert forall c :: 0 <= c < |streams| ==> f[c] == streams[c];
    }
  }

  lemma NothingForgotten(cfg: Config, streams: seq<seq<real>>, keep: nat)
    requires forall c :: 0 <= c < |streams| ==> |streams[c]| == keep
    ensures Forgotten(cfg, streams, keep) == streams
  {
    assert forall c :: 0 <= c < |streams| ==> Forgotten(cfg, streams, keep)[c] == streams[c];
  }

  lemma MoreProduced(cfg: Config, a: nat, b: nat)
    requires cfg.Proper() && a < b
    ensures Start(cfg, a) * cfg.channels < Start(cfg, b) * cfg.channels
  {
    StartsRise(cfg, a, b);
    ProductsRise(Start(cfg, a), Start(cfg, b), cfg.channels);
  }

  /** The block that a frame belongs to. */
  lemma BlockOf(cfg: Config, f: nat, n: nat)
    requires cfg.Proper() && f < Start(cfg, n)
    ensures f / cfg.R() < n && Start(cfg, f / cfg.R()) <= f < Start(cfg, f / cfg.R()) + cfg.R()
    ensures f == Start(cfg, f / cfg.R()) + f % cfg.R()
  {
    DivRest(f, cfg.R());
    if f / cfg.R() > n {
      StartsRise(cfg, n, f / cfg.R());
    }
  }

  lemma NoBlocks(cfg: Config, out: seq<real>, streams: seq<seq<real>>, m: nat)
    ensures Blocks(cfg, out, streams, m, 0)
  {
  }

  lemma RoomForBlock(cfg: Config, k: nat, n: nat)
    requires k < n
    ensures Start(cfg, k) + cfg.R() <= Start(cfg, n)
    ensures (Start(cfg, k) + cfg.R()) * cfg.channels <= Start(cfg, n) * cfg.channels
  {
    StartsRise(cfg, k, n);
    if Start(cfg, k) + cfg.R() < Start(cfg, n) {
      ProductsRise(Start(cfg, k) + cfg.R(), Start(cfg, n), cfg.channels);
    }
  }

  lemma IterationsFit(cfg: Config, g: nat)
    requires cfg.Proper() && g >= cfg.Overlap()
    ensures Start(cfg, Iterations(cfg, g)) + cfg.Overlap() <= g
  {
    DivRest(g - cfg.Overlap(), cfg.R());
  }
}
