/** The audio path of module-loopback.c as a state machine over the source
    thread, the sink thread and the main thread.

    The source thread posts audio and rewinds, and updates its counter in a
    separate step.  The sink thread handles those messages, also from inside its
    pop callback, and fixes the length of the queue once after start-up.  The main
    thread takes a snapshot of both sides before it adjusts rates. */
module LoopbackTransfer {

  // -------------------------------------------------------- the audio queue

  /** pa_memblockq reduced to its two indexes and its prebuffering mode.  The write
      index may fall behind the read index. */
  datatype Mbq = Mbq(readIndex: int, writeIndex: int, prebuf: nat, inPrebuf: bool) {

    function Length(): nat {
      if writeIndex <= readIndex then 0 else writeIndex - readIndex
    }

    /** update_prebuf(): whether reading is blocked, and the mode left behind. */
    predicate Blocked() {
      if inPrebuf then Length() < prebuf else prebuf > 0 && readIndex >= writeIndex
    }

    function Settle(): Mbq {
      this.(inPrebuf := Blocked())
    }

    function Push(n: nat): Mbq {
      this.(writeIndex := writeIndex + n)
    }

    function Seek(n: int): Mbq {
      this.(writeIndex := writeIndex + n)
    }

    function Rewind(n: nat): Mbq {
      this.(readIndex := readIndex - n)
    }

    /** pa_memblockq_drop(), which drops nothing while prebuffering. */
    function Drop(n: nat): Mbq {
      if n == 0 then this
      else if Blocked() then Settle()
      else Settle().(readIndex := readIndex + n)
    }

    function SetPrebuf(n: nat): Mbq {
      this.(prebuf := n, inPrebuf := inPrebuf && n > 0 && Length() < n)
    }
  }

  /** When reading is blocked: never without prebuffering, always while the queue is empty
      otherwise, and until the queue has filled up once it has run empty. */
  lemma PrebufferingIs(q: Mbq)
    ensures q.prebuf == 0 ==> !q.Blocked()
    ensures q.prebuf > 0 && q.Length() == 0 ==> q.Blocked()
    ensures q.Length() >= q.prebuf && q.Length() > 0 ==> !q.Blocked()
    ensures q.Length() > 0 && !q.inPrebuf ==> !q.Blocked()
    ensures q.Settle().Blocked() == q.Settle().inPrebuf == q.Blocked() && q.Settle().Settle() == q.Settle()
  {
  }

  /** A rewind by the sink gives back what was dropped; pushing and rewinding both make a
      queue longer. */
  lemma RewindUndoesDrop(q: Mbq, n: nat)
    ensures !q.Blocked() && n > 0 ==> q.Drop(n).Rewind(n) == q.Settle()
    ensures q.readIndex <= q.writeIndex ==> q.Rewind(n).Length() == q.Length() + n == q.Push(n).Length()
    ensures q.Drop(n).writeIndex == q.Rewind(n).writeIndex == q.writeIndex && q.Push(n).readIndex == q.readIndex
  {
  }

  /** The stream's rate and frame size. */
  datatype Spec = Spec(rate: nat, frameSize: nat)

  /** pa_usec_to_bytes() */
  function ToBytes(spec: Spec, usec: nat): nat {
    usec * spec.rate / 1000000 * spec.frameSize
  }

  function Max(a: nat, b: nat): nat { if a > b then a else b }

  /** The length that memblockq_adjust() aims at, given the configured latency and the
      minimum latency of the time. */
  function Requested(spec: Spec, latency: nat, minimum: nat, offset: int, sinkLatency: nat): nat {
    var finalLatency := Max(latency, minimum);
    ToBytes(spec, if finalLatency - offset < sinkLatency then sinkLatency else finalLatency - offset)
  }

  /** memblockq_adjust() */
  function Adjust(q: Mbq, requested: nat, allowPush: bool): Mbq {
    if q.Length() > requested then q.Drop(q.Length() - requested)
    else if q.Length() < requested && allowPush then q.Seek(requested - q.Length())
    else q
  }

  /** The queue ends up at exactly the requested length, unless it is longer and
      still prebuffering, or shorter and its write index lies behind its read
      index. */
  lemma AdjustIsExact(q: Mbq, requested: nat)
    ensures Adjust(q, requested, true).Length() == requested <==>
            && (q.Length() > requested ==> !q.Blocked())
            && (q.Length() < requested ==> q.readIndex <= q.writeIndex)
    ensures q.readIndex <= q.writeIndex ==> Adjust(q, requested, true).Length() >= requested
  {
  }

  /** At least one requested sink latency is asked for, and without an offset at least
      the configured latency. */
  lemma RequestCoversSink(spec: Spec, latency: nat, minimum: nat, offset: int, sinkLatency: nat)
    ensures Requested(spec, latency, minimum, offset, sinkLatency) >= ToBytes(spec, sinkLatency)
    ensures offset == 0 ==> Requested(spec, latency, minimum, offset, sinkLatency) >= ToBytes(spec, latency)
  {
    var finalLatency := Max(latency, minimum);
    var t := if finalLatency - offset < sinkLatency then sinkLatency else finalLatency - offset;
    ToBytesGrows(spec, sinkLatency, t);
    if offset == 0 {
      ToBytesGrows(spec, latency, t);
    }
  }

  /** What the devices add to the latency is taken off the queue: shifting the latencies
      and the offset together changes nothing, and a greater offset never asks for more. */
  lemma OffsetIsTakenOff(spec: Spec, latency: nat, minimum: nat, offset: int, sinkLatency: nat, d: nat)
    ensures Requested(spec, latency + d, minimum + d, offset + d, sinkLatency)
            == Requested(spec, latency, minimum, offset, sinkLatency)
    ensures Requested(spec, latency, minimum, offset + d, sinkLatency)
            <= Requested(spec, latency, minimum, offset, sinkLatency)
  {
    var finalLatency := Max(latency, minimum);
    var t := if finalLatency - offset < sinkLatency then sinkLatency else finalLatency - offset;
    var u := if finalLatency - (offset + d) < sinkLatency then sinkLatency else finalLatency - (offset + d);
    ToBytesGrows(spec, u, t);
  }

  /** A length in bytes is that of whole frames, and no frame more fits into the time. */
  lemma ToBytesIsTime(spec: Spec, usec: nat) returns (frames: nat)
    ensures ToBytes(spec, usec) == frames * spec.frameSize
    ensures frames * 1000000 <= usec * spec.rate < (frames + 1) * 1000000
  {
    frames := usec * spec.rate / 1000000;
  }

  lemma ToBytesGrows(spec: Spec, a: nat, b: nat)
    requires a <= b
    ensures ToBytes(spec, a) <= ToBytes(spec, b)
  {
    assert a * spec.rate <= b * spec.rate;
    var x, y := a * spec.rate / 1000000, b * spec.rate / 1000000;
    assert x <= y;
    assert x * spec.frameSize <= y * spec.frameSize;
  }

  // ------------------------------------------------------------- the machine

  datatype Msg = Post(length: nat) | RewindBy(nbytes: nat) {
    function Net(): int {
      if Post? then length else 0 - nbytes
    }
  }

  datatype SourcePc = SourceIdle | Posted(delta: int)
  datatype SinkPc = SinkIdle | InPop
  datatype MainPc = MainIdle | SinkSnapped | BothSnapped

  /** The queue before and after the adjustment that ends the start-up, the length
      it was made for, the least length allowed then, and the latencies of the time. */
  datatype Tuning =
    | Untuned
    | Tuned(before: Mbq, after: Mbq, requested: nat, least: nat, pops: nat, minimum: nat, offset: int, sinkLatency: nat)

  /** Everything but the two counters and the length of the queue is history. */
  datatype Snapshots =
    Snapshots(send: int, recv: int, length: nat, queued: int, postedAtSink: int, postedAtSource: int)

  /** `spec` and `latency` are the configuration.  `tuning` is the last adjustment of
      its kind, `first` the first one since the module was loaded. */
  datatype State = State(
    spec: Spec,
    latency: nat,
    // the message queue from the source to the sink thread
    queue: seq<Msg>,
    // source thread
    source: SourcePc,
    sendCounter: int,
    // sink thread
    sink: SinkPc,
    recvCounter: int,
    mbq: Mbq,
    popCalled: bool,
    popAdjust: bool,
    firstPopDone: bool,
    pushCalled: bool,
    // main thread
    main: MainPc,
    pending: bool,
    adjustDone: nat,
    snap: Snapshots,
    // history
    posted: int,
    pops: nat,
    rewinds: nat,
    tuning: Tuning,
    first: Tuning)

  datatype Event =
    | SendPost(n: nat)                   // source_output_push_cb
    | SendRewind(n: nat)                 // source_output_process_rewind_cb
    | Count                              // the counter update that follows
    // one message; whether the queue took the data, and the latencies at that time
    | Handle(accepted: bool, minimum: nat, offset: int, sinkLatency: nat)
    | PopBegin
    | PopEnd(taken: nat, minimum: nat, sinkLatency: nat)
    | SinkRewind(n: nat)
    | SetPrebuf(n: nat)
    | SnapSink
    | SnapSource
    | AdjustRates
    | FastAdjust(minimum: nat, offset: int, sinkLatency: nat)
    | MainAdjustDone
    | MoveSource
    | MoveSink
    | SuspendSink
    | SuspendSource

  function Init(spec: Spec, latency: nat): State {
    State(spec, latency, [], SourceIdle, 0, SinkIdle, 0, Mbq(0, ToBytes(spec, latency), 0, false),
          false, false, false, false, MainIdle, true, 0, Snapshots(0, 0, 0, 0, 0, 0), 0, 0, 0, Untuned, Untuned)
  }

  function Net(q: seq<Msg>): int {
    if q == [] then 0 else q[0].Net() + Net(q[1..])
  }

  /** Rates are only adjusted between the two snapshots' arrival and the next timer
      event; the main thread does nothing else in between. */
  predicate Enabled(s: State, e: Event) {
    match e
    case SendPost(n) => s.source.SourceIdle? && n > 0
    case SendRewind(n) => s.source.SourceIdle?
    case Count => s.source.Posted?
    case Handle(_, _, _, _) => s.queue != []
    case PopBegin => s.sink.SinkIdle?
    case PopEnd(taken, _, _) => s.sink.InPop? && s.queue == [] && (s.mbq.Length() > 0 ==> taken <= s.mbq.Length())
    case SinkRewind(n) => s.sink.SinkIdle?
    case SetPrebuf(n) => s.sink.SinkIdle?
    case SnapSink => s.main.MainIdle? && !s.pending && s.sink.SinkIdle?
    case SnapSource => s.main.SinkSnapped? && s.source.SourceIdle?
    case AdjustRates => s.main.BothSnapped?
    case FastAdjust(_, _, _) => s.main.BothSnapped? && s.sink.SinkIdle?
    case MainAdjustDone => s.main.MainIdle? && s.adjustDone > 0
    case MoveSource => s.main.MainIdle? && s.sink.SinkIdle?
    case MoveSink => s.main.MainIdle? && s.sink.SinkIdle?
    case SuspendSink => s.main.MainIdle? && s.sink.SinkIdle?
    case SuspendSource => s.main.MainIdle? && s.sink.SinkIdle?
  }

  /** The handler of SINK_INPUT_MESSAGE_POST. */
  function HandlePost(s: State, e: Event): (t: State)
    requires e.Handle? && s.queue != [] && s.queue[0].Post?
    ensures t == s.(queue := s.queue[1..], recvCounter := s.recvCounter + s.queue[0].length,
                    mbq := t.mbq, popAdjust := t.popAdjust, pushCalled := t.pushCalled,
                    adjustDone := t.adjustDone, tuning := t.tuning, first := t.first)
  {
    var q := if e.accepted then s.mbq.Push(s.queue[0].length) else s.mbq;
    var requested := Requested(s.spec, s.latency, e.minimum, e.offset, e.sinkLatency);
    var tuned := Tuned(q, Adjust(q, requested, true), requested, ToBytes(s.spec, e.sinkLatency), s.pops,
                       e.minimum, e.offset, e.sinkLatency);
    var s := s.(queue := s.queue[1..], recvCounter := s.recvCounter + s.queue[0].length);
    if s.popCalled && (!s.pushCalled || s.popAdjust) then
      s.(mbq := tuned.after, adjustDone := s.adjustDone + 1, popAdjust := false, pushCalled := true,
         tuning := tuned, first := if s.first.Untuned? then tuned else s.first)
    else if !s.popCalled then
      s.(mbq := Adjust(q, Requested(s.spec, s.latency, e.minimum, 0, e.sinkLatency), false))
    else
      s.(mbq := q)
  }

  /** The handler of SINK_INPUT_MESSAGE_REWIND. */
  function HandleRewind(s: State): State
    requires s.queue != [] && s.queue[0].RewindBy?
  {
    s.(queue := s.queue[1..], recvCounter := s.recvCounter - s.queue[0].nbytes,
       mbq := if s.pushCalled then s.mbq.Seek(0 - s.queue[0].nbytes) else s.mbq)
  }

  function Apply(s: State, e: Event): State
    requires Enabled(s, e)
  {
    match e
    case SendPost(n) =>
      s.(queue := s.queue + [Post(n)], source := Posted(n), posted := s.posted + n)
    case SendRewind(n) =>
      s.(queue := s.queue + [RewindBy(n)], source := Posted(0 - n), posted := s.posted - n, rewinds := s.rewinds + 1)
    case Count =>
      s.(sendCounter := s.sendCounter + s.source.delta, source := SourceIdle)
    case Handle(_, _, _, _) =>
      if s.queue[0].Post? then HandlePost(s, e) else HandleRewind(s)
    case PopBegin =>
      s.(sink := InPop)
    case PopEnd(taken, minimum, sinkLatency) =>
      var s := if !s.popCalled && s.firstPopDone then s.(popAdjust := true, popCalled := true) else s;
      var s := s.(sink := SinkIdle, firstPopDone := true, pops := s.pops + 1);
      if s.mbq.Blocked() then s.(mbq := s.mbq.Settle())
      else
        var q := s.mbq.Settle().Drop(taken);
        s.(mbq := if s.pushCalled then q else Adjust(q, Requested(s.spec, s.latency, minimum, 0, sinkLatency), true))
    case SinkRewind(n) =>
      s.(mbq := s.mbq.Rewind(n))
    case SetPrebuf(n) =>
      s.(mbq := s.mbq.SetPrebuf(n))
    case SnapSink =>
      s.(main := SinkSnapped, snap := s.snap.(recv := s.recvCounter, length := s.mbq.Length(), queued := Net(s.queue),
                                              postedAtSink := s.posted))
    case SnapSource =>
      s.(main := BothSnapped, snap := s.snap.(send := s.sendCounter, postedAtSource := s.posted))
    case AdjustRates =>
      s.(main := MainIdle)
    case FastAdjust(minimum, offset, sinkLatency) =>
      s.(main := MainIdle, mbq := Adjust(s.mbq, Requested(s.spec, s.latency, minimum, offset, sinkLatency), true))
    case MainAdjustDone =>
      s.(adjustDone := s.adjustDone - 1, pending := false)
    case MoveSource =>
      s.(pending := true, pushCalled := false)
    case MoveSink =>
      s.(pending := true, popCalled := false, firstPopDone := false)
    case SuspendSink =>
      s.(popCalled := false, firstPopDone := false)
    case SuspendSource =>
      s.(pushCalled := false)
  }

  ghost predicate Valid(s: State, es: seq<Event>)
    decreases |es|
  {
    es == [] || (Enabled(s, es[0]) && Valid(Apply(s, es[0]), es[1..]))
  }

  ghost function Run(s: State, es: seq<Event>): State
    requires Valid(s, es)
    decreases |es|
  {
    if es == [] then s else Run(Apply(s, es[0]), es[1..])
  }

  // --------------------------------------------------------------- invariants

  function Uncounted(s: State): int {
    if s.source.Posted? then s.source.delta else 0
  }

  ghost predicate CountersInv(s: State) {
    && s.recvCounter + Net(s.queue) == s.posted
    && s.sendCounter + Uncounted(s) == s.posted
    && (!s.main.MainIdle? ==> s.snap.recv + s.snap.queued == s.snap.postedAtSink)
    && (s.main.BothSnapped? ==> s.snap.send == s.snap.postedAtSource)
  }

  ghost predicate NoRewindInv(s: State) {
    s.rewinds == 0 ==>
      && (forall i :: 0 <= i < |s.queue| ==> s.queue[i].Post?)
      && (!s.main.MainIdle? ==> 0 <= s.snap.queued && s.snap.postedAtSink <= s.posted)
      && (s.main.BothSnapped? ==> s.snap.postedAtSink <= s.snap.postedAtSource)
  }

  /** The length was requested for the latencies of the time. */
  ghost predicate IsRequested(s: State, t: Tuning)
    requires t.Tuned?
  {
    t.requested == Requested(s.spec, s.latency, t.minimum, t.offset, t.sinkLatency)
  }

  ghost predicate FlagsInv(s: State) {
    && (s.firstPopDone ==> s.pops >= 1)
    && (s.popCalled ==> s.firstPopDone && s.pops >= 2)
    && (s.adjustDone > 0 || !s.pending || !s.main.MainIdle? ==> s.tuning.Tuned?)
    && (s.tuning.Tuned? ==>
          && s.tuning.pops >= 2
          && s.tuning.after == Adjust(s.tuning.before, s.tuning.requested, true)
          && IsRequested(s, s.tuning)
          && s.tuning.requested >= s.tuning.least)
  }

  /** Until the first adjustment the queue is readable; that adjustment is exact.  Both
      need a latency of at least one frame. */
  ghost predicate FirstInv(s: State) {
    && (s.first.Untuned? <==> s.tuning.Untuned?)
    && (s.first.Untuned? ==> !s.pushCalled && s.adjustDone == 0 && s.main.MainIdle?)
    && (ToBytes(s.spec, s.latency) > 0 ==>
          && (s.first.Untuned? ==> !s.mbq.inPrebuf && s.mbq.Length() > 0)
          && (s.first.Tuned? ==> s.first.after.Length() == s.first.requested))
    && (s.first.Tuned? ==> s.first.pops >= 2 && s.first.requested >= s.first.least && IsRequested(s, s.first))
  }

  lemma {:induction false} NetAppend(q: seq<Msg>, m: Msg)
    ensures Net(q + [m]) == Net(q) + m.Net()
  {
    if q == [] {
      assert q + [m] == [m];
    } else {
      NetAppend(q[1..], m);
      assert (q + [m])[1..] == q[1..] + [m];
    }
  }

  lemma {:induction false} PostsAreNotNegative(q: seq<Msg>)
    requires forall i :: 0 <= i < |q| ==> q[i].Post?
    ensures Net(q) >= 0
  {
    if q != [] {
      PostsAreNotNegative(q[1..]);
    }
  }

  lemma CountersSend(s: State, e: Event)
    requires CountersInv(s) && Enabled(s, e) && (e.SendPost? || e.SendRewind?)
    ensures CountersInv(Apply(s, e))
  {
    NetAppend(s.queue, if e.SendPost? then Post(e.n) else RewindBy(e.n));
    hide Net;
  }

  lemma CountersHandle(s: State, e: Event)
    requires CountersInv(s) && Enabled(s, e) && e.Handle?
    ensures CountersInv(Apply(s, e))
  {
    var t := Apply(s, e);
    var m := s.queue[0];
    assert Net(s.queue) == m.Net() + Net(s.queue[1..]);
    hide Net, HandlePost;
    if m.Post? {
      assert t == HandlePost(s, e);
      hide Apply;
    } else {
      assert t == HandleRewind(s);
      hide Apply;
    }
  }

  lemma CountersStep(s: State, e: Event)
    requires CountersInv(s) && Enabled(s, e)
    ensures CountersInv(Apply(s, e))
  {
    hide Net, Adjust, Requested, ToBytes;
    match e
    case SendPost(n) => CountersSend(s, e);
    case SendRewind(n) => CountersSend(s, e);
    case Handle(_, _, _, _) => CountersHandle(s, e);
    case _ =>
  }

  lemma NoRewindStep(s: State, e: Event)
    requires NoRewindInv(s) && Enabled(s, e)
    ensures NoRewindInv(Apply(s, e))
  {
    hide Adjust, Requested, ToBytes, Mbq.Blocked, Mbq.Settle, Mbq.Drop;
    if e.Handle? {
      NoRewindHandle(s, e);
    } else if e.SnapSink? && s.rewinds == 0 {
      PostsAreNotNegative(s.queue);
    }
    hide Net, HandlePost, HandleRewind;
  }

  lemma NoRewindHandle(s: State, e: Event)
    requires NoRewindInv(s) && Enabled(s, e) && e.Handle?
    ensures NoRewindInv(Apply(s, e))
  {
    HandleTakesOne(s, e);
    hide Apply, Net;
  }

  lemma HandleTakesOne(s: State, e: Event)
    requires Enabled(s, e) && e.Handle?
    ensures var t := Apply(s, e);
            && t.queue == s.queue[1..] && t.rewinds == s.rewinds && t.posted == s.posted && t.snap == s.snap
            && t.main == s.main
  {
    hide HandlePost;
    if s.queue[0].Post? {
      assert Apply(s, e) == HandlePost(s, e);
      hide Apply;
    }
  }

  lemma FlagsStep(s: State, e: Event)
    requires FlagsInv(s) && Enabled(s, e)
    ensures FlagsInv(Apply(s, e))
  {
    if e.Handle? {
      FlagsHandle(s, e);
    } else {
      hide HandlePost, HandleRewind, Adjust, Requested, ToBytes, Net;
    }
  }

  lemma FlagsHandle(s: State, e: Event)
    requires FlagsInv(s) && Enabled(s, e) && e.Handle?
    ensures FlagsInv(Apply(s, e))
  {
    if s.queue[0].Post? {
      RequestCoversSink(s.spec, s.latency, e.minimum, e.offset, e.sinkLatency);
    }
    hide Adjust, Requested, ToBytes;
  }

  /** A readable queue stays readable when it is adjusted to a positive length. */
  lemma AdjustKeepsReadable(q: Mbq, requested: nat, allowPush: bool)
    requires !q.inPrebuf && (q.Length() > 0 || (allowPush && q.readIndex == q.writeIndex)) && requested > 0
    ensures !Adjust(q, requested, allowPush).inPrebuf && Adjust(q, requested, allowPush).Length() > 0
  {
  }

  lemma FirstHandle(s: State, e: Event)
    requires FirstInv(s) && FlagsInv(s) && Enabled(s, e) && e.Handle? && s.first.Untuned?
    ensures FirstInv(Apply(s, e))
  {
    if s.queue[0].Post? {
      var q := if e.accepted then s.mbq.Push(s.queue[0].length) else s.mbq;
      RequestCoversSink(s.spec, s.latency, e.minimum, e.offset, e.sinkLatency);
      RequestCoversSink(s.spec, s.latency, e.minimum, 0, e.sinkLatency);
      if ToBytes(s.spec, s.latency) > 0 {
        AdjustIsExact(q, Requested(s.spec, s.latency, e.minimum, e.offset, e.sinkLatency));
        AdjustKeepsReadable(q, Requested(s.spec, s.latency, e.minimum, 0, e.sinkLatency), false);
      }
    }
    hide Adjust, Requested, ToBytes;
  }

  lemma FirstPop(s: State, e: Event)
    requires FirstInv(s) && Enabled(s, e) && e.PopEnd? && s.first.Untuned?
    ensures FirstInv(Apply(s, e))
  {
    RequestCoversSink(s.spec, s.latency, e.minimum, 0, e.sinkLatency);
    if ToBytes(s.spec, s.latency) > 0 {
      var q := s.mbq.Settle().Drop(e.taken);
      AdjustKeepsReadable(q, Requested(s.spec, s.latency, e.minimum, 0, e.sinkLatency), true);
    }
    hide Adjust, Requested, ToBytes;
  }

  lemma FirstStep(s: State, e: Event)
    requires FirstInv(s) && FlagsInv(s) && Enabled(s, e)
    ensures FirstInv(Apply(s, e))
  {
    if s.first.Tuned? {
      TunedStays(s, e);
      ConfigurationStays(s, e);
      hide Apply, ToBytes, Mbq.Length;
    } else if e.Handle? {
      FirstHandle(s, e);
    } else if e.PopEnd? {
      FirstPop(s, e);
    } else {
      hide HandlePost, HandleRewind, Adjust, Requested, ToBytes, Net;
    }
  }

  lemma TunedStays(s: State, e: Event)
    requires Enabled(s, e) && s.first.Tuned? && s.tuning.Tuned?
    ensures Apply(s, e).first == s.first && Apply(s, e).tuning.Tuned?
  {
    hide Adjust, Requested, ToBytes, Net, Mbq.Blocked, Mbq.Settle, Mbq.Drop;
    if e.Handle? && s.queue[0].Post? {
      assert Apply(s, e) == HandlePost(s, e);
      hide Apply;
    } else {
      hide HandlePost;
    }
  }

  lemma {:induction false} RunKeepsInv(s: State, es: seq<Event>)
    requires CountersInv(s) && NoRewindInv(s) && FlagsInv(s) && FirstInv(s) && Valid(s, es)
    ensures CountersInv(Run(s, es)) && NoRewindInv(Run(s, es)) && FlagsInv(Run(s, es)) && FirstInv(Run(s, es))
    ensures Run(s, es).spec == s.spec && Run(s, es).latency == s.latency
    decreases |es|
  {
    hide CountersInv, NoRewindInv, FlagsInv, FirstInv;
    if es != [] {
      CountersStep(s, es[0]);
      NoRewindStep(s, es[0]);
      FlagsStep(s, es[0]);
      FirstStep(s, es[0]);
      ConfigurationStays(s, es[0]);
      RunKeepsInv(Apply(s, es[0]), es[1..]);
    }
  }

  lemma ConfigurationStaysInHandle(s: State, e: Event)
    requires Enabled(s, e) && e.Handle?
    ensures Apply(s, e).spec == s.spec && Apply(s, e).latency == s.latency
  {
    hide HandlePost;
  }

  lemma ConfigurationStays(s: State, e: Event)
    requires Enabled(s, e)
    ensures Apply(s, e).spec == s.spec && Apply(s, e).latency == s.latency
  {
    hide HandlePost, Adjust, Requested, ToBytes, Net, Mbq.Blocked, Mbq.Settle, Mbq.Drop;
    if e.Handle? {
      hide HandleRewind;
      ConfigurationStaysInHandle(s, e);
    }
  }

  // ------------------------------------------------------------- main results

  /** When rates are adjusted, the difference of the counter snapshots is exactly
      the net number of bytes that were queued at the sink snapshot plus those
      posted until the source snapshot, although posting and counting are separate
      steps.  Without rewinds it is never negative. */
  lemma SnapshotDifference(spec: Spec, latency: nat, es: seq<Event>)
    requires Valid(Init(spec, latency), es) && Enabled(Run(Init(spec, latency), es), AdjustRates)
    ensures var s := Run(Init(spec, latency), es);
            && s.snap.send - s.snap.recv == s.snap.queued + (s.snap.postedAtSource - s.snap.postedAtSink)
            && (s.rewinds == 0 ==> s.snap.recv <= s.snap.send)
  {
    RunKeepsInv(Init(spec, latency), es);
  }

  /** What adjust_rates() takes for the contents of the buffer. */
  function BufferBytes(snap: Snapshots): nat {
    if snap.recv <= snap.send then snap.length + (snap.send - snap.recv)
    else if snap.length > snap.recv - snap.send then snap.length - (snap.recv - snap.send)
    else 0
  }

  /** The buffer that rates are adjusted for is all that was on its way: what was in the
      queue and what was posted and not yet taken out at the sink's snapshot, and what was
      posted from then until the source's snapshot. */
  lemma BufferIsAllOnItsWay(spec: Spec, latency: nat, es: seq<Event>)
    requires Valid(Init(spec, latency), es) && Enabled(Run(Init(spec, latency), es), AdjustRates)
    ensures var snap := Run(Init(spec, latency), es).snap;
            var all := snap.length + snap.queued + (snap.postedAtSource - snap.postedAtSink);
            BufferBytes(snap) == if all < 0 then 0 else all
    ensures var s := Run(Init(spec, latency), es);
            s.rewinds == 0 ==> BufferBytes(s.snap) >= s.snap.length
  {
    SnapshotDifference(spec, latency, es);
    hide Valid, Run;
  }

  /** The second pop is what sets pop_called. */
  lemma PopFlagsAgree(spec: Spec, latency: nat, es: seq<Event>)
    requires Valid(Init(spec, latency), es)
    ensures var s := Run(Init(spec, latency), es);
            s.popCalled ==> s.firstPopDone && s.pops >= 2
  {
    RunKeepsInv(Init(spec, latency), es);
  }

  /** Rates are never adjusted before the sink thread has seen two pops and then a
      POST at which the queue was set for the requested latency, which is at least one
      sink latency.  If the configured latency lasts a frame, the first such adjustment
      since load was exact. */
  lemma StartUpComesFirst(spec: Spec, latency: nat, es: seq<Event>)
    requires Valid(Init(spec, latency), es) && Enabled(Run(Init(spec, latency), es), AdjustRates)
    ensures var t := Run(Init(spec, latency), es).first;
            && t.Tuned? && t.pops >= 2 && t.requested >= t.least
            && t.requested == Requested(spec, latency, t.minimum, t.offset, t.sinkLatency)
            && (ToBytes(spec, latency) > 0 ==> t.after.Length() == t.requested)
  {
    RunKeepsInv(Init(spec, latency), es);
  }

  /** What the start-up is for: when rates are adjusted for the first time the queue was
      set so that its playing time and the latency of the devices together were the greater
      of configured and minimum latency, up to one frame, unless that left less than one
      sink latency for the queue. */
  lemma StartUpMeetsLatency(spec: Spec, latency: nat, es: seq<Event>) returns (frames: nat)
    requires Valid(Init(spec, latency), es) && Enabled(Run(Init(spec, latency), es), AdjustRates)
    requires ToBytes(spec, latency) > 0
    ensures var t := Run(Init(spec, latency), es).first;
            && t.Tuned? && t.after.Length() == frames * spec.frameSize
            && (Max(latency, t.minimum) - t.offset >= t.sinkLatency ==>
                  frames * 1000000 <= (Max(latency, t.minimum) - t.offset) * spec.rate < (frames + 1) * 1000000)
            && (Max(latency, t.minimum) - t.offset < t.sinkLatency ==>
                  frames * 1000000 <= t.sinkLatency * spec.rate < (frames + 1) * 1000000)
  {
    StartUpComesFirst(spec, latency, es);
    var t := Run(Init(spec, latency), es).first;
    var usec := if Max(latency, t.minimum) - t.offset < t.sinkLatency then t.sinkLatency
                else Max(latency, t.minimum) - t.offset;
    frames := ToBytesIsTime(spec, usec);
    hide ToBytes;
  }

  /** The last adjustment before rates are adjusted, be it the first one or one after a
      move or a suspend, was exact unless the queue was prebuffering or its indexes had
      crossed. */
  lemma LastTuning(spec: Spec, latency: nat, es: seq<Event>)
    requires Valid(Init(spec, latency), es) && Enabled(Run(Init(spec, latency), es), AdjustRates)
    ensures var t := Run(Init(spec, latency), es).tuning;
            && t.Tuned? && t.pops >= 2 && t.requested >= t.least
            && t.requested == Requested(spec, latency, t.minimum, t.offset, t.sinkLatency)
            && (t.after.Length() == t.requested <==>
                  && (t.before.Length() > t.requested ==> !t.before.Blocked())
                  && (t.before.Length() < t.requested ==> t.before.readIndex <= t.before.writeIndex))
            && (t.before.readIndex <= t.before.writeIndex ==> t.after.Length() >= t.least)
  {
    RunKeepsInv(Init(spec, latency), es);
    var t := Run(Init(spec, latency), es).tuning;
    AdjustIsExact(t.before, t.requested);
  }

  /** Before the second pop no POST makes the queue longer than requested. */
  lemma EarlyPostsAreLimited(spec: Spec, latency: nat, es: seq<Event>, e: Event)
    requires Valid(Init(spec, latency), es) && ToBytes(spec, latency) > 0 && e.Handle?
    requires var s := Run(Init(spec, latency), es);
             Enabled(s, e) && s.first.Untuned? && !s.popCalled && s.queue[0].Post?
    ensures var s := Run(Init(spec, latency), es);
            0 < Apply(s, e).mbq.Length() <= Requested(spec, latency, e.minimum, 0, e.sinkLatency)
  {
    RunKeepsInv(Init(spec, latency), es);
    var s := Run(Init(spec, latency), es);
    var q := if e.accepted then s.mbq.Push(s.queue[0].length) else s.mbq;
    var requested := Requested(s.spec, s.latency, e.minimum, 0, e.sinkLatency);
    RequestCoversSink(s.spec, s.latency, e.minimum, 0, e.sinkLatency);
    AdjustKeepsReadable(q, requested, false);
    assert Adjust(q, requested, false).Length() <= requested;
    hide Valid, Run, Requested, ToBytes, Adjust;
  }

  // -------------------------------------------------------- moves and suspends

  /** After a move no rate is adjusted before the main thread has heard of an adjustment of
      the queue. */
  lemma MovePauses(s: State, e: Event, es: seq<Event>)
    requires Enabled(s, e) && (e.MoveSource? || e.MoveSink?) && Valid(Apply(s, e), es) && MainAdjustDone !in es
    ensures !Enabled(Run(Apply(s, e), es), AdjustRates)
  {
    StaysPaused(Apply(s, e), es);
  }

  lemma {:induction false} StaysPaused(s: State, es: seq<Event>)
    requires s.pending && s.main.MainIdle? && Valid(s, es) && MainAdjustDone !in es
    ensures Run(s, es).pending && Run(s, es).main.MainIdle?
    decreases |es|
  {
    if es != [] {
      assert es[0] in es && forall e :: e in es[1..] ==> e in es;
      PausedStep(s, es[0]);
      hide Enabled, Apply;
      StaysPaused(Apply(s, es[0]), es[1..]);
    }
  }

  lemma PausedStep(s: State, e: Event)
    requires s.pending && s.main.MainIdle? && Enabled(s, e) && e != MainAdjustDone
    ensures Apply(s, e).pending && Apply(s, e).main.MainIdle?
  {
    hide Adjust, Requested, ToBytes, Net, Mbq.Blocked, Mbq.Settle, Mbq.Drop;
    if e.Handle? {
      HandleKeepsMain(s, e);
    } else {
      hide HandlePost, HandleRewind;
    }
  }

  lemma HandleKeepsMain(s: State, e: Event)
    requires Enabled(s, e) && e.Handle?
    ensures Apply(s, e).pending == s.pending && Apply(s, e).main == s.main
  {
    hide HandlePost;
    if s.queue[0].Post? {
      assert Apply(s, e) == HandlePost(s, e);
      hide Apply;
    }
  }

  /** The queue will be adjusted at a POST to come. */
  predicate AwaitsTuning(s: State) {
    !s.pushCalled || !s.popCalled || s.popAdjust
  }

  /** The step is a POST at which the queue is adjusted. */
  ghost predicate IsTuning(s: State, e: Event) {
    && e.Handle? && s.queue != [] && s.queue[0].Post? && s.popCalled && AwaitsTuning(s)
  }

  ghost predicate Tunes(s: State, es: seq<Event>)
    requires Valid(s, es)
    decreases |es|
  {
    es != [] && (IsTuning(s, es[0]) || Tunes(Apply(s, es[0]), es[1..]))
  }

  /** Nothing but such a POST ends the waiting, and every one of them adjusts the queue for
      the latencies of the time. */
  lemma TuningStep(s: State, e: Event)
    requires Enabled(s, e)
    ensures AwaitsTuning(s) && !AwaitsTuning(Apply(s, e)) ==> IsTuning(s, e)
    ensures IsTuning(s, e) ==>
              var t := Apply(s, e);
              && t.tuning.Tuned? && t.mbq == t.tuning.after && t.adjustDone == s.adjustDone + 1 && !AwaitsTuning(t)
              && t.tuning.requested == Requested(s.spec, s.latency, e.minimum, e.offset, e.sinkLatency)
  {
    hide Adjust, Requested, ToBytes, Net, Mbq.Blocked, Mbq.Settle, Mbq.Drop;
    if !e.Handle? {
      hide HandlePost, HandleRewind;
    } else if s.queue[0].Post? {
      assert Apply(s, e) == HandlePost(s, e);
      hide Apply;
    } else {
      hide HandlePost;
    }
  }

  /** Every move and every suspend is followed by a new adjustment of the queue: in every
      run from there the queue has been adjusted or is still going to be. */
  lemma ChangeIsTunedFor(s: State, e: Event, es: seq<Event>)
    requires Enabled(s, e) && (e.MoveSource? || e.MoveSink? || e.SuspendSource? || e.SuspendSink?)
    requires Valid(Apply(s, e), es)
    ensures Tunes(Apply(s, e), es) || AwaitsTuning(Run(Apply(s, e), es))
  {
    TunedOrAwaits(Apply(s, e), es);
  }

  lemma {:induction false} TunedOrAwaits(s: State, es: seq<Event>)
    requires AwaitsTuning(s) && Valid(s, es)
    ensures Tunes(s, es) || AwaitsTuning(Run(s, es))
    decreases |es|
  {
    hide Enabled, Apply, AwaitsTuning, IsTuning;
    if es != [] {
      TuningStep(s, es[0]);
      if !IsTuning(s, es[0]) {
        TunedOrAwaits(Apply(s, es[0]), es[1..]);
      }
    }
  }

  // --------------------------------------------------- runs that miss the length

  ghost predicate Reachable(s: State, spec: Spec, latency: nat) {
    exists es :: Valid(Init(spec, latency), es) && Run(Init(spec, latency), es) == s
  }

  lemma {:induction false} Append(s: State, es: seq<Event>, e: Event)
    requires Valid(s, es) && Enabled(Run(s, es), e)
    ensures Valid(s, es + [e]) && Run(s, es + [e]) == Apply(Run(s, es), e)
    decreases |es|
  {
    hide Enabled, Apply;
    if es == [] {
      assert es + [e] == [e] && [e][1..] == [];
    } else {
      assert (es + [e])[1..] == es[1..] + [e];
      Append(Apply(s, es[0]), es[1..], e);
    }
  }

  lemma Moves(s: State, spec: Spec, latency: nat, e: Event) returns (t: State)
    requires Reachable(s, spec, latency) && Enabled(s, e)
    ensures t == Apply(s, e) && Reachable(t, spec, latency)
  {
    hide Enabled, Apply, Init;
    var es :| Valid(Init(spec, latency), es) && Run(Init(spec, latency), es) == s;
    Append(Init(spec, latency), es, e);
    t := Apply(s, e);
  }

  /** One pop. */
  lemma Pops(s: State, spec: Spec, latency: nat, taken: nat, zero: nat) returns (t: State)
    requires Reachable(s, spec, latency) && zero == 0 && s.spec == spec && s.latency == latency
    requires s.sink.SinkIdle? && s.queue == [] && (s.mbq.Length() > 0 ==> taken <= s.mbq.Length())
    ensures Reachable(t, spec, latency)
    ensures t == s.(firstPopDone := true, popCalled := s.popCalled || s.firstPopDone,
                    popAdjust := s.popAdjust || (!s.popCalled && s.firstPopDone), pops := s.pops + 1, mbq := t.mbq)
    ensures s.mbq.Blocked() ==> t.mbq == s.mbq.Settle()
    ensures !s.mbq.Blocked() ==>
              var q := s.mbq.Settle().Drop(taken);
              t.mbq == if s.pushCalled then q else Adjust(q, ToBytes(spec, latency), true)
  {
    hide ToBytes, Reachable, Adjust;
    t := Moves(s, spec, latency, PopBegin);
    t := Moves(t, spec, latency, PopEnd(taken, zero, zero));
  }

  /** A POST of m bytes, at which the queue is adjusted. */
  lemma PostTunes(s: State, spec: Spec, latency: nat, m: nat, minimum: nat, zero: nat) returns (t: State)
    requires Reachable(s, spec, latency) && zero == 0 && s.spec == spec && s.latency == latency
    requires s.queue == [] && s.source.SourceIdle? && s.popCalled && !s.pushCalled && m > 0
    ensures Reachable(t, spec, latency)
    ensures var q := s.mbq.Push(m);
            var requested := ToBytes(spec, Max(latency, minimum));
            var tuned := Tuned(q, Adjust(q, requested, true), requested, ToBytes(spec, zero), s.pops, minimum,
                               zero, zero);
            t == s.(mbq := tuned.after, tuning := tuned, first := if s.first.Untuned? then tuned else s.first,
                    pushCalled := true, popAdjust := false, adjustDone := s.adjustDone + 1,
                    recvCounter := s.recvCounter + m, sendCounter := s.sendCounter + m, posted := s.posted + m)
  {
    hide ToBytes, Reachable, Adjust;
    t := Moves(s, spec, latency, SendPost(m));
    assert t.queue == [Post(m)];
    t := Moves(t, spec, latency, Count);
    t := Moves(t, spec, latency, Handle(true, minimum, zero, zero));
  }

  /** The main thread learns of an adjustment and takes its snapshots. */
  lemma Snaps(s: State, spec: Spec, latency: nat) returns (t: State)
    requires Reachable(s, spec, latency)
    requires s.main.MainIdle? && s.adjustDone > 0 && s.sink.SinkIdle? && s.source.SourceIdle?
    ensures Reachable(t, spec, latency) && Enabled(t, AdjustRates) && t.tuning == s.tuning && t.first == s.first
  {
    hide Reachable, Net;
    t := Moves(s, spec, latency, MainAdjustDone);
    t := Moves(t, spec, latency, SnapSink);
    t := Moves(t, spec, latency, SnapSource);
  }

  /** A latency of less than a frame leaves the queue empty, so that two pops fail and
      the queue is prebuffering at the first POST, which then cannot be dropped. */
  lemma ShortLatencyMisses(spec: Spec, latency: nat, m: nat, zero: nat) returns (s: State)
    requires ToBytes(spec, latency) == 0 < m && zero == 0
    ensures Reachable(s, spec, latency) && Enabled(s, AdjustRates) && s.first.Tuned?
    ensures s.first.requested == 0 && s.first.after.Length() == m
  {
    var i := Init(spec, latency);
    assert Valid(i, []) && Run(i, []) == i;
    hide ToBytes, Reachable;
    s := Moves(i, spec, latency, SetPrebuf(m + 1));
    s := Pops(s, spec, latency, zero, zero);
    s := Pops(s, spec, latency, zero, zero);
    assert s.mbq == Mbq(0, 0, m + 1, true);
    s := PostTunes(s, spec, latency, m, zero, zero);
    s := Snaps(s, spec, latency);
  }

  /** No run of the stream adjusts rates after a first adjustment that missed. */
  ghost predicate FirstIsAlwaysExact(spec: Spec, latency: nat) {
    forall s :: Reachable(s, spec, latency) && Enabled(s, AdjustRates) ==>
                  s.first.Tuned? && s.first.after.Length() == s.first.requested
  }

  /** The first adjustment is exact in every run if and only if the configured latency
      lasts at least one frame. */
  lemma FirstTuningIsExact(spec: Spec, latency: nat)
    ensures FirstIsAlwaysExact(spec, latency) <==> ToBytes(spec, latency) > 0
  {
    if ToBytes(spec, latency) > 0 {
      forall s | Reachable(s, spec, latency) && Enabled(s, AdjustRates)
        ensures s.first.Tuned? && s.first.after.Length() == s.first.requested
      {
        var es :| Valid(Init(spec, latency), es) && Run(Init(spec, latency), es) == s;
        StartUpComesFirst(spec, latency, es);
      }
    } else {
      hide ToBytes;
      var s := ShortLatencyMisses(spec, latency, 1, 0);
    }
  }

  /** The stream is running: after two pops the first POST has set the queue to the
      configured latency, and then the queue has been emptied. */
  lemma Emptied(spec: Spec, latency: nat, prebuf: nat, zero: nat) returns (s: State)
    requires ToBytes(spec, latency) > 0 && zero == 0
    ensures var n := ToBytes(spec, latency);
            && Reachable(s, spec, latency) && s.spec == spec && s.latency == latency
            && s.mbq == Mbq(2 * n, 2 * n, prebuf, false)
            && s.queue == [] && s.source.SourceIdle? && s.sink.SinkIdle? && s.main.MainIdle? && s.adjustDone == 1
            && s.popCalled && s.firstPopDone && s.pushCalled && s.first.Tuned? && s.first.after.Length() == n
  {
    var i := Init(spec, latency);
    assert Valid(i, []) && Run(i, []) == i;
    hide ToBytes, Reachable;
    var n := ToBytes(spec, latency);
    s := Moves(i, spec, latency, SetPrebuf(prebuf));
    s := Pops(s, spec, latency, zero, zero);
    s := Pops(s, spec, latency, zero, zero);
    assert s.mbq == Mbq(0, n, prebuf, false);
    s := PostTunes(s, spec, latency, n, zero, zero);
    assert s.mbq == Mbq(n, 2 * n, prebuf, false);
    s := Pops(s, spec, latency, n, zero);
  }

  /** For every stream: an empty queue goes back to prebuffering.  If the source is then
      suspended, the next POST finds it too long and cannot shorten it. */
  lemma PrebufferingMisses(spec: Spec, latency: nat, m: nat, zero: nat) returns (s: State)
    requires 0 < ToBytes(spec, latency) < m && zero == 0
    ensures Reachable(s, spec, latency) && Enabled(s, AdjustRates) && s.tuning.Tuned?
    ensures s.tuning.requested == ToBytes(spec, latency) < m == s.tuning.after.Length()
  {
    s := Emptied(spec, latency, m + 1, zero);
    hide ToBytes, Reachable;
    s := Pops(s, spec, latency, zero, zero);
    s := Moves(s, spec, latency, SuspendSource);
    s := PostTunes(s, spec, latency, m, zero, zero);
    s := Snaps(s, spec, latency);
  }

  /** For every stream: a rewind of the source moves the write index of an empty queue
      behind its read index.  If the source is then suspended, a shorter POST leaves the
      queue too short. */
  lemma CrossedIndexesMiss(spec: Spec, latency: nat, m: nat, rewind: nat, prebuf: nat, zero: nat)
    returns (s: State)
    requires 0 < ToBytes(spec, latency) && 0 < m < rewind && zero == 0
    ensures Reachable(s, spec, latency) && Enabled(s, AdjustRates) && s.tuning.Tuned?
    ensures s.tuning.after.Length() < s.tuning.requested == ToBytes(spec, latency)
  {
    s := Emptied(spec, latency, prebuf, zero);
    hide ToBytes, Reachable;
    s := Moves(s, spec, latency, SendRewind(rewind));
    assert s.queue == [RewindBy(rewind)];
    s := Moves(s, spec, latency, Count);
    s := Moves(s, spec, latency, Handle(true, zero, zero, zero));
    s := Moves(s, spec, latency, SuspendSource);
    s := PostTunes(s, spec, latency, m, zero, zero);
    s := Snaps(s, spec, latency);
  }

  /** Runs at the default latency and CD quality in which memblockq_adjust() has left the
      queue longer, and shorter, than requested. */
  lemma AdjustCanMiss() returns (long: State, short: State)
    ensures Reachable(long, Spec(44100, 4), 200000) && Reachable(short, Spec(44100, 4), 200000)
    ensures Enabled(long, AdjustRates) && long.tuning.Tuned? && long.tuning.after.Length() > long.tuning.requested
    ensures Enabled(short, AdjustRates) && short.tuning.Tuned? && short.tuning.after.Length() < short.tuning.requested
  {
    assert ToBytes(Spec(44100, 4), 200000) == 35280;
    hide ToBytes, Reachable;
    long := PrebufferingMisses(Spec(44100, 4), 200000, 40000, 0);
    short := CrossedIndexesMiss(Spec(44100, 4), 200000, 4000, 8000, 16384, 0);
  }
}
