/** The audio path of module-combine-sink.c as a state machine over its threads.

    One sink thread renders audio on behalf of whichever slave output asks for
    it.  It places the chunk directly into the queue of the asking output and
    posts it to the message queue of every other registered output.  Rendering,
    each single post and the direct placement are separate steps, so the output
    threads interleave anywhere in between. */
module CombineFanout {
  import opened Sequences

  type Bytes = seq<bv8>
  type Id = nat

  // MEMBLOCKQ_MAXLENGTH
  const MAX_QUEUE: nat := 1024 * 1024 * 16

  /** The life of an output: flushed by output_disable, registered by attach,
      unregistered by detach. */
  datatype Phase = Disabled | Registered | Detached

  /** `popped` and `backlog` describe the read side of the memblockq: all bytes
      handed to the slave, and how many of them a rewind can still bring back.
      `start`, `dropped` and `skipped` are history: the sink's counter at
      registration, the bytes lost since, and the posted bytes that were flushed
      without being counted. */
  datatype Output = Output(
    phase: Phase,
    slaveRunning: bool,
    inq: seq<Bytes>,
    memblockq: Bytes,
    popped: Bytes,
    backlog: nat,
    receiveCounter: nat,
    snapshot: nat,
    start: nat,
    dropped: nat,
    skipped: nat)

  /** What the sink thread is doing: in its main loop, emptying the asking
      output's message queue, or handing out a rendered chunk. */
  datatype SinkPc = Idle | Draining(asker: Id) | Posting(asker: Id, chunk: Bytes, rest: seq<Id>)

  /** `rendered` is the history of everything the sink ever rendered. */
  datatype State = State(
    running: bool,
    rendered: Bytes,
    counter: nat,
    active: seq<Id>,
    outputs: map<Id, Output>,
    pc: SinkPc,
    sendSnapshot: nat)

  datatype Event =
    | New(o: Id)
    | Register(o: Id)
    | Unregister(o: Id)
    | Disable(o: Id)
    | SlaveState(o: Id, on: bool)
    | SinkState(on: bool)
    | HandlePost(o: Id)
    | Need(o: Id)
    | DrainOne
    | RenderChunk(c: Bytes)
    | PostNext
    | PlaceDirect
    | Answer
    | NullRender(c: Bytes)
    | Pop(o: Id, n: nat)
    | Rewind(o: Id, n: nat)
    | SnapshotOutput(o: Id)
    | SnapshotSink

  const Init := State(false, [], 0, [], map[], Idle, 0)

  function Flat(q: seq<Bytes>): Bytes {
    if q == [] then [] else q[0] + Flat(q[1..])
  }

  function Without(ids: seq<Id>, o: Id): seq<Id> {
    if ids == [] then []
    else if ids[0] == o then Without(ids[1..], o)
    else [ids[0]] + Without(ids[1..], o)
  }

  /** The asking output waits inside a synchronous message until it is answered. */
  predicate Waiting(s: State, o: Id) {
    !s.pc.Idle? && s.pc.asker == o
  }

  /** The handler of SINK_INPUT_MESSAGE_POST. */
  function Receive(o: Output): Output
    requires o.inq != []
  {
    var c := o.inq[0];
    var o := o.(inq := o.inq[1..]);
    if !o.slaveRunning then
      o.(memblockq := [], backlog := 0, dropped := o.dropped + |o.memblockq| + |c|, skipped := o.skipped + |c|)
    else if |o.memblockq| + |c| > MAX_QUEUE then
      // pa_memblockq_push_align() fails, its result is ignored
      o.(receiveCounter := o.receiveCounter + |c|, dropped := o.dropped + |c|)
    else
      o.(receiveCounter := o.receiveCounter + |c|, memblockq := o.memblockq + c)
  }

  predicate Enabled(s: State, e: Event) {
    match e
    case New(o) => o !in s.outputs
    case Register(o) => s.pc.Idle? && o in s.outputs && s.outputs[o].phase.Disabled?
    case Unregister(o) => s.pc.Idle? && o in s.outputs && s.outputs[o].phase.Registered?
    case Disable(o) => o in s.outputs && s.outputs[o].phase.Detached?
    case SlaveState(o, on) => o in s.outputs && !Waiting(s, o)
    case SinkState(on) => s.pc.Idle?
    case HandlePost(o) => o in s.outputs && !s.outputs[o].phase.Disabled? && !Waiting(s, o) && s.outputs[o].inq != []
    case Need(o) => s.pc.Idle? && s.running && o in s.outputs && s.outputs[o].phase.Registered?
    case DrainOne => s.pc.Draining? && s.pc.asker in s.outputs && s.outputs[s.pc.asker].inq != []
    case RenderChunk(c) =>
      && s.pc.Draining? && s.pc.asker in s.outputs && 0 < |c| <= MAX_QUEUE
      && s.outputs[s.pc.asker].inq == [] && s.outputs[s.pc.asker].memblockq == []
    case PostNext => s.pc.Posting? && s.pc.rest != [] && s.pc.rest[0] in s.outputs
    case PlaceDirect => s.pc.Posting? && s.pc.rest == [] && s.pc.asker in s.outputs
    case Answer =>
      && s.pc.Draining? && s.pc.asker in s.outputs
      && s.outputs[s.pc.asker].inq == [] && s.outputs[s.pc.asker].memblockq != []
    case NullRender(c) => s.pc.Idle? && s.running && s.active == [] && 0 < |c| <= MAX_QUEUE
    case Pop(o, n) =>
      o in s.outputs && !Waiting(s, o) && s.outputs[o].phase.Registered? && 0 < n <= |s.outputs[o].memblockq|
    case Rewind(o, n) =>
      && o in s.outputs && !Waiting(s, o) && s.outputs[o].phase.Registered?
      && n <= s.outputs[o].backlog && n <= |s.outputs[o].popped|
    case SnapshotOutput(o) => o in s.outputs && !Waiting(s, o)
    case SnapshotSink => s.pc.Idle?
  }

  function Apply(s: State, e: Event): State
    requires Enabled(s, e)
  {
    match e
    case New(o) =>
      s.(outputs := s.outputs[o := Output(Disabled, false, [], [], [], 0, 0, 0, 0, 0, 0)])
    case Register(o) =>
      s.(active := [o] + s.active,
         outputs := s.outputs[o := s.outputs[o].(phase := Registered, popped := [], backlog := 0,
                                                 receiveCounter := s.counter, start := s.counter,
                                                 dropped := 0, skipped := 0)])
    case Unregister(o) =>
      s.(active := Without(s.active, o), outputs := s.outputs[o := s.outputs[o].(phase := Detached)])
    case Disable(o) =>
      s.(outputs := s.outputs[o := s.outputs[o].(phase := Disabled, memblockq := [], backlog := 0, inq := [])])
    case SlaveState(o, on) =>
      s.(outputs := s.outputs[o := s.outputs[o].(slaveRunning := on)])
    case SinkState(on) =>
      s.(running := on)
    case HandlePost(o) =>
      s.(outputs := s.outputs[o := Receive(s.outputs[o])])
    case Need(o) =>
      s.(pc := Draining(o))
    case DrainOne =>
      s.(outputs := s.outputs[s.pc.asker := Receive(s.outputs[s.pc.asker])])
    case RenderChunk(c) =>
      var o := s.outputs[s.pc.asker];
      s.(rendered := s.rendered + c, counter := s.counter + |c|,
         outputs := s.outputs[s.pc.asker := o.(receiveCounter := o.receiveCounter + |c|)],
         pc := Posting(s.pc.asker, c, Without(s.active, s.pc.asker)))
    case PostNext =>
      var o := s.outputs[s.pc.rest[0]];
      s.(outputs := s.outputs[s.pc.rest[0] := o.(inq := o.inq + [s.pc.chunk])],
         pc := s.pc.(rest := s.pc.rest[1..]))
    case PlaceDirect =>
      var o := s.outputs[s.pc.asker];
      s.(outputs := s.outputs[s.pc.asker := o.(memblockq := o.memblockq + s.pc.chunk)],
         pc := Draining(s.pc.asker))
    case Answer =>
      s.(pc := Idle)
    case NullRender(c) =>
      s.(rendered := s.rendered + c, counter := s.counter + |c|)
    case Pop(o, n) =>
      var p := s.outputs[o];
      s.(outputs := s.outputs[o := p.(popped := p.popped + p.memblockq[..n], backlog := p.backlog + n,
                                      memblockq := p.memblockq[n..])])
    case Rewind(o, n) =>
      var p := s.outputs[o];
      var k := |p.popped| - n;
      s.(outputs := s.outputs[o := p.(popped := p.popped[..k], backlog := p.backlog - n,
                                      memblockq := p.popped[k..] + p.memblockq)])
    case SnapshotOutput(o) =>
      s.(outputs := s.outputs[o := s.outputs[o].(snapshot := s.outputs[o].receiveCounter)])
    case SnapshotSink =>
      s.(sendSnapshot := s.counter)
  }

  ghost predicate Valid(s: State, es: seq<Event>)
    decreases |es|
  {
    es == [] || (Enabled(s, es[0]) && Valid(Apply(s, es[0]), es[1..]))
  }

  ghost function Run(s: State, es: seq<Event>): State
    requires Valid(s, es)
    decreases |es|
  {
    if es == [] then s else Run(Apply(s, es[0]), es[1..])
  }

  // ---------------------------------------------------------------- invariant

  /** The part of the stream that was rendered but has not reached `o` yet. */
  function Pending(pc: SinkPc, o: Id): Bytes {
    if pc.Posting? && (o == pc.asker || o in pc.rest) then pc.chunk else []
  }

  /** Of that, the part that `o` has not been credited with. */
  function Uncredited(pc: SinkPc, o: Id): nat {
    if pc.Posting? && o in pc.rest then |pc.chunk| else 0
  }

  /** What an output has been given, is about to read and has waiting. */
  function Stream(p: Output): Bytes {
    p.popped + p.memblockq + Flat(p.inq)
  }

  ghost predicate OutputInv(s: State, o: Id, p: Output) {
    && p.snapshot <= s.counter
    && p.receiveCounter + |Flat(p.inq)| <= s.counter
    && (p.phase.Disabled? ==> p.inq == [] && p.memblockq == [])
    && (p.phase.Registered? <==> o in s.active)
    && (p.phase.Registered? ==>
          && p.start <= s.counter == |s.rendered|
          && |Stream(p)| + |Pending(s.pc, o)| + p.dropped == s.counter - p.start
          && p.receiveCounter + |Flat(p.inq)| + Uncredited(s.pc, o) + p.skipped == s.counter
          && (p.dropped == 0 ==> Stream(p) + Pending(s.pc, o) == s.rendered[p.start..]))
  }

  ghost predicate PcInv(s: State) {
    && (!s.pc.Idle? ==> s.pc.asker in s.active)
    && (s.pc.Posting? ==>
          && s.pc.asker !in s.pc.rest
          && NoRepeats(s.pc.rest)
          && (forall o :: o in s.pc.rest ==> o in s.active)
          && 0 < |s.pc.chunk| <= MAX_QUEUE
          && s.pc.asker in s.outputs
          && s.outputs[s.pc.asker].inq == [] && s.outputs[s.pc.asker].memblockq == [])
  }

  ghost predicate Inv(s: State) {
    && s.counter == |s.rendered|
    && s.sendSnapshot <= s.counter
    && NoRepeats(s.active)
    && (forall o :: o in s.active ==> o in s.outputs)
    && PcInv(s)
    && forall o :: o in s.outputs ==> OutputInv(s, o, s.outputs[o])
  }

  // ------------------------------------------------------------------- proofs

  lemma {:induction false} FlatAppend(q: seq<Bytes>, c: Bytes)
    ensures Flat(q + [c]) == Flat(q) + c
  {
    if q == [] {
      assert q + [c] == [c];
    } else {
      FlatAppend(q[1..], c);
      assert (q + [c])[1..] == q[1..] + [c];
    }
  }

  lemma {:induction false} WithoutIsFilter(ids: seq<Id>, o: Id)
    requires NoRepeats(ids)
    ensures NoRepeats(Without(ids, o))
    ensures forall x :: x in Without(ids, o) <==> x in ids && x != o
  {
    if ids != [] {
      WithoutIsFilter(ids[1..], o);
      assert forall x :: x in ids <==> x == ids[0] || x in ids[1..];
      if ids[0] != o {
        assert ids[0] !in Without(ids[1..], o);
      }
    }
  }

  /** Replacing one output that still satisfies its part of the invariant. */
  lemma OneOutput(s: State, o: Id, q: Output)
    requires Inv(s) && o in s.outputs && OutputInv(s, o, q)
    requires s.pc.Posting? && o == s.pc.asker ==> q.inq == [] && q.memblockq == []
    ensures Inv(s.(outputs := s.outputs[o := q]))
  {
    var t := s.(outputs := s.outputs[o := q]);
    forall x | x in t.outputs
      ensures OutputInv(t, x, t.outputs[x])
    {
      assert OutputInv(s, x, t.outputs[x]);
    }
  }

  lemma ReceiveKeeps(s: State, o: Id, p: Output)
    requires OutputInv(s, o, p) && p.inq != [] && !p.phase.Disabled?
    requires s.pc.Posting? ==> o != s.pc.asker
    ensures OutputInv(s, o, Receive(p))
  {
    assert Flat(p.inq) == p.inq[0] + Flat(p.inq[1..]);
    var q := Receive(p);
    if p.phase.Registered? && q.dropped == 0 {
      assert p.dropped == 0;
      assert p.inq[0] == [] || Stream(q) == Stream(p);
      assert Stream(q) == Stream(p);
    }
  }

  lemma StepReceive(s: State, e: Event)
    requires Inv(s) && Enabled(s, e) && (e.HandlePost? || e.DrainOne?)
    ensures Inv(Apply(s, e))
  {
    var o := if e.HandlePost? then e.o else s.pc.asker;
    ReceiveKeeps(s, o, s.outputs[o]);
    OneOutput(s, o, Receive(s.outputs[o]));
  }

  lemma RenderKeeps(s: State, o: Id, p: Output, q: Output, t: State)
    requires s.pc.Draining? && OutputInv(s, o, p)
    requires t.pc.Posting? && t.rendered == s.rendered + t.pc.chunk && t.counter == s.counter + |t.pc.chunk|
    requires t.active == s.active && t.pc.asker == s.pc.asker && t.pc.asker !in t.pc.rest
    requires o in s.active ==> o == t.pc.asker || o in t.pc.rest
    requires q == if o == t.pc.asker then p.(receiveCounter := p.receiveCounter + |t.pc.chunk|) else p
    ensures OutputInv(t, o, q)
  {
    if p.phase.Registered? {
      assert (s.rendered + t.pc.chunk)[p.start..] == s.rendered[p.start..] + t.pc.chunk;
    }
  }

  lemma StepRender(s: State, c: Bytes)
    requires Inv(s) && Enabled(s, RenderChunk(c))
    ensures Inv(Apply(s, RenderChunk(c)))
  {
    var t := Apply(s, RenderChunk(c));
    WithoutIsFilter(s.active, s.pc.asker);
    forall o | o in t.outputs
      ensures OutputInv(t, o, t.outputs[o])
    {
      RenderKeeps(s, o, s.outputs[o], t.outputs[o], t);
    }
    hide OutputInv;
  }

  lemma PostKeeps(s: State, p: Output, t: State)
    requires s.pc.Posting? && s.pc.rest != [] && NoRepeats(s.pc.rest) && s.pc.rest[0] != s.pc.asker
    requires OutputInv(s, s.pc.rest[0], p) && s.pc.rest[0] in s.active
    requires t == s.(pc := s.pc.(rest := s.pc.rest[1..]), outputs := t.outputs)
    ensures OutputInv(t, s.pc.rest[0], p.(inq := p.inq + [s.pc.chunk]))
  {
    FlatAppend(p.inq, s.pc.chunk);
    var q := p.(inq := p.inq + [s.pc.chunk]);
    assert s.pc.rest[0] !in t.pc.rest;
    assert Stream(q) == Stream(p) + s.pc.chunk;
  }

  lemma StepPost(s: State)
    requires Inv(s) && Enabled(s, PostNext)
    ensures Inv(Apply(s, PostNext))
  {
    var t := Apply(s, PostNext);
    var j := s.pc.rest[0];
    assert forall o :: o in s.pc.rest <==> o == j || o in t.pc.rest;
    forall o | o in t.outputs
      ensures OutputInv(t, o, t.outputs[o])
    {
      assert OutputInv(s, o, s.outputs[o]);
      if o == j {
        PostKeeps(s, s.outputs[j], t);
      }
    }
  }

  lemma StepPlace(s: State)
    requires Inv(s) && Enabled(s, PlaceDirect)
    ensures Inv(Apply(s, PlaceDirect))
  {
    var t := Apply(s, PlaceDirect);
    forall o | o in t.outputs
      ensures OutputInv(t, o, t.outputs[o])
    {
      assert OutputInv(s, o, s.outputs[o]);
      if o == s.pc.asker {
        var p := s.outputs[o];
        assert Stream(p) + s.pc.chunk == Stream(t.outputs[o]);
      }
    }
  }

  lemma StepPopRewind(s: State, e: Event)
    requires Inv(s) && Enabled(s, e) && (e.Pop? || e.Rewind?)
    ensures Inv(Apply(s, e))
  {
    var t := Apply(s, e);
    var p, q := s.outputs[e.o], t.outputs[e.o];
    assert OutputInv(s, e.o, p);
    assert q.popped + q.memblockq == p.popped + p.memblockq;
    assert Stream(q) == Stream(p);
    OneOutput(s, e.o, q);
  }

  lemma StepLifecycle(s: State, e: Event)
    requires Inv(s) && Enabled(s, e) && (e.New? || e.Register? || e.Unregister? || e.Disable?)
    ensures Inv(Apply(s, e))
  {
    var t := Apply(s, e);
    if e.Unregister? {
      WithoutIsFilter(s.active, e.o);
    }
    if e.Register? {
      assert forall x :: x in t.active <==> x == e.o || x in s.active;
      assert s.rendered[|s.rendered|..] == [];
    }
    forall o | o in t.outputs
      ensures OutputInv(t, o, t.outputs[o])
    {
      if o in s.outputs {
        assert OutputInv(s, o, s.outputs[o]);
      }
    }
  }

  lemma StepNull(s: State, c: Bytes)
    requires Inv(s) && Enabled(s, NullRender(c))
    ensures Inv(Apply(s, NullRender(c)))
  {
  }

  lemma StepOneOutput(s: State, e: Event)
    requires Inv(s) && Enabled(s, e) && (e.SlaveState? || e.SnapshotOutput?)
    ensures Inv(Apply(s, e))
  {
    OneOutput(s, e.o, Apply(s, e).outputs[e.o]);
  }

  lemma StepSinkOnly(s: State, e: Event)
    requires Inv(s) && Enabled(s, e) && (e.SinkState? || e.Need? || e.Answer? || e.SnapshotSink?)
    ensures Inv(Apply(s, e))
  {
    var t := Apply(s, e);
    forall o | o in t.outputs
      ensures OutputInv(t, o, t.outputs[o])
    {
      assert OutputInv(s, o, s.outputs[o]);
    }
  }

  /** Every step of every thread keeps the invariant. */
  lemma StepKeepsInv(s: State, e: Event)
    requires Inv(s) && Enabled(s, e)
    ensures Inv(Apply(s, e))
  {
    hide Inv, Apply;
    match e
    case New(_) => StepLifecycle(s, e);
    case Register(_) => StepLifecycle(s, e);
    case Unregister(_) => StepLifecycle(s, e);
    case Disable(_) => StepLifecycle(s, e);
    case HandlePost(o) => StepReceive(s, e);
    case DrainOne => StepReceive(s, e);
    case RenderChunk(c) => StepRender(s, c);
    case PostNext => StepPost(s);
    case PlaceDirect => StepPlace(s);
    case NullRender(c) => StepNull(s, c);
    case Pop(_, _) => StepPopRewind(s, e);
    case Rewind(_, _) => StepPopRewind(s, e);
    case SlaveState(_, _) => StepOneOutput(s, e);
    case SnapshotOutput(_) => StepOneOutput(s, e);
    case SinkState(_) => StepSinkOnly(s, e);
    case Need(_) => StepSinkOnly(s, e);
    case Answer => StepSinkOnly(s, e);
    case SnapshotSink => StepSinkOnly(s, e);
  }

  lemma {:induction false} RunKeepsInv(s: State, es: seq<Event>)
    requires Inv(s) && Valid(s, es)
    ensures Inv(Run(s, es))
    decreases |es|
  {
    if es != [] {
      StepKeepsInv(s, es[0]);
      RunKeepsInv(Apply(s, es[0]), es[1..]);
    }
  }

  // ------------------------------------------------------------- main results

  /** When the sink thread places a chunk directly, nothing is queued for the
      asking output that the chunk could overtake, and the request is then
      answered by that one chunk. */
  lemma DirectPlacementIsInOrder(es: seq<Event>)
    requires Valid(Init, es) && Enabled(Run(Init, es), PlaceDirect)
    ensures var s := Run(Init, es);
            && s.outputs[s.pc.asker].inq == [] && s.outputs[s.pc.asker].memblockq == []
            && Enabled(Apply(s, PlaceDirect), Answer)
  {
    RunKeepsInv(Init, es);
  }

  /** The main thread takes the snapshot of the sink after those of the outputs,
      so the unsigned subtraction in adjust_rates never wraps, whatever the other
      threads did in between. */
  lemma SnapshotsNeverWrap(es: seq<Event>, o: Id)
    requires Valid(Init, es) && Enabled(Run(Init, es), SnapshotSink) && o in Run(Init, es).outputs
    ensures var s := Apply(Run(Init, es), SnapshotSink);
            s.outputs[o].snapshot <= s.sendSnapshot
  {
    RunKeepsInv(Init, es);
    var s := Run(Init, es);
    assert OutputInv(s, o, s.outputs[o]);
  }

  lemma {:induction false} SnapshotStays(s: State, es: seq<Event>, o: Id)
    requires Valid(s, es) && o in s.outputs && SnapshotOutput(o) !in es
    ensures o in Run(s, es).outputs && Run(s, es).outputs[o].snapshot == s.outputs[o].snapshot
    decreases |es|
  {
    if es != [] {
      assert es[0] != SnapshotOutput(o);
      SnapshotStays(Apply(s, es[0]), es[1..], o);
    }
  }
}
