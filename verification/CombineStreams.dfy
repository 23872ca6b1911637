/** What the outputs of module-combine-sink.c see of the rendered stream, and which
    steps make them lose some of it. */
module CombineStreams {
  import opened CombineFanout

  // ---------------------------------------------------------- the steps that lose bytes

  /** The output takes a chunk from its message queue. */
  ghost predicate Handles(s: State, e: Event, o: Id) {
    && o in s.outputs && s.outputs[o].inq != []
    && (e == HandlePost(o) || (e.DrainOne? && s.pc.Draining? && s.pc.asker == o))
  }

  /** The chunk arrives while the slave is not running, so all that is queued is flushed. */
  ghost predicate Flushes(s: State, e: Event, o: Id) {
    Handles(s, e, o) && !s.outputs[o].slaveRunning
  }

  /** The chunk arrives at a queue that cannot hold it. */
  ghost predicate Refuses(s: State, e: Event, o: Id) {
    Handles(s, e, o) && s.outputs[o].slaveRunning && |s.outputs[o].memblockq| + |s.outputs[o].inq[0]| > MAX_QUEUE
  }

  ghost predicate LosesBytes(s: State, e: Event, o: Id) {
    Flushes(s, e, o) || Refuses(s, e, o)
  }

  // ------------------------------------------------------------------ states of a run

  lemma {:induction false} Append(s: State, es: seq<Event>, e: Event)
    requires Valid(s, es) && Enabled(Run(s, es), e)
    ensures Valid(s, es + [e]) && Run(s, es + [e]) == Apply(Run(s, es), e)
    decreases |es|
  {
    hide Enabled, Apply;
    if es == [] {
      assert es + [e] == [e] && [e][1..] == [];
    } else {
      assert (es + [e])[1..] == es[1..] + [e];
      Append(Apply(s, es[0]), es[1..], e);
    }
  }

  lemma {:induction false} Prefix(s: State, es: seq<Event>, i: nat)
    requires Valid(s, es) && i <= |es|
    ensures Valid(s, es[..i])
    decreases |es|
  {
    hide Enabled, Apply;
    if i > 0 {
      assert es[..i][1..] == es[1..][..i - 1];
      Prefix(Apply(s, es[0]), es[1..], i - 1);
    }
  }

  /** The state of a run before its step i. */
  ghost function StateAt(es: seq<Event>, i: nat): State
    requires Valid(Init, es) && i <= |es|
  {
    Prefix(Init, es, i);
    Run(Init, es[..i])
  }

  lemma {:induction false} Last(s: State, es: seq<Event>)
    requires Valid(s, es) && es != []
    ensures var n := |es| - 1;
            && Valid(s, es[..n]) && Enabled(Run(s, es[..n]), es[n])
            && Run(s, es) == Apply(Run(s, es[..n]), es[n])
    decreases |es|
  {
    hide Enabled, Apply;
    var n := |es| - 1;
    if n == 0 {
      assert es[1..] == [] && es[..0] == [];
    } else {
      Last(Apply(s, es[0]), es[1..]);
      assert es[..n][1..] == es[1..][..n - 1];
    }
  }

  /** Step i of the run comes after the output registered last. */
  ghost predicate Recent(es: seq<Event>, i: nat, o: Id)
    requires i <= |es|
  {
    Register(o) !in es[i..]
  }

  ghost predicate LossAt(es: seq<Event>, i: nat, o: Id)
    requires Valid(Init, es) && i < |es|
  {
    LosesBytes(StateAt(es, i), es[i], o)
  }

  ghost predicate FlushAt(es: seq<Event>, i: nat, o: Id)
    requires Valid(Init, es) && i < |es|
  {
    Flushes(StateAt(es, i), es[i], o)
  }

  /** No step since the output registered lost any of its bytes. */
  ghost predicate NothingLost(es: seq<Event>, o: Id)
    requires Valid(Init, es)
  {
    forall i: nat | i < |es| && Recent(es, i, o) :: !LossAt(es, i, o)
  }

  /** In no step since the output registered did a chunk find the slave not running. */
  ghost predicate NothingFlushed(es: seq<Event>, o: Id)
    requires Valid(Init, es)
  {
    forall i: nat | i < |es| && Recent(es, i, o) :: !FlushAt(es, i, o)
  }

  lemma RecentLast(es: seq<Event>, i: nat, o: Id)
    requires i < |es|
    ensures Recent(es, i, o) <==> es[|es| - 1] != Register(o) && Recent(es[..|es| - 1], i, o)
  {
    var n := |es| - 1;
    assert es[i..] == es[..n][i..] + [es[n]];
  }

  lemma StateBefore(es: seq<Event>, i: nat)
    requires Valid(Init, es) && i < |es|
    ensures Valid(Init, es[..|es| - 1]) && StateAt(es, i) == StateAt(es[..|es| - 1], i)
    ensures StateAt(es, |es| - 1) == Run(Init, es[..|es| - 1])
  {
    Prefix(Init, es, |es| - 1);
    assert es[..|es| - 1][..i] == es[..i];
  }

  /** Steps before the last one, seen from the shorter run. */
  lemma StepBefore(es: seq<Event>, i: nat, o: Id)
    requires Valid(Init, es) && i < |es| - 1
    ensures var fs := es[..|es| - 1];
            && Valid(Init, fs)
            && (Recent(es, i, o) <==> es[|es| - 1] != Register(o) && Recent(fs, i, o))
            && LossAt(es, i, o) == LossAt(fs, i, o) && FlushAt(es, i, o) == FlushAt(fs, i, o)
  {
    hide LosesBytes, Flushes, StateAt, Valid;
    RecentLast(es, i, o);
    StateBefore(es, i);
  }

  /** The last step. */
  lemma StepLast(es: seq<Event>, o: Id)
    requires Valid(Init, es) && es != []
    ensures var n := |es| - 1;
            && Valid(Init, es[..n]) && (Recent(es, n, o) <==> es[n] != Register(o))
            && LossAt(es, n, o) == LosesBytes(Run(Init, es[..n]), es[n], o)
            && FlushAt(es, n, o) == Flushes(Run(Init, es[..n]), es[n], o)
  {
    hide LosesBytes, Flushes, StateAt, Valid;
    var n := |es| - 1;
    StateBefore(es, n);
    assert es[n..] == [es[n]];
  }

  lemma NothingLostSteps(es: seq<Event>, o: Id)
    requires Valid(Init, es) && es != []
    ensures var n := |es| - 1;
            && Valid(Init, es[..n])
            && (NothingLost(es, o) <==>
                  es[n] == Register(o) || (NothingLost(es[..n], o) && !LosesBytes(Run(Init, es[..n]), es[n], o)))
            && (NothingFlushed(es, o) <==>
                  es[n] == Register(o) || (NothingFlushed(es[..n], o) && !Flushes(Run(Init, es[..n]), es[n], o)))
  {
    hide LosesBytes, Flushes, LossAt, FlushAt, Recent, Valid, Run;
    var n := |es| - 1;
    StepLast(es, o);
    forall i: nat | i < n
      ensures Recent(es, i, o) <==> es[n] != Register(o) && Recent(es[..n], i, o)
      ensures LossAt(es, i, o) == LossAt(es[..n], i, o) && FlushAt(es, i, o) == FlushAt(es[..n], i, o)
    {
      StepBefore(es, i, o);
    }
  }

  // ------------------------------------------------------------------ history of a run

  /** Chunks in queues are never empty. */
  ghost predicate Filled(s: State) {
    && (s.pc.Posting? ==> s.pc.chunk != [])
    && forall o, i | o in s.outputs && 0 <= i < |s.outputs[o].inq| :: s.outputs[o].inq[i] != []
  }

  lemma StepKeepsFilled(s: State, e: Event)
    requires Filled(s) && Enabled(s, e)
    ensures Filled(Apply(s, e))
  {
    if e.PostNext? || e.RenderChunk? {
      ChunkKeepsFilled(s, e);
    } else if e.HandlePost? || e.DrainOne? {
      ReceiveKeepsFilled(s, e);
    } else {
      hide Receive;
    }
  }

  lemma ChunkKeepsFilled(s: State, e: Event)
    requires Filled(s) && Enabled(s, e) && (e.PostNext? || e.RenderChunk?)
    ensures Filled(Apply(s, e))
  {
  }

  lemma ReceiveKeepsFilled(s: State, e: Event)
    requires Filled(s) && Enabled(s, e) && (e.HandlePost? || e.DrainOne?)
    ensures Filled(Apply(s, e))
  {
  }

  /** The bytes that a step takes from an output, and those it drops uncounted. */
  ghost function LostIn(s: State, e: Event, o: Id): nat {
    if Flushes(s, e, o) then |s.outputs[o].memblockq| + |s.outputs[o].inq[0]|
    else if Refuses(s, e, o) then |s.outputs[o].inq[0]|
    else 0
  }

  ghost function UnheardIn(s: State, e: Event, o: Id): nat {
    if Flushes(s, e, o) then |s.outputs[o].inq[0]| else 0
  }

  /** The bytes that were flushed before they were counted, since the output registered. */
  ghost function Unheard(es: seq<Event>, o: Id): nat
    requires Valid(Init, es)
    decreases |es|
  {
    if es == [] then 0
    else
      var n := |es| - 1;
      Prefix(Init, es, n);
      if es[n] == Register(o) then 0
      else Unheard(es[..n], o) + UnheardIn(Run(Init, es[..n]), es[n], o)
  }

  /** One step and the model's own counts. */
  lemma StepHistory(s: State, e: Event, o: Id)
    requires Enabled(s, e) && o in Apply(s, e).outputs && Apply(s, e).outputs[o].phase.Registered?
    ensures e == Register(o) ==> Apply(s, e).outputs[o].dropped == 0 && Apply(s, e).outputs[o].skipped == 0
    ensures e != Register(o) ==>
              && o in s.outputs && s.outputs[o].phase.Registered?
              && Apply(s, e).outputs[o].dropped == s.outputs[o].dropped + LostIn(s, e, o)
              && Apply(s, e).outputs[o].skipped == s.outputs[o].skipped + UnheardIn(s, e, o)
  {
    if e.HandlePost? || e.DrainOne? {
      ReceiveHistory(s, e, o);
    } else if e != Register(o) {
      OtherHistory(s, e, o);
    }
  }

  lemma ReceiveHistory(s: State, e: Event, o: Id)
    requires Enabled(s, e) && (e.HandlePost? || e.DrainOne?) && o in Apply(s, e).outputs
    requires Apply(s, e).outputs[o].phase.Registered?
    ensures o in s.outputs && s.outputs[o].phase.Registered?
    ensures Apply(s, e).outputs[o].dropped == s.outputs[o].dropped + LostIn(s, e, o)
    ensures Apply(s, e).outputs[o].skipped == s.outputs[o].skipped + UnheardIn(s, e, o)
  {
  }

  lemma OtherHistory(s: State, e: Event, o: Id)
    requires Enabled(s, e) && !e.HandlePost? && !e.DrainOne? && e != Register(o) && o in Apply(s, e).outputs
    requires Apply(s, e).outputs[o].phase.Registered?
    ensures o in s.outputs && s.outputs[o].phase.Registered?
    ensures Apply(s, e).outputs[o].dropped == s.outputs[o].dropped
    ensures Apply(s, e).outputs[o].skipped == s.outputs[o].skipped
    ensures LostIn(s, e, o) == 0 == UnheardIn(s, e, o)
  {
    assert !Handles(s, e, o);
    hide Receive, Handles;
  }

  /** A chunk that finds the slave not running takes all that is buffered with it: only what
      was played before and what arrives later belongs to the stream from then on. */
  lemma FlushTakesAll(s: State, e: Event, o: Id)
    requires Enabled(s, e) && Flushes(s, e, o)
    ensures
      var p, q := s.outputs[o], Apply(s, e).outputs[o];
      && q.memblockq == [] && Stream(q) == p.popped + Flat(p.inq[1..])
      && |Stream(p)| == |Stream(q)| + |p.memblockq| + |p.inq[0]|
  {
    assert Flat(s.outputs[o].inq) == s.outputs[o].inq[0] + Flat(s.outputs[o].inq[1..]);
    hide Flat;
  }

  /** A chunk that is refused is lost alone. */
  lemma RefusalTakesOne(s: State, e: Event, o: Id)
    requires Enabled(s, e) && Refuses(s, e, o)
    ensures
      var p, q := s.outputs[o], Apply(s, e).outputs[o];
      q.memblockq == p.memblockq && Stream(q) == p.popped + p.memblockq + Flat(p.inq[1..])
  {
    hide Flat;
  }

  lemma LossIsLoss(s: State, e: Event, o: Id)
    requires Filled(s)
    ensures LostIn(s, e, o) == 0 <==> !LosesBytes(s, e, o)
    ensures UnheardIn(s, e, o) == 0 <==> !Flushes(s, e, o)
  {
  }

  lemma {:induction false} RunKeepsFilled(s: State, es: seq<Event>)
    requires Filled(s) && Valid(s, es)
    ensures Filled(Run(s, es))
    decreases |es|
  {
    hide Filled, Enabled, Apply;
    if es != [] {
      StepKeepsFilled(s, es[0]);
      RunKeepsFilled(Apply(s, es[0]), es[1..]);
    }
  }

  /** The model's counts say what happened in the run. */
  lemma {:induction false} History(es: seq<Event>, o: Id)
    requires Valid(Init, es)
    ensures o in Run(Init, es).outputs && Run(Init, es).outputs[o].phase.Registered? ==>
              var p := Run(Init, es).outputs[o];
              && (p.dropped == 0 <==> NothingLost(es, o))
              && p.skipped == Unheard(es, o)
              && (p.skipped == 0 <==> NothingFlushed(es, o))
    decreases |es|
  {
    hide Enabled, Apply, LosesBytes, Flushes, NothingLost, NothingFlushed, Filled, LostIn, UnheardIn;
    if es != [] && o in Run(Init, es).outputs && Run(Init, es).outputs[o].phase.Registered? {
      var n := |es| - 1;
      Last(Init, es);
      NothingLostSteps(es, o);
      NoneFilled();
      RunKeepsFilled(Init, es[..n]);
      StepHistory(Run(Init, es[..n]), es[n], o);
      LossIsLoss(Run(Init, es[..n]), es[n], o);
      if es[n] != Register(o) {
        History(es[..n], o);
      }
    }
  }

  lemma NoneFilled()
    ensures Filled(Init)
  {
  }

  // ----------------------------------------------------------------------- main results

  /** All bytes rendered since the output registered were given to it, are buffered
      or waiting; while the sink thread hands out a chunk, that one may still be missing. */
  ghost predicate IsExact(s: State, o: Id)
    requires o in s.outputs
  {
    var p := s.outputs[o];
    p.start <= |s.rendered| && Stream(p) + Pending(s.pc, o) == s.rendered[p.start..]
  }

  lemma {:induction false} InvHolds(es: seq<Event>)
    requires Valid(Init, es)
    ensures Inv(Run(Init, es))
  {
    RunKeepsInv(Init, es);
  }

  lemma ExactWhenNoneDropped(s: State, o: Id)
    requires Inv(s) && o in s.outputs && s.outputs[o].phase.Registered?
    ensures IsExact(s, o) <==> s.outputs[o].dropped == 0
  {
    var p := s.outputs[o];
    assert OutputInv(s, o, p);
    assert |Stream(p) + Pending(s.pc, o)| + p.dropped == |s.rendered[p.start..]|;
  }

  /** In every run the stream of a registered output is exact if and only if in no step
      since it registered a chunk arrived while the slave was not running, or at a queue
      that could not hold it. */
  lemma StreamIsExact(es: seq<Event>, o: Id)
    requires Valid(Init, es)
    requires o in Run(Init, es).outputs && Run(Init, es).outputs[o].phase.Registered?
    ensures IsExact(Run(Init, es), o) <==> NothingLost(es, o)
  {
    hide Inv, IsExact, NothingLost;
    InvHolds(es);
    ExactWhenNoneDropped(Run(Init, es), o);
    History(es, o);
  }

  /** Two outputs that met no such step see the same stream: the one that registered
      later has exactly the other's bytes from its own start on, the chunk that is just
      being handed out included. */
  lemma OutputsAgree(es: seq<Event>, a: Id, b: Id)
    requires Valid(Init, es) && NothingLost(es, a) && NothingLost(es, b)
    requires var s := Run(Init, es);
             && a in s.outputs && b in s.outputs
             && s.outputs[a].phase.Registered? && s.outputs[b].phase.Registered?
             && s.outputs[a].start <= s.outputs[b].start
    ensures var s := Run(Init, es);
            var (p, q) := (s.outputs[a], s.outputs[b]);
            && q.start - p.start <= |Stream(p) + Pending(s.pc, a)|
            && Stream(q) + Pending(s.pc, b) == (Stream(p) + Pending(s.pc, a))[q.start - p.start..]
  {
    StreamIsExact(es, a);
    StreamIsExact(es, b);
    hide NothingLost, Valid, Run;
    var s := Run(Init, es);
    var p, q := s.outputs[a], s.outputs[b];
    assert s.rendered[q.start..] == s.rendered[p.start..][q.start - p.start..];
  }

  /** In every run the counters of an output never exceed the sink's counter.  For a
      registered output they account for every byte rendered but those flushed before
      they were counted, of which there are none if and only if no chunk arrived while
      the slave was not running. */
  lemma CountersAddUp(es: seq<Event>, o: Id)
    requires Valid(Init, es) && o in Run(Init, es).outputs
    ensures var s := Run(Init, es);
            var p := s.outputs[o];
            && s.counter == |s.rendered|
            && p.receiveCounter + |Flat(p.inq)| <= s.counter
            && (p.phase.Registered? ==>
                  && p.receiveCounter + |Flat(p.inq)| + Uncredited(s.pc, o) + Unheard(es, o) == s.counter
                  && (p.receiveCounter + |Flat(p.inq)| + Uncredited(s.pc, o) == s.counter <==> NothingFlushed(es, o)))
  {
    hide Valid, Run, NothingFlushed, NothingLost, Unheard;
    InvHolds(es);
    History(es, o);
    var s := Run(Init, es);
    assert OutputInv(s, o, s.outputs[o]);
  }

  /** The difference of the two snapshots is exactly what was queued for the output, or
      flushed uncounted, when its snapshot was taken, plus everything rendered until the
      sink's snapshot. */
  lemma SnapshotDifference(es: seq<Event>, o: Id, fs: seq<Event>)
    requires Valid(Init, es) && o in Run(Init, es).outputs
    requires Run(Init, es).outputs[o].phase.Registered? && Enabled(Run(Init, es), SnapshotOutput(o))
    requires Valid(Apply(Run(Init, es), SnapshotOutput(o)), fs) && SnapshotOutput(o) !in fs
    requires Enabled(Run(Apply(Run(Init, es), SnapshotOutput(o)), fs), SnapshotSink)
    ensures var s := Run(Init, es);
            var t := Apply(Run(Apply(s, SnapshotOutput(o)), fs), SnapshotSink);
            && o in t.outputs
            && t.sendSnapshot - t.outputs[o].snapshot
               == |Flat(s.outputs[o].inq)| + Uncredited(s.pc, o) + Unheard(es, o) + (|t.rendered| - |s.rendered|)
  {
    hide Unheard, NothingFlushed, Inv, Valid, Run, Enabled, Apply;
    CountersAddUp(es, o);
    InvHolds(es);
    var s := Run(Init, es);
    OutputSnapshot(s, o);
    var u := Apply(s, SnapshotOutput(o));
    StepKeepsInv(s, SnapshotOutput(o));
    RunKeepsInv(u, fs);
    SnapshotStays(u, fs, o);
    SinkSnapshot(Run(u, fs));
  }

  lemma OutputSnapshot(s: State, o: Id)
    requires Enabled(s, SnapshotOutput(o))
    ensures var t := Apply(s, SnapshotOutput(o));
            o in t.outputs && t.outputs[o].snapshot == s.outputs[o].receiveCounter && t.rendered == s.rendered
  {
  }

  lemma SinkSnapshot(s: State)
    requires Inv(s) && Enabled(s, SnapshotSink)
    ensures var t := Apply(s, SnapshotSink);
            t.sendSnapshot == |s.rendered| && t.rendered == s.rendered && t.outputs == s.outputs
  {
  }

  // ----------------------------------------------------- a slave that keeps running

  lemma {:induction false} FirstFits(q: seq<Bytes>)
    requires q != []
    ensures |q[0]| <= |Flat(q)|
  {
  }

  /** Only its own state event stops the slave of an output. */
  lemma SlaveKeepsRunning(s: State, e: Event, o: Id)
    requires Enabled(s, e) && o in s.outputs && s.outputs[o].slaveRunning && e != SlaveState(o, false)
    ensures o in Apply(s, e).outputs && Apply(s, e).outputs[o].slaveRunning
  {
  }

  lemma {:induction false} StillRunning(es: seq<Event>, o: Id, k: nat, i: nat)
    requires Valid(Init, es) && k <= i <= |es| && SlaveState(o, false) !in es[k..]
    requires o in StateAt(es, k).outputs && StateAt(es, k).outputs[o].slaveRunning
    ensures o in StateAt(es, i).outputs && StateAt(es, i).outputs[o].slaveRunning
    decreases i
  {
    hide Enabled, Apply;
    if k < i {
      StillRunning(es, o, k, i - 1);
      Prefix(Init, es, i);
      Last(Init, es[..i]);
      assert es[..i][..i - 1] == es[..i - 1];
      assert es[k..][i - 1 - k] == es[i - 1];
      SlaveKeepsRunning(StateAt(es, i - 1), es[i - 1], o);
    }
  }

  /** The queues of the output never hold more than the limit from step k on. */
  ghost predicate Bounded(es: seq<Event>, o: Id, k: nat)
    requires Valid(Init, es)
  {
    forall i: nat | k <= i < |es| :: FitsAt(StateAt(es, i), o)
  }

  ghost predicate FitsAt(s: State, o: Id) {
    o in s.outputs ==> |s.outputs[o].memblockq| + |Flat(s.outputs[o].inq)| <= MAX_QUEUE
  }

  lemma RunningLosesNothing(s: State, e: Event, o: Id)
    requires o in s.outputs && s.outputs[o].slaveRunning && FitsAt(s, o)
    ensures !LosesBytes(s, e, o)
  {
    if s.outputs[o].inq != [] {
      FirstFits(s.outputs[o].inq);
    }
  }

  lemma RecentAfter(es: seq<Event>, i: nat, k: nat, o: Id)
    requires i < |es| && k < |es| && es[k] == Register(o)
    ensures Recent(es, i, o) ==> k < i
  {
    if i <= k {
      assert es[i..][k - i] == Register(o);
    }
  }

  /** An output that registers in step k with a running slave sees exactly the rendered
      stream, as long as its slave stays running and its queues stay within the limit. */
  lemma RunningSlaveSeesAll(es: seq<Event>, o: Id, k: nat)
    requires Valid(Init, es) && k < |es| && es[k] == Register(o) && o in StateAt(es, k).outputs
    requires StateAt(es, k).outputs[o].slaveRunning && SlaveState(o, false) !in es[k..] && Bounded(es, o, k)
    requires o in Run(Init, es).outputs && Run(Init, es).outputs[o].phase.Registered?
    ensures IsExact(Run(Init, es), o)
  {
    hide IsExact, LosesBytes, FitsAt, StateAt, Valid, Run;
    forall i: nat | i < |es| && Recent(es, i, o)
      ensures !LossAt(es, i, o)
    {
      RecentAfter(es, i, k, o);
      StillRunning(es, o, k, i);
      RunningLosesNothing(StateAt(es, i), es[i], o);
    }
    StreamIsExact(es, o);
  }

  ghost predicate Reachable(s: State) {
    exists es :: Valid(Init, es) && Run(Init, es) == s
  }

  lemma Reached(s: State, e: Event)
    requires Reachable(s) && Enabled(s, e)
    ensures Reachable(Apply(s, e))
  {
    hide Enabled, Apply;
    var es :| Valid(Init, es) && Run(Init, es) == s;
    Append(Init, es, e);
  }

  const SILENT := Output(Registered, false, [], [], [], 0, 0, 0, 0, 0, 0)

  /** Two registered outputs, of which one has a running slave. */
  const TWO_OUTPUTS :=
    State(true, [], 0, [1, 0], map[0 := SILENT.(slaveRunning := true), 1 := SILENT], Idle, 0)

  lemma TwoOutputs()
    ensures Reachable(TWO_OUTPUTS)
  {
    assert Valid(Init, []) && Run(Init, []) == Init;
    Reached(Init, New(0));
    var a := Apply(Init, New(0));
    Reached(a, New(1));
    var b := Apply(a, New(1));
    Reached(b, Register(0));
    var c := Apply(b, Register(0));
    Reached(c, Register(1));
    var d := Apply(c, Register(1));
    Reached(d, SlaveState(0, true));
    var f := Apply(d, SlaveState(0, true));
    Reached(f, SinkState(true));
    assert Apply(f, SinkState(true)) == TWO_OUTPUTS;
  }

  lemma OneChunk() returns (s: State)
    ensures Reachable(s) && s.pc.Idle? && s.rendered == [7] && 1 in s.outputs && s.outputs[1] == SILENT.(inq := [[7]])
  {
    hide Reachable;
    TwoOutputs();
    var a := Apply(TWO_OUTPUTS, Need(0));
    Reached(TWO_OUTPUTS, Need(0));
    Reached(a, RenderChunk([7]));
    var b := Apply(a, RenderChunk([7]));
    assert Without([0], 0) == [] && [1, 0][1..] == [0];
    assert b.pc.rest == [1];
    Reached(b, PostNext);
    var c := Apply(b, PostNext);
    Reached(c, PlaceDirect);
    s := Apply(c, PlaceDirect);
    Reached(s, Answer);
    s := Apply(s, Answer);
  }

  /** A slave that is not running when a chunk arrives loses it. */
  lemma BytesCanBeLost() returns (s: State)
    ensures Reachable(s) && s.pc.Idle? && 1 in s.outputs && s.outputs[1].phase.Registered?
    ensures s.outputs[1].start == 0 && s.rendered != [] && Stream(s.outputs[1]) == []
  {
    hide Reachable;
    s := OneChunk();
    assert [[7]][0] == [7];
    Reached(s, HandlePost(1));
    s := Apply(s, HandlePost(1));
  }
}
