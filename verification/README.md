# Verified models of PulseAudio components

Dafny models of six components of the PulseAudio sound server, with proofs of
what their code promises. `dafny verify dfyconfig.toml` checks the project.

* **Combine sink** (`CombineFanout`, `CombineStreams`, `RateMath`, `CombineRates`). One sink thread
  renders on behalf of whichever slave output asks, places the chunk directly
  with that output and posts it to all others. The audio path is a state machine
  over the threads in which rendering, every single post and every placement are
  steps of their own; the rate control is the imperative `adjust_rates`.
* **Loopback** (`LoopbackTransfer`, `LoopbackLatency`, `LoopbackWeight`). The transfer is a state
  machine over source, sink and main thread, the latency controller a class.
* **Device manager** (`DeviceDatabase`, `DeviceSort`, `DeviceReorder`,
  `DeviceManager`, `DeviceStartup`, `DeviceRouting`). The database is a map;
  wherever the source goes through a database or a hashmap the model takes the
  elements in an arbitrary order.
* **Equalizer sink** (`OverlapAdd`, `Reconstruction`, `EqualizerBlocks`,
  `EqualizerCounts`, `EqualizerSink`, `EqualizerCurve`, `EqualizerState`). `OverlapAdd` says without
  any state what the filter is to compute on a whole stream, for an arbitrary
  length-preserving transform that may change from block to block; the class in
  `EqualizerSink` works in place on arrays and is proved to compute it.
* **Start-up of the daemon** (`DaemonStartup`). Launcher, middle process and
  daemon with their two pipes, every system call a step that may fail, and a
  crash possible between any two steps.
* **Card database** (`Tagstruct`, `CardRestore`, `CardVersions`). Records byte by byte, and
  putting a card.

Doubles and floats are real numbers, so rounding is not modelled, except where the
source converts to an integer. Integers are unbounded, except where a conversion or
an unsigned subtraction of the source is part of a property. The clock, latencies
and rendered audio are arbitrary inputs.

## Where the code falls short of its intention

Each of these is stated as an exact condition, with an example.

* A combine output loses bytes exactly in the steps that handle a chunk while its
  slave is not running, or whose chunk makes its queue exceed 16 MiB (`StreamIsExact`,
  `RunningSlaveSeesAll`, `BytesCanBeLost`).
* In the combine sink's `adjust_rates` a latency of -1 usec equals the mark for
  "none seen"; rates are set exactly if some eligible latency differs from it
  (`CombineRates.AdjustRates`, `LatencyCanLookAbsent`). The comment on the limit of
  the step size (src/modules/module-combine-sink.c:221) holds exactly if the first
  rate is the nearer one or the old rate was close to the best one; larger steps go
  back towards the base rate (`StepSize`, `StepCanBeLarge`).
* `memblockq_adjust` misses the requested length for a queue that is prebuffering and
  too long, or whose indexes have crossed (`AdjustIsExact`). Its first use after load
  is never affected, provided that the latency lasts a frame (`FirstTuningIsExact`,
  `ShortLatencyMisses`); later uses, after a move or a suspend, can be (`LastTuning`,
  `PrebufferingMisses`, `CrossedIndexesMiss`, `AdjustCanMiss`).
* A latency escalation is exact if and only if no maximum is set or the latency
  offsets sum up to less than it. Otherwise the effective latency lies above the
  maximum and stays there (`EscalationIsExact`, `OffsetsAboveMaximum`).
* The launcher reports failure for a daemon that has reported success exactly if a
  status could not be read or written, or the middle process crashed before it had
  written one (`ExitCodeIsTruthful`, `SuccessCanBeHidden`).
* REORDER skips the devices that are not named when 256 or more are, and ranks may
  then be taken twice (`ReorderKeepsValid`, `ReorderCanCollide`).
* Growing the equalizer's input buffers copies the overlap only, although one
  sample more may be in them (`LosesExactly`, `SampleCanBeLost`, `Pop`).
* `pack` keeps counts and lengths in 16 bits (`UnpackInvertsPack`,
  `LongStringIsLost`).
* `entrys_equal` does not compare port profiles, so a changed one may not be stored by
  putting the card (`PutStores`, `PortProfileGoesStale`).

## Model

| member | source | states |
|---|---|---|
| `CombineFanout.StepKeepsInv` | src/modules/module-combine-sink.c:485-549 | every step of every thread (lifecycle, NEED, draining, rendering, each single POST, direct placement, null rendering, pop, rewind, snapshots) keeps the invariant that ties queues, counters and the rendered stream together |
| `CombineFanout.RunKeepsInv` | src/modules/module-combine-sink.c:485-549 | the invariant holds after every run of steps |
| `CombineStreams.StreamIsExact` | src/modules/module-combine-sink.c:747-755 | in every run, the bytes an output was given, has buffered and has waiting are exactly the bytes rendered since it registered, if and only if no step since then handled a chunk while its slave was not running or at a queue that could not hold it |
| `CombineStreams.RunningSlaveSeesAll` | src/modules/module-combine-sink.c:747-755 | an output that registers with a running slave sees exactly the rendered stream in every run in which the slave stays running and the queues stay within the limit |
| `CombineStreams.History` | src/modules/module-combine-sink.c:485-549 | the bytes the model counts as lost are zero exactly if no step of the run lost any, and those counted as unheard are the ones flushed in its steps |
| `CombineStreams.OutputsAgree` | src/modules/module-combine-sink.c:747-755 | in every state, two registered outputs that met no such step see the same stream: the later one has exactly the other's bytes from its own start on, the chunk just being handed out included |
| `CombineFanout.DirectPlacementIsInOrder` | src/modules/module-combine-sink.c:531-549 | when a chunk is placed directly nothing is queued for the asking output that it could overtake, and the request is then answered by that chunk |
| `CombineStreams.CountersAddUp` | src/modules/module-combine-sink.c:959-1005 | in every run receive_counter plus waiting POST bytes never exceeds counter; for a registered output they fall short of it by the chunk just being handed out and by what was flushed uncounted, and nothing was if and only if no chunk found the slave not running |
| `CombineFanout.SnapshotsNeverWrap` | src/modules/module-combine-sink.c:365-387 | because the outputs are asked before the sink, the unsigned subtraction of the snapshots never wraps, whatever happens in between |
| `CombineStreams.SnapshotDifference` | src/modules/module-combine-sink.c:1096-1105 | the difference of the snapshots is exactly what was queued, or flushed uncounted in the run, for the output at its snapshot plus everything rendered until the sink's snapshot |
| `CombineStreams.BytesCanBeLost` | src/modules/module-combine-sink.c:747-755 | a reachable state in which a registered output has lost a chunk because its slave was not running |
| `CombineStreams.FlushTakesAll` | src/modules/module-combine-sink.c:747-755 | a chunk that finds the slave not running takes all that is buffered with it; only what was played and what arrives later belongs to the stream from then on |
| `CombineStreams.RefusalTakesOne` | src/modules/module-combine-sink.c:747-755 | a chunk that does not fit is lost alone |
| `RateMath.CorrectionIsLimited` | src/modules/module-combine-sink.c:224-247 | the relative correction keeps the sign of the latency difference and stays strictly below its limit |
| `RateMath.CorrectionMakesUp` | src/modules/module-combine-sink.c:233-241 | applied for as many cycles as the limit asks for and one more, the correction makes up for exactly the latency difference |
| `RateMath.RateMakesUp` | src/modules/module-combine-sink.c:233-241 | so does a rate corrected that way, against the rate it starts from, for every weight |
| `RateMath.Int32Wraps` | src/modules/module-combine-sink.c:350-355 | the conversion keeps every difference that fits into 32 bits, and all others modulo 2^32 |
| `RateMath.ShareIsLimited` | src/modules/module-combine-sink.c:224-247 | the correction in Hz keeps the sign and stays strictly below the corresponding share of the base rate |
| `CombineRates.NextRateIsBounded` | src/modules/module-combine-sink.c:224-247 | before rounding, the new rate is less than 1% from the base rate, moves away from it by less than 0.2%, and never turns against the latency difference |
| `CombineRates.RateIsBounded` | src/modules/module-combine-sink.c:224-247 | the same for the rounded rate, with half a Hz of slack; without a difference it is the base rate |
| `CombineRates.RatesMakeUp` | src/modules/module-combine-sink.c:232-241 | kept for as long as 0.2% per cycle asks for, the first rate makes up for exactly the latency difference against the old rate; so does the second against the base rate, at 1% per cycle |
| `CombineRates.RateIsRounded` | src/modules/module-combine-sink.c:243-246 | the rate that is set is the nearest whole number of Hz |
| `CombineRates.StepSize` | src/modules/module-combine-sink.c:219-247 | the step is below 0.2% of the base rate if and only if the first of the two rates is nearer to the base rate or the old rate was that close to the best rate for the latency difference; every larger step ends nearer to the base rate than it started |
| `CombineRates.RoundedStepSize` | src/modules/module-combine-sink.c:219-247 | under that condition the rounded step is below base/500 + 1/2, and a larger one goes towards the base rate |
| `CombineRates.StepCanBeLarge` | src/modules/module-combine-sink.c:219-247 | a step of more than 0.2% of the base rate |
| `CombineRates.AddLatencies` | src/modules/module-combine-sink.c:282-325 | the sum over the eligible slaves modulo 2^64, and their number |
| `CombineRates.AverageLatency` | src/modules/module-combine-sink.c:300-332 | the average over the eligible slaves, their sum taken modulo 2^64; there is no division by zero |
| `CombineRates.LatencyCanLookAbsent` | src/modules/module-combine-sink.c:282-327 | every slave that had nothing left to play one microsecond before the sink's snapshot, and was sent nothing since, is taken for one that was not seen |
| `CombineRates.LatencyIsDelay` | src/modules/module-combine-sink.c:289-307 | the latency of a slave is that of its sink and the playing time of the frames in its memblockq and of those sent since its snapshot, less the time passed, up to two microseconds |
| `CombineRates.LatencyInSeconds` | src/modules/module-combine-sink.c:289-307 | exactly so when whole seconds are in the memblockq and on the way |
| `CombineRates.BytesToUsecIsTime` | src/modules/module-combine-sink.c:297-303 | the playing time of whole frames, rounded down to microseconds |
| `CombineRates.SelectTarget` | src/modules/module-combine-sink.c:282-340 | the first loop: every total latency, and as the target the latency of the slave whose sink needs the most if that is more than some slave has in total, and the smallest latency otherwise; found exactly if some eligible latency differs from the mark for none |
| `CombineRates.SetRates` | src/modules/module-combine-sink.c:345-360 | the second loop: every eligible slave gets the controller's rate for its own latency, all others keep theirs |
| `CombineRates.AdjustRates` | src/modules/module-combine-sink.c:249-363 | rates are set exactly if some eligible latency can be told from the mark for none; then one slave runs at the base rate exactly, all are within base/100 + 1/2 of it and move away by less than base/500 + 1/2, and the latency reported to the sink is the average of the eligible ones |
| `LoopbackTransfer.AdjustIsExact` | src/modules/module-loopback.c:706-738 | memblockq_adjust leaves exactly the requested length if and only if the queue is not (longer and prebuffering) and not (shorter with its write index behind its read index) |
| `LoopbackTransfer.PrebufferingIs` | src/pulsecore/memblockq.c:444-473 | reading is never blocked without prebuffering, always while the queue is empty otherwise, and until it has filled up once it has run empty |
| `LoopbackTransfer.RewindUndoesDrop` | src/pulsecore/memblockq.c:605-660 | a rewind gives back what was dropped; pushing and rewinding make the queue longer by what was given |
| `LoopbackTransfer.AdjustCanMiss` | src/modules/module-loopback.c:706-738 | runs of a stream of CD quality at the default latency in which an adjustment after a suspend has left the queue longer, and shorter, than requested |
| `LoopbackTransfer.PrebufferingMisses` | src/modules/module-loopback.c:706-738 | for every stream whose latency lasts a frame, a run in which the queue ran empty, went back to prebuffering and stays too long when the source resumes after a suspend |
| `LoopbackTransfer.CrossedIndexesMiss` | src/modules/module-loopback.c:1155-1163 | for every such stream, a run in which the source has rewound an empty queue and the queue stays too short when the source resumes after a suspend |
| `LoopbackTransfer.ShortLatencyMisses` | src/modules/module-loopback.c:1033-1036 | for every stream whose latency is shorter than a frame, a run whose first adjustment misses |
| `LoopbackTransfer.FirstTuningIsExact` | src/modules/module-loopback.c:1868-1873 | the first adjustment since load is exact in every run if and only if the configured latency lasts at least one frame |
| `LoopbackTransfer.LastTuning` | src/modules/module-loopback.c:1078-1133 | the last adjustment before rates are adjusted, also after a move or a suspend, was exact under the condition of AdjustIsExact and left at least one sink latency if the indexes had not crossed |
| `LoopbackTransfer.FirstStep` | src/modules/module-loopback.c:1041-1046 | every step keeps the queue readable until the first adjustment, and that adjustment exact, if the configured latency lasts a frame |
| `LoopbackTransfer.RequestCoversSink` | src/modules/module-loopback.c:706-724 | the requested length is never less than one requested sink latency, and without an offset never less than the configured latency |
| `LoopbackTransfer.OffsetIsTakenOff` | src/modules/module-loopback.c:711-722 | what the devices add to the latency is taken off the queue: shifting latencies and offset together changes nothing, and a greater offset never asks for more |
| `LoopbackTransfer.ToBytesIsTime` | src/modules/module-loopback.c:724-725 | a length is that of whole frames, and no frame more fits into the time |
| `LoopbackTransfer.CountersStep` | src/modules/module-loopback.c:741-769 | every step keeps the balance of sent, received, queued and not yet counted bytes |
| `LoopbackTransfer.NoRewindStep` | src/modules/module-loopback.c:760-769 | every step keeps what holds as long as nothing was rewound |
| `LoopbackTransfer.FlagsStep` | src/modules/module-loopback.c:1017-1046 | every step keeps the relation of the pop, push and adjust flags |
| `LoopbackTransfer.RunKeepsInv` | src/modules/module-loopback.c:1078-1133 | the four invariants hold after every run of source, sink and main thread steps |
| `LoopbackTransfer.SnapshotDifference` | src/modules/module-loopback.c:481-485 | send_counter minus recv_counter in the snapshots equals the net bytes queued at the sink snapshot plus the net bytes posted until the source snapshot; without rewinds it is never negative |
| `LoopbackTransfer.BufferIsAllOnItsWay` | src/modules/module-loopback.c:481-485 | the buffer that rates are adjusted for is exactly what was in the queue and in messages at the sink snapshot and what was posted until the source snapshot |
| `LoopbackTransfer.PopFlagsAgree` | src/modules/module-loopback.c:1017-1046 | pop_called implies first_pop_done and two pops, in every run |
| `LoopbackTransfer.StartUpComesFirst` | src/modules/module-loopback.c:1078-1133 | rates are never adjusted before two pops and then a POST that set the queue for the requested latency, which is at least one sink latency; if the configured latency lasts a frame, the queue then had exactly that length |
| `LoopbackTransfer.StartUpMeetsLatency` | src/modules/module-loopback.c:1078-1133 | the playing time of the queue set at start-up and the latency of the devices together are the greater of configured and minimum latency, up to one frame, unless that leaves less than one sink latency |
| `LoopbackTransfer.EarlyPostsAreLimited` | src/modules/module-loopback.c:1130-1133 | before the second pop no POST makes the queue longer than requested, in every run |
| `LoopbackTransfer.MovePauses` | src/modules/module-loopback.c:899-960 | after a move no rate is adjusted before the main thread has heard of an adjustment of the queue, in every run |
| `LoopbackTransfer.TuningStep` | src/modules/module-loopback.c:1085-1128 | nothing but a POST after the second pop ends the waiting for an adjustment, and every such POST adjusts the queue for the latencies of the time |
| `LoopbackTransfer.ChangeIsTunedFor` | src/modules/module-loopback.c:1321-1377 | in every run after a move or a suspend the queue has been adjusted anew or is still going to be |
| `LoopbackLatency.EscalationIsExact` | src/modules/module-loopback.c:432-449 | with a minimum latency computed from the same offsets, an escalation makes the effective latency L + 5 ms, or the maximum, if and only if there is no maximum or the latency offsets sum up to less than it |
| `LoopbackLatency.OffsetsAboveMaximum` | src/modules/module-loopback.c:364-398 | offsets that reach the maximum keep the minimum latency above it, before and after an escalation |
| `LoopbackLatency.RangeLimitHasMargin` | src/modules/module-loopback.c:364-398 | without underruns the minimum latency exceeds what source and sink need together by 10% and 1.5 ms, before the offsets are added, and is never negative |
| `LoopbackLatency.EscalationsClimb` | src/modules/module-loopback.c:432-449 | n escalations in a row climb by n steps of 5 ms and stop at the maximum, if the offsets lie below it |
| `LoopbackLatency.FilteredIsBetween` | src/modules/module-loopback.c:520-522 | the filtered latency lies between the measured and the predicted one |
| `LoopbackLatency.FilterBalances` | src/modules/module-loopback.c:520-522 | the filtered latency is the one value that divides the way from the measured to the predicted latency like their variances; a measurement without variance is taken as it is |
| `LoopbackLatency.KalmanFollowsFilter` | src/modules/module-loopback.c:520-522 | the variance left by the filter is the same part of the old one that the filtered latency has moved from the measured towards the predicted one |
| `LoopbackLatency.KalmanStaysPositive` | src/modules/module-loopback.c:520-522 | the variance of the filter stays at least 200 and at most 5/4 of the measured variance plus 200 |
| `LoopbackLatency.DriftIsLimited` | src/modules/module-loopback.c:327-338 | the drift that is passed on is below base/100 + 1 |
| `LoopbackLatency.DriftIsFound` | src/modules/module-loopback.c:327-338 | if the latency has changed as it does when the source delivers at some rate, the drift is the difference of that rate from the base rate, and 0 if that is more than 1% |
| `LoopbackLatency.LowPassKeepsLimit` | src/modules/module-loopback.c:340-342 | the low-pass filter keeps every bound of its inputs |
| `LoopbackLatency.LowPassApproaches` | src/modules/module-loopback.c:340-342 | every step of the filter covers an eighth of the way to its input |
| `LoopbackLatency.ControllerIsBounded` | src/modules/module-loopback.c:280-322 | for every weight the P-controller stays less than 1% from the base rate, follows the sign of the difference, and at full weight moves away by less than 0.2% and 1 Hz |
| `LoopbackLatency.ControllerMakesUp` | src/modules/module-loopback.c:301-318 | the rate chosen makes up for the whole difference at 0.2% per cycle from the old rate, or for the weighted one at 1% per cycle from the base rate; with a lowered weight always the latter |
| `LoopbackWeight.ThresholdIsHalfHertz` | src/modules/module-loopback.c:287-302 | once the weight is lowered the controller corrects by half a Hz or more if and only if the latency difference has reached the threshold, and by exactly that much there |
| `LoopbackWeight.FullWeight` | src/modules/module-loopback.c:287-302 | the weight is full until the target was crossed twice, and whenever the rate is 2 per mille or more from the optimum |
| `LoopbackWeight.LoweredWeight` | src/modules/module-loopback.c:287-302 | a lowered weight is the least one for differences up to the threshold and at least that beyond it |
| `LoopbackLatency.LimitedRate` | src/modules/module-loopback.c:345-354 | the rate that is returned is within 1% of the base rate |
| `LoopbackLatency.LimitedIsNearest` | src/modules/module-loopback.c:345-354 | it is the greatest rate within the limits that is not above what was asked for |
| `LoopbackLatency.SameSamples` | src/modules/module-loopback.c:494-495 | the latency at the optimum rate stands for the same samples in the buffer, up to a microsecond |
| `LoopbackLatency.PredictionsComeTrue` | src/modules/module-loopback.c:576-590 | if the source delivers at the optimum rate while the sink input plays at the new one, both predicted latencies are the ones that will be measured |
| `LoopbackLatency.RemainingIsLatency` | src/modules/module-loopback.c:565-566 | the difference kept for the next call is that of the same samples played at the new rate |
| `LoopbackLatency.CrossingIs` | src/modules/module-loopback.c:561-563 | the target counts as crossed exactly if the difference was on one side and is on the other |
| `LoopbackLatency.HoursAreWhole` | src/modules/module-loopback.c:427-455 | whole hours of running time |
| `LoopbackLatency.Controller.constructor` | src/modules/module-loopback.c:1668-1855 | the state after load satisfies the invariant, with the offsets of the ports and the minimum latency that follows from them |
| `LoopbackLatency.Controller.TrackUnderruns` | src/modules/module-loopback.c:427-456 | escalation after more than two underruns, exact under the condition of EscalationIsExact, and one underrun forgiven whenever an hour is completed |
| `LoopbackLatency.Controller.MeasureAdjustTime` | src/modules/module-loopback.c:456-474 | the adjust time is the mean over the uninterrupted calls and never zero; an interruption resets the drift |
| `LoopbackLatency.Controller.FilterLatency` | src/modules/module-loopback.c:500-522 | the filter branch runs only with a positive variance and divides the way between measured and predicted latency like their variances; what becomes of prediction, error and variances |
| `LoopbackLatency.Controller.RateController` | src/modules/module-loopback.c:280-354 | the rate is the limited sum of controller and drift compensation, without a latency difference the optimum rate, and both drift filters keep their bounds |
| `LoopbackLatency.Controller.Predict` | src/modules/module-loopback.c:576-598 | both branches predict the same gain at the optimum rate, (optimum - rate) * time / optimum, and while correcting the buffer replayed at the new rate |
| `LoopbackLatency.Controller.Steer` | src/modules/module-loopback.c:538-601 | the new rate for the filtered latency and the difference that remains at that rate |
| `LoopbackLatency.Controller.Observe` | src/modules/module-loopback.c:456-522 | the measured latency at the optimum rate, the corrected prediction, and a filtered value that divides the way between them like their variances |
| `LoopbackLatency.Controller.Regulate` | src/modules/module-loopback.c:456-601 | adjust_rates after the underruns: the fast branch exactly beyond its threshold, otherwise the rate asked for |
| `LoopbackLatency.Controller.AdjustRates` | src/modules/module-loopback.c:415-602 | every call keeps the bounds on drift filter and compensation, leaves a variance of at least 200, divides by nothing zero, sets exactly the rate asked for, and escalates exactly under the condition of EscalationIsExact |
| `LoopbackLatency.Controller.HandleAll` | src/modules/module-loopback.c:1493-1547 | after any callbacks between two calls (offset changes, latency ranges, underruns, moves) the minimum latency is that of the current offsets and limit, and the last offsets are those of the last call unless a move or an underrun calls for a new start |
| `LoopbackLatency.Controller.Period` | src/modules/module-loopback.c:500-512 | any callbacks and then adjust_rates: the prediction of the last call is shifted by exactly what the offsets have changed since, if and only if there was no move, underrun or pause; otherwise the measured value is used |
| `DaemonStartup.StepKeepsInv` | src/daemon/main.c:916-1040 | every step, failure and crash of launcher, middle process and daemon keeps the invariant |
| `DaemonStartup.RunKeepsInv` | src/daemon/main.c:916-1040 | the invariant holds after every interleaving |
| `DaemonStartup.OneWordPerPipe` | src/daemon/main.c:1390-1400 | each pipe carries at most one status word in every interleaving |
| `DaemonStartup.ExitCodeIsTruthful` | src/daemon/main.c:940-958 | the launcher exits 0 only if the daemon reported 0, that is, completed its start-up or found a running daemon under --start; a reported 0 is hidden if and only if reading or writing a status failed or the middle process crashed before it had written one |
| `DaemonStartup.StatusIsPassedOn` | src/daemon/main.c:940-1031 | a launcher that exits returns 0 or 1; unless a status could not be read or written or the middle process crashed, it returns what the daemon reported, and 1 if it reported nothing |
| `DaemonStartup.FailedSetUpIsReported` | src/daemon/main.c:916-1008 | if creating a pipe, forking or setsid fails no daemon is started in the rest of the run, and a launcher that exits returns 1 |
| `DaemonStartup.RunTraced` | src/daemon/main.c:940-1031 | in every run, while the launcher waits, a 0 on its way to it has met no failure; once it has a status, it is 0 only after no failure at all |
| `DaemonStartup.SuccessCanBeHidden` | src/daemon/main.c:945-951 | a run without a crash of the middle process in which the launcher fails although the daemon has reported 0 |
| `DaemonStartup.LauncherIsNeverStuck` | src/daemon/main.c:1010-1031 | once the daemon has reported or died, launcher or middle process can move until the launcher is gone, or a report got lost and the daemon's next step closes the pipe |
| `DaemonStartup.RunsAreFinite` | src/daemon/main.c:916-1040 | no run is longer than the rank it starts with |
| `DaemonStartup.SettledStays` | src/daemon/main.c:1309-1316 | a report or a death of the daemon is never taken back |
| `DaemonStartup.LauncherAlwaysEnds` | src/daemon/main.c:916-1040 | once the daemon has reported or died at most 82 steps remain, with any failures and crashes, and no run comes to rest before the launcher has exited or crashed |
| `Tagstruct.GetU8Put` | src/pulsecore/tagstruct.c:219-224 | an 8-bit value is read back, and nothing beyond it consumed |
| `Tagstruct.GetU32Put` | src/pulsecore/tagstruct.c:212-217 | a 32-bit value is read back |
| `Tagstruct.GetS64Put` | src/pulsecore/tagstruct.c:273-278 | a signed 64-bit value is read back |
| `Tagstruct.GetBooleanPut` | src/pulsecore/tagstruct.c:245-249 | a boolean is read back |
| `Tagstruct.GetStringPut` | src/pulsecore/tagstruct.c:200-210 | a C string or NULL is read back |
| `Tagstruct.GetStringExtends` | src/pulsecore/tagstruct.c:358-395 | reading a string does not depend on what follows it |
| `Tagstruct.GetS64Extends` | src/pulsecore/tagstruct.c:526-534 | nor does reading a 64-bit value |
| `Tagstruct.GetU32Extends` | src/pulsecore/tagstruct.c:397-405 | nor a 32-bit value |
| `Tagstruct.GetU8Extends` | src/pulsecore/tagstruct.c:407-415 | nor an 8-bit value |
| `Tagstruct.GetBooleanExtends` | src/pulsecore/tagstruct.c:466-482 | nor a boolean |
| `Tagstruct.WireFormat` | src/pulsecore/tagstruct.c:200-278 | the bytes of one value of every type |
| `CardRestore.EntryWrite` | src/modules/module-card-restore.c:205-242 | the record written for any iteration order of the port map |
| `CardRestore.WritePorts` | src/modules/module-card-restore.c:221-225 | the port loop appends the record of every port in order |
| `CardRestore.ReadPort` | src/modules/module-card-restore.c:326-342 | one port of any version of the format, or failure |
| `CardRestore.ReadPorts` | src/modules/module-card-restore.c:316-343 | the port loop, which fails on a repeated port |
| `CardRestore.EntryRead` | src/modules/module-card-restore.c:281-371 | a record of any version, or failure if it is malformed or not used up |
| `CardRestore.RoundTrip` | src/modules/module-card-restore.c:205-371 | reading a written record gives back the entry for every iteration order, a NULL profile becoming empty |
| `CardVersions.VersionRoundTrip` | src/modules/module-card-restore.c:281-371 | a record in the format of any version up to the current one is read as what that version knew of the entry, for every order of the ports |
| `CardVersions.CurrentVersion` | src/modules/module-card-restore.c:205-242 | the format of the current version is what entry_write produces |
| `CardRestore.RecordsArePrefixFree` | src/modules/module-card-restore.c:365-371 | no accepted record, of any version, stays acceptable when bytes are cut off or added |
| `CardRestore.EntrysEqual` | src/modules/module-card-restore.c:174-203 | the comparison by size and look-up holds exactly if the entries agree in everything but the port profiles |
| `CardRestore.Userdata.CardPut` | src/modules/module-card-restore.c:407-432 | after a card was put its record has the card's own preferred ports, stickiness, ports and offsets; the profile is the former one if there was a record and the card does not save its profile, else the active one if the card saves it or is sticky, else none |
| `CardRestore.PutStores` | src/modules/module-card-restore.c:407-432 | the same for the database as a whole; port profiles are the card's own exactly if the record was rewritten or had them already; other records are untouched |
| `CardRestore.PutAgain` | src/modules/module-card-restore.c:407-432 | putting the card again, with any port order and any port profiles, leaves the database unchanged |
| `CardRestore.PutIsIdempotent` | src/modules/module-card-restore.c:407-432 | a second card_put of an unchanged card leaves the database unchanged |
| `CardRestore.PortProfileGoesStale` | src/modules/module-card-restore.c:174-203 | a card whose changed port profile is not stored |
| `DeviceSort.ExchangeSort` | src/modules/module-device-manager.c:1627-1635 | comparing every j with every k and swapping when the first is greater yields a non-increasing permutation |
| `DeviceSort.FirstPass` | src/modules/module-device-manager.c:1627-1635 | the first pass brings a least element to the front |
| `DeviceSort.InsertionPass` | src/modules/module-device-manager.c:1627-1635 | every further pass inserts its element into the sorted prefix and keeps a least element behind it |
| `DeviceDatabase.GetRoleIndex` | src/modules/module-device-manager.c:547-555 | the index of the role, or the invalid index exactly for an unknown role |
| `DeviceDatabase.SeenKeepsValid` | src/modules/module-device-manager.c:796-921 | announcing a device keeps priorities positive and distinct per kind and role |
| `DeviceDatabase.SeenDescribes` | src/modules/module-device-manager.c:838-921 | an announcement sets the icon and, unless the user has named the device, the description; it neither ranks a known device anew nor touches another one |
| `DeviceDatabase.HighestAfterSeen` | src/modules/module-device-manager.c:502-542 | a new device raises the highest priority of its kind by one in every role, a known one does not |
| `DeviceDatabase.Registering` | src/modules/module-device-manager.c:1636-1638 | registering a list of devices, into any database: known devices keep their priorities, the other kind is untouched, new ones come after all known ones in the order given |
| `DeviceDatabase.HigherPriorityRanksFirst` | src/modules/module-device-manager.c:1614-1658 | among new devices registered by falling priority, greater priority means smaller rank in every role |
| `DeviceDatabase.FirstRanks` | src/modules/module-device-manager.c:1614-1658 | where no device of the kind is known, the ranks handed out are exactly 1 to n in every role, monitor sources not counted |
| `DeviceStartup.FirstStart` | src/modules/module-device-manager.c:1614-1658 | start-up with an empty database and fewer than 128 devices of each kind ranks sinks and sources 1 to n by priority in every role |
| `DeviceStartup.FillDatabase` | src/modules/module-device-manager.c:1614-1667 | so does the method InjectDevices, called on an empty database |
| `DeviceManager.RaiseTo` | src/modules/module-device-manager.c:524-526 | the maximum per role |
| `DeviceManager.Userdata.MaxPriority` | src/modules/module-device-manager.c:508-535 | the highest priorities of the kind, for every iteration order of the database |
| `DeviceManager.Userdata.LoadOrInitializeEntry` | src/modules/module-device-manager.c:490-545 | the stored entry, or a new one ranked behind all devices of its kind |
| `DeviceManager.Userdata.DeviceSeen` | src/modules/module-device-manager.c:838-921 | the database after a sink or source event; monitor sources change nothing |
| `DeviceManager.Userdata.RenameDevice` | src/modules/module-device-manager.c:1240-1271 | only the description of a known device changes |
| `DeviceManager.Userdata.DeleteDevices` | src/modules/module-device-manager.c:1273-1291 | exactly the named entries go |
| `DeviceManager.Userdata.InjectSorted` | src/modules/module-device-manager.c:1620-1638 | the devices are registered in an order that is a permutation by falling priority |
| `DeviceManager.Userdata.InjectUnsorted` | src/modules/module-device-manager.c:1659-1667 | 128 or more devices are registered as they come |
| `DeviceManager.Userdata.InjectDevices` | src/modules/module-device-manager.c:1614-1667 | sinks and then sources are registered, sorted if there are fewer than 128 of each |
| `DeviceManager.StepKeepsValid` | src/modules/module-device-manager.c:1240-1483 | announcing, renaming, deleting and reordering (fewer than 256 names) keep the database valid |
| `DeviceManager.RunKeepsValid` | src/modules/module-device-manager.c:1240-1483 | so does every run of such steps |
| `DeviceManager.RunKeepsName` | src/modules/module-device-manager.c:1240-1271 | in every run of announcements, renamings, deletions and reorderings a name given by the user stays until the user changes it or deletes the device |
| `DeviceManager.RenamedForGood` | src/modules/module-device-manager.c:1240-1271 | so a renamed device has that name at the end of every such run, and its priorities and all other devices are as before |
| `DeviceManager.DeletedIsForgotten` | src/modules/module-device-manager.c:1273-1291 | exactly the entries not named remain; a deleted device that is announced again goes by its own name, behind all others of its kind |
| `DeviceManager.Userdata.CollectNamed` | src/modules/module-device-manager.c:1332-1387 | the request is refused exactly if a name is missing, unknown or of another kind than the first; each name is numbered by its first occurrence |
| `DeviceManager.Userdata.AddOthers` | src/modules/module-device-manager.c:1391-1431 | the other devices of the kind are added behind, for every iteration order, unless 256 or more are named |
| `DeviceManager.Userdata.ListDevices` | src/modules/module-device-manager.c:1438-1445 | every device with its weight, once, in some order |
| `DeviceReorder.SelectionPass` | src/modules/module-device-manager.c:1446-1456 | one pass brings the least of the rest to its place and loses no device |
| `DeviceReorder.SortDevices` | src/modules/module-device-manager.c:1446-1456 | the list is sorted by weight and loses no device |
| `DeviceManager.Userdata.WriteRanks` | src/modules/module-device-manager.c:1464-1484 | every device gets its position as its priority, whether or not it has to be written |
| `DeviceManager.Userdata.ReorderDevices` | src/modules/module-device-manager.c:1309-1496 | a request is accepted exactly if role, count and names are good; otherwise nothing changes; if so the ranks of the one ranking are written |
| `DeviceReorder.SortedIsRanking` | src/modules/module-device-manager.c:1446-1456 | the sorted list is the ranking |
| `DeviceReorder.RankingReorders` | src/modules/module-device-manager.c:1309-1483 | named devices get ranks 1 to k by first occurrence, the other listed ones k + 1 to n in their former order; other roles, the other kind and all else are unchanged |
| `DeviceReorder.RankingIsUnique` | src/modules/module-device-manager.c:1391-1445 | there is only one ranking, so the outcome does not depend on any iteration order |
| `DeviceReorder.ReorderKeepsValid` | src/modules/module-device-manager.c:1391-1483 | the database stays valid if and only if fewer than 256 devices are named or every device left out has a priority above the number of names |
| `DeviceReorder.ReorderCanCollide` | src/modules/module-device-manager.c:1397-1400 | 257 sinks of which 256 are named end up with a rank taken twice |
| `DeviceRouting.UpdateHighestPriorityDeviceIndexes` | src/modules/module-device-manager.c:557-647 | for every iteration order the cached index of each role is that of the usable device with the least stored priority, and invalid exactly if no usable device has an entry |
| `DeviceRouting.Consider` | src/modules/module-device-manager.c:593-635 | one entry, seen by all roles |
| `DeviceRouting.FindUsable` | src/modules/module-device-manager.c:600-628 | the first linked device of that name that is not to be ignored |
| `DeviceRouting.SearchFinds` | src/modules/module-device-manager.c:600-628 | the search succeeds exactly if such a device exists |
| `DeviceRouting.ConsideredIsBest` | src/modules/module-device-manager.c:593-635 | taking one more entry into account keeps the best device so far |
| `EqualizerBlocks.WindowData` | src/modules/module-equalizer-sink.c:386-390 | the work buffer holds the windowed input and zeros |
| `EqualizerBlocks.AddOverlap` | src/modules/module-equalizer-sink.c:408-412 | the saved tail is added and the new tail saved although both share a buffer |
| `EqualizerBlocks.ShiftInput` | src/modules/module-equalizer-sink.c:419-422 | the input is moved to the front by one hop |
| `EqualizerBlocks.DspLogic` | src/modules/module-equalizer-sink.c:372-423 | the transform of the window plus the saved tail; the tail and the input for the next block; other channels untouched |
| `EqualizerBlocks.FilterChannel` | src/modules/module-equalizer-sink.c:560-573 | dsp_logic takes a channel that stands before block m of its stream to block m + 1, producing the sum of block m and the tail of block m - 1 |
| `EqualizerBlocks.Unwindow` | src/modules/module-equalizer-sink.c:574-581 | the windowing of the first block is undone where the window is not too small |
| `EqualizerBlocks.ClampOut` | src/modules/module-equalizer-sink.c:582-582 | samples go, limited, to the places of their channel and to no other place |
| `OverlapAdd.SlotsDiffer` | src/modules/module-equalizer-sink.c:582-582 | no two (frame, channel) pairs share a place |
| `OverlapAdd.SlotsCover` | src/modules/module-equalizer-sink.c:582-582 | every place belongs to a (frame, channel) pair |
| `EqualizerBlocks.ProcessChannel` | src/modules/module-equalizer-sink.c:560-582 | one channel of a block is written as stateless overlap-add says |
| `EqualizerBlocks.ProcessBlock` | src/modules/module-equalizer-sink.c:557-588 | so are all channels of a block, and nothing outside the block is written |
| `EqualizerBlocks.BlocksAgree` | src/modules/module-equalizer-sink.c:542-590 | what was put out depends on nothing beyond the reach of its blocks |
| `EqualizerSink.Equalizer.constructor` | src/modules/module-equalizer-sink.c:1158-1164 | the state after load |
| `EqualizerSink.Equalizer.ProcessBlocks` | src/modules/module-equalizer-sink.c:557-588 | the in-place loop refines overlap-add over the whole stream |
| `EqualizerSink.Equalizer.Flatten` | src/modules/module-equalizer-sink.c:523-540 | the output is queued completely and in order, in pieces of any size |
| `EqualizerSink.Equalizer.ProcessSamples` | src/modules/module-equalizer-sink.c:542-590 | the number of blocks, what is left over, and exactly the new blocks queued |
| `EqualizerSink.Equalizer.InputBuffer` | src/modules/module-equalizer-sink.c:592-608 | the streams grow by the limited, de-interleaved input |
| `EqualizerSink.Equalizer.AllocInputBuffers` | src/modules/module-equalizer-sink.c:223-238 | buffers grow to what is asked for; everything beyond the overlap becomes silence when they do |
| `EqualizerSink.Equalizer.Gather` | src/modules/module-equalizer-sink.c:658-681 | exactly the missing input is taken in, for chunks of any size |
| `EqualizerSink.Equalizer.Refill` | src/modules/module-equalizer-sink.c:636-690 | a request of at least one frame makes at least one block and leaves the counts of Next |
| `EqualizerSink.Equalizer.Pop` | src/modules/module-equalizer-sink.c:610-701 | what is handed out is what was put out, in order; what was taken in is heard unchanged if and only if growing buffers lose nothing but silence |
| `EqualizerSink.Equalizer.FramesAddUp` | src/modules/module-equalizer-sink.c:542-608 | frames in equal frames put out plus samples_gathered, in every reachable state |
| `EqualizerSink.Equalizer.OutputIsOverlapAdd` | src/modules/module-equalizer-sink.c:542-590 | in every reachable state every block ever put out is the clamped overlap-add of the stream, the first one without its window |
| `EqualizerSink.Equalizer.FlatFilterAmplifies` | src/modules/module-equalizer-sink.c:401-412 | in every reachable state, with a transform that changes nothing and windows that sum up to one, every sample put out is that of the stream times the gain, limited, except where the window is too small at the very start |
| `Reconstruction.PerfectReconstruction` | src/modules/module-equalizer-sink.c:386-412 | every block but the first is then the stream itself, times the gain |
| `Reconstruction.FirstReconstruction` | src/modules/module-equalizer-sink.c:574-581 | so is the first one once its window is undone |
| `Reconstruction.SilenceStays` | src/modules/module-equalizer-sink.c:386-412 | a transform that adds nothing to silence leaves a silent stream silent |
| `Reconstruction.ClampIsNearest` | src/modules/module-equalizer-sink.c:582-582 | limiting a sample moves it no farther than needed |
| `EqualizerSink.DeinterleavedIs` | src/modules/module-equalizer-sink.c:597-604 | every sample of a chunk goes to the channel and the frame that its place stands for |
| `EqualizerSink.Equalizer.EverySample` | src/modules/module-equalizer-sink.c:542-590 | and every sample ever put out belongs to such a block |
| `EqualizerCounts.PopCounts` | src/modules/module-equalizer-sink.c:633-692 | between pops after the first, overlap_size <= samples_gathered < window_size; input is still needed, the buffers are large enough, and at least one block is made |
| `EqualizerCounts.RequestIsMet` | src/modules/module-equalizer-sink.c:636-648 | every refill but the first makes the least number of blocks that covers the request; the first one makes a block less when more than one hop is asked for |
| `EqualizerCounts.NeedsInput` | src/modules/module-equalizer-sink.c:658-661 | after the first pop input is needed if and only if at least one frame is requested |
| `EqualizerCounts.RunCounts` | src/modules/module-equalizer-sink.c:633-692 | in every run of requests more than the overlap is left only after a first request for more than one hop |
| `EqualizerCounts.LosesExactly` | src/modules/module-equalizer-sink.c:223-238 | growing loses a sample exactly at the second refill, when the first asked for more than a hop and the second for as many hops or more |
| `EqualizerCounts.SampleCanBeLost` | src/modules/module-equalizer-sink.c:230-232 | two requests that lose a sample |
| `EqualizerCurve.Interpolate` | src/modules/module-equalizer-sink.c:168-196 | the segment index stays in range, no assertion fails, and every sample lies on the line of its segment |
| `EqualizerCurve.CurveFits` | src/modules/module-equalizer-sink.c:168-196 | the curve goes through every point and elsewhere lies between the two neighbouring points |
| `EqualizerCurve.CurveIsStraight` | src/modules/module-equalizer-sink.c:168-196 | equal steps within a segment change the samples equally |
| `EqualizerCurve.SlopeIs` | src/modules/module-equalizer-sink.c:168-196 | along a segment the curve rises in proportion to the way along it |
| `EqualizerCurve.IsMonotonic` | src/modules/module-equalizer-sink.c:198-209 | true exactly for strictly increasing points |
| `EqualizerCurve.FixFilter` | src/modules/module-equalizer-sink.c:162-166 | the gain of the transform is divided out |
| `EqualizerCurve.SeedFilter` | src/modules/module-equalizer-sink.c:1850-1884 | the request is accepted exactly for points that interpolate can deal with, and the filter is then their curve |
| `EqualizerState.Pack` | src/modules/module-equalizer-sink.c:883-901 | the packed memory, for any number and length of strings |
| `EqualizerState.Unpack` | src/modules/module-equalizer-sink.c:902-916 | the strings that the memory describes, unless it ends too early for them |
| `EqualizerState.UnpackAfterPack` | src/modules/module-equalizer-sink.c:883-916 | what comes back from packed strings: count and lengths modulo 2^16 |
| `EqualizerState.UnpackInvertsPack` | src/modules/module-equalizer-sink.c:883-916 | unpack inverts pack and uses up all of it if and only if the count and all lengths are below 2^16 |
| `EqualizerState.LongStringIsLost` | src/modules/module-equalizer-sink.c:895-898 | a string that does not come back |
| `EqualizerState.PackedExample` | src/modules/module-equalizer-sink.c:883-901 | the bytes of a small value: the count, and every string after its length |
| `EqualizerState.SaveChannel` | src/modules/module-equalizer-sink.c:961-968 | one channel's preamp and filter in their places, the others kept |
| `EqualizerState.SaveState` | src/modules/module-equalizer-sink.c:945-973 | the saved value describes every channel and ends with the packed names |
| `EqualizerState.SavedLayout` | src/modules/module-equalizer-sink.c:956-968 | for every channel the preamp and then the filter, one after the other |
| `EqualizerState.LoadChannel` | src/modules/module-equalizer-sink.c:1043-1049 | one channel is read back, the others kept |
| `EqualizerState.LoadState` | src/modules/module-equalizer-sink.c:1021-1063 | what a value makes of preamps, filters and names; a value that is too short changes nothing; names that would be read from beyond the end are told apart |
| `EqualizerState.LoadInvertsSave` | src/modules/module-equalizer-sink.c:945-1063 | a saved value is accepted and describes no other preamps and filters than those saved; all names come back if and only if none has 2^16 bytes or more |
| `EqualizerState.SaveAndLoad` | src/modules/module-equalizer-sink.c:945-1063 | saving and loading into another sink gives it the same preamps and filters, and the same names if and only if none has 2^16 bytes or more |
| `CombineFanout.SnapshotStays` | src/modules/module-combine-sink.c:390-425 | nothing but a new snapshot changes the snapshot of an output |
| `CombineRates.ZeroDifference` | src/modules/module-combine-sink.c:224-247 | a slave at the target latency gets the base rate exactly |
| `DaemonStartup.StepsRunOut` | src/daemon/main.c:916-1040 | every step lowers the rank |
| `DeviceManager.RenameKeepsValid` | src/modules/module-device-manager.c:1240-1271 | renaming keeps the database valid |
| `DeviceManager.DeleteKeepsValid` | src/modules/module-device-manager.c:1273-1291 | deleting keeps the database valid |
| `DeviceManager.SortedIndexes` | src/modules/module-device-manager.c:1620-1635 | the indexes and priorities of the devices, sorted |
| `DeviceReorder.NamedAtFront` | src/modules/module-device-manager.c:1366-1387 | in a ranking the devices named stand exactly at the front |
| `DeviceRouting.BestIsPreferred` | src/modules/module-device-manager.c:557-647 | with distinct positive priorities the best device is the one and only, and 0 means none |
| `EqualizerBlocks.TransformData` | src/modules/module-equalizer-sink.c:391-400 | the transform replaces the contents of the work buffer |
| `EqualizerSink.ClampIn` | src/modules/module-equalizer-sink.c:603-603 | one channel is de-interleaved and limited, the others kept |
| `EqualizerSink.TakeIn` | src/modules/module-equalizer-sink.c:597-604 | all channels are, behind what was gathered |
| `EqualizerSink.CopyOverlap` | src/modules/module-equalizer-sink.c:228-235 | the overlap of every channel is copied |
| `EqualizerSink.GrownRows` | src/modules/module-equalizer-sink.c:228-235 | the new buffers hold the overlap and zeros |
| `EqualizerSink.Equalizer.GrowOutput` | src/modules/module-equalizer-sink.c:549-554 | the output buffer is large enough |
| `EqualizerSink.Equalizer.QueueBlocks` | src/modules/module-equalizer-sink.c:555-590 | all blocks are processed and queued |
| `EqualizerSink.Equalizer.Fill` | src/modules/module-equalizer-sink.c:636-681 | exactly the target is gathered, in buffers that are large enough |
| `EqualizerSink.Equalizer.Grow` | src/modules/module-equalizer-sink.c:227-237 | larger buffers with the overlap of the old ones |
| `EqualizerSink.Equalizer.Fit` | src/modules/module-equalizer-sink.c:636-649 | the buffers hold what a request needs, and what is left of the streams |
| `EqualizerCurve.NextSegment` | src/modules/module-equalizer-sink.c:191-192 | the segment that contains the next position |
| `EqualizerSink.Equalizer.Hand` | src/modules/module-equalizer-sink.c:694-697 | some of what is queued is handed out from the front |
| `EqualizerSink.Equalizer.FaithfulWhen` | src/modules/module-equalizer-sink.c:223-238 | the streams agree after a refill if and only if only silence was lost |
| `EqualizerCounts.TargetBlocks` | src/modules/module-equalizer-sink.c:636-648 | how many blocks a request makes and how many samples are left over |
| `EqualizerCounts.FillCounts` | src/modules/module-equalizer-sink.c:636-661 | more input is missing, and the buffers become as large as the target |
| `EqualizerState.TotalLength` | src/modules/module-equalizer-sink.c:887-889 | the length of all strings together |
| `EqualizerState.PackInto` | src/modules/module-equalizer-sink.c:894-900 | the strings follow each other, the rest stays zero |
| `EqualizerState.LoadNames` | src/modules/module-equalizer-sink.c:1050-1056 | the names read replace those of as many channels |

## Left out

- D-Bus handlers apart from the conditions on filter points, module arguments, logging,
  property lists, hooks and the creation of threads.
- The Fourier transforms, `cos`, smoothers and resamplers: transforms, windows and
  latencies are arbitrary inputs. That windows sum up to one is a condition of the
  reconstruction results, not a claim about the window in use.
- The inside of memory blocks, message queues, databases and atomic updates. A
  message queue is a sequence; a database is a map whose reads and writes succeed;
  the audio queue of the loopback is reduced to its two indexes and its prebuffering.
- Rounding of doubles and floats, wrap-around of counters, priorities and timestamps,
  and the absolute value of the least 32-bit integer.
- Hooks of the card module other than putting a card, among them the one that stores
  a port profile when the user changes the card's profile.
- The combine sink's detach and attach without disable in between: an output is
  enabled, attached, detached and disabled, because only disabling flushes its queues.
- The loopback's messages about underruns are not part of the transfer model; they
  appear in the controller only.
- Devices without a description or an icon, and entries that cannot be decoded.
  Setting the description of a sink or source in turn is not modelled.
- Legacy database formats and the device manager's records byte by byte.
- The routing of streams itself; only the cache it reads is modelled.
- `save_profile` and `load_profile` of the equalizer, the doubled filters that make
  its updates atomic, and rewinding of its queues.
- In the daemon: privileges, resource limits, Windows services, the autospawn lock and
  the commands that do not daemonize.
- EqualizerState.Unpack: only says that memory which ends too early is not unpacked,
  because the source reads on without looking at the length.
- EqualizerState.LoadState: says nothing about the names in that case.
- LoopbackLatency.Controller.AdjustRates: takes the latencies as inputs; the buffer they
  are computed from is the subject of LoopbackTransfer.BufferIsAllOnItsWay.
