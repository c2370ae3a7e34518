# Verification model of the SMI240 Android sensor HAL

This project models the two sensor HALs of the repository in Dafny and proves what their code keeps over
every run. `dafny verify dfyconfig.toml` checks all of it.

**Multi-HAL engine.** Sub-HALs post events from many threads onto one bounded event queue. What does not fit
waits for a writer thread, which lets go of the mutex while it writes. A reference-counted wake lock is
changed by posts, tokens, acknowledgements, failed writes and timeouts.

- `EventChannel` is the event path as a step system with a program counter for the writer; its results are
  about every interleaving. `Wakelock` is the counter, `TokenRuns` the tokens that hold it, and `MultiHal` the
  product of event path, counter and tokens, with the law that says what the count counts.
- `HalProxy` holds the shared object and the move-only token as classes. Each of the object's methods on the
  event path is one step from a reachable state to a reachable one, so the results about runs are its results.
  `HalProxyCallback` is the way a sub-HAL's events take to it.
- `SensorDirectory` merges the sub-HALs' sensors into one list; `HandleCoding` and `ProxyHandles` are about
  the bits of the handles.

**Legacy sampling pipeline.** `SimpleList` is the linked list with its nodes, `Alignment` the merge by time
and the emission, `SamplePipeline` the code of the two threads on those lists, and `PipelineRuns` every
interleaving of the two threads. `PopCount` is the bit counter that sizes the sensor list. `RateChain`,
`ActiveSensors` and `SensorControl` lead from a batch or activate call to the polling interval.

**Small state machines.** `SingleHal` is the wake lock of the HAL without sub-HALs, `SamplingLoop` the
sampling thread of a sensor. `Arithmetic`, `Sequences` and `Wrappers` hold what the others share.

How threads are modelled: what a thread does while it holds a mutex is one step, and runs are sequences of
steps in any order. A log in a state (posted, delivered, polled and the like) is read by no step. A run from
`s` to `t` is `Runs(s, steps, t)`.

## Results that need a condition

Some promises do not hold of the code on all inputs. Each has a lemma with an input that shows it, and the
exact condition.

- Emission in time order: `Alignment.EmittedSortedIff` and `Alignment.ZeroTimeIsOvertaken`. In runs the clock is
  positive, so the condition holds.
- A failed write that drops the tail of a split post lowers the count by the wake-up events of the whole post:
  `MultiHal.FailMove` and `MultiHal.SplitTailReleasesEarly`. The comment at multihal/2.X/include/HalProxy.h:195
  says that the number recorded with a pending vector is the number of wake-up events in that vector; the code
  at multihal/2.X/HalProxy.cpp:633 records that of the whole post, and the model follows the code.
- Lock held exactly while counted: `Wakelock.IncrementConsistentIff` and `Wakelock.EmptyIncrementLeaks`.
- A reset empties the count: `Wakelock.ResetIff` and `Wakelock.StoppedResetKeepsLock`. The reset after stopping
  the threads (multihal/2.X/HalProxy.cpp:197-198) empties nothing.
- Balance of tokens: `TokenRuns.BalanceKeptIff` and `TokenRuns.OverwriteLosesShare`. Move assignment onto a token
  that holds a share loses it.
- Handles decode: `HandleCoding.ExtractRoundTripIff` and `HandleCoding.LargeIndexIsLost`.
- Stable rate codes: `RateChain.ReencodeIff`, `RateChain.RoundTwiceIff` and `RateChain.RoundingDrifts`.
- Rounding a rate up to the least one that serves it: `RateChain.RoundedIsLeastIff`.
- A rejected post keeps the lock held without a timeout: `MultiHal.HeldIffOwed` and `MultiHal.RejectedPostLeaks`.
- The count of outstanding events: `SingleHal.CountIsBalanceIff`, with `SingleHal.OverflowReleases` for a balance
  that is too large and `SingleHal.HugeAcknowledgementAcquires` for one that is too small.
- No lock after a late tick: `SingleHal.NeverHeldForeverIff` and `SingleHal.HugeAcknowledgementAcquires`. An
  acknowledgement above 2^31 acquires a lock that was not held, in the same late tick.

## Model

| member | source | states |
|---|---|---|
| BoundedQueue.AddedIsLastN | legacy/sensord/boschsimple_list.cpp:59-64 | Because the list compares its length with the limit by equality, adding keeps the newest elements up to the limit exactly when the list was not already longer than it. |
| BoundedQueue.AddAllIsLastN | legacy/sensord/boschsimple_list.cpp:49-83 | After any number of additions a list within its limit holds the newest elements of everything it ever held, in order. |
| BoundedQueue.LastNTwice | legacy/sensord/boschsimple_list.cpp:129-135 | Truncating twice along the way keeps the same elements as truncating once at the end. |
| BoundedQueue.LastNIsSuffix | legacy/sensord/boschsimple_list.cpp:129-135 | Truncation leaves the end of the list, as long as the list is and at most the limit. |
| BoundedQueue.MountedIsSuffix | legacy/sensord/boschsimple_list.cpp:103-138 | Splicing an empty list changes nothing, even beyond the limit; otherwise the end of both lists in their order stays, as long as they are and at most the limit. |
| SimpleList.BoschSimpleList.constructor | legacy/sensord/boschsimple_list.cpp:26-33 | A new list is empty, linked correctly, and has the default limit of 128. |
| SimpleList.BoschSimpleList.SetUplimit | legacy/sensord/boschsimple_list.cpp:40-47 | A limit of zero becomes one; the elements stay. |
| SimpleList.BoschSimpleList.AddRear | legacy/sensord/boschsimple_list.cpp:49-83 | The node chain stays well formed and carries the bounded drop-oldest queue; the return code tells exactly whether nothing was added, the oldest was dropped, or neither, even when the tail pointer was left stale by an empty list. |
| SimpleList.BoschSimpleList.GetHeaddata | legacy/sensord/boschsimple_list.cpp:85-101 | Takes the oldest element off, or reports that there is none; the tail pointer is not touched. |
| SimpleList.BoschSimpleList.LinkRear | legacy/sensord/boschsimple_list.cpp:66-80 | Linking a chain of nodes to the rear, or making it the whole list, yields one well-formed chain with the data of both. |
| SimpleList.BoschSimpleList.MountRear | legacy/sensord/boschsimple_list.cpp:103-138 | Splicing moves all nodes of a disjoint list over, keeps the newest up to the limit, empties the other list, and returns -1 exactly when something had to be dropped; an absent or empty list changes nothing. |
| SimpleList.BoschSimpleList.Truncate | legacy/sensord/boschsimple_list.cpp:129-137 | Drops from the head until the limit is kept and reports whether it dropped. |
| SimpleList.BoschSimpleList.Clean | legacy/sensord/boschsimple_list.cpp:140-149 | Empties the list whatever its length, and leaves it well formed. |
| Alignment.MergeCounts | legacy/sensord/sensord_algo.cpp:136-174 | For any input the merge fills no more slots than there are samples, sets as many accelerometer and gyroscope flags as there are samples of each, and leaves no slot empty. |
| Alignment.SharedSlotIffEqualTimes | legacy/sensord/sensord_algo.cpp:136-174 | For strictly increasing non-zero inputs the slots enumerate the union of the two sets of times, so two samples share a slot exactly when their times are equal and the length is the size of the union. |
| Alignment.EmittedIsInterleaving | legacy/sensord/sensord_algo.cpp:275-299 | Emission reaches every sample of both inputs once, each input in its own order. |
| Alignment.EmittedSortedIff | legacy/sensord/sensord_algo.cpp:138-152 | For clocked inputs the emission is in time order if and only if no gyroscope sample at time zero stands opposite an accelerometer sample at a later time. |
| Alignment.EmittedAccFirst | legacy/sensord/sensord_algo.cpp:275-299 | For strictly increasing non-zero inputs the earlier sample is emitted first, and at equal times the accelerometer's before the gyroscope's. |
| Alignment.ZeroTimeIsOvertaken | legacy/sensord/sensord_algo.cpp:145-151 | Two sorted inputs, one with time zero, whose emission is out of order: zero means "no time yet" to the merge. |
| Alignment.EventsProject | legacy/sensord/sensord_algo.cpp:369-463 | The events of a batch, projected on a sensor, are its samples converted one by one in order, or none when its range setting is unknown. |
| Alignment.BatchTellsOfAll | legacy/sensord/sensord_algo.cpp:369-463 | For any input the events of a batch, projected on a sensor of known range, tell of that sensor's samples one by one: kind, time and each axis by the measuring range; for an unknown range there are none. |
| Alignment.EventTellsOf | legacy/sensord/sensord_algo.cpp:375-453 | The converted value satisfies the full-scale equation on each axis, and the ranges that are converted are 2, 4, 8, 16 g and 125, 250, 300, 500, 1000, 2000 degrees per second. |
| Alignment.EventsSorted | legacy/sensord/sensord_algo.cpp:369-463 | Events made of packages in time order are in time order, and each carries the time of its package. |
| Alignment.FindTimeBase | legacy/sensord/sensord_algo.cpp:138-152 | The time base found at the two cursors is the one the specification of the merge uses for the remaining samples. |
| Alignment.SortInputSamples | legacy/sensord/sensord_algo.cpp:114-177 | The in-place loop terminates, stays inside an array of one slot for each sample, and leaves exactly the specified merge in it. |
| Alignment.FillSlot | legacy/sensord/sensord_algo.cpp:137-171 | One round sets the flags of one zeroed slot, moves past exactly the samples of its time, and always past at least one. |
| Alignment.TakeSlot | legacy/sensord/sensord_algo.cpp:279-299 | The flags of one slot move exactly the samples of that slot's time and advance the cursors past them. |
| Alignment.Emit | legacy/sensord/sensord_algo.cpp:272-465 | The emission loop delivers exactly the events of the specified interleaving. |
| Alignment.DeliverPackage | legacy/sensord/sensord_algo.cpp:369-463 | When the ranges of the sensors of a slot are known, the j-th event has the kind and time of the j-th sample, and on each axis 32767 times its value is 9.81 times range times raw value, or 180 times 32767 times its value is 3.14 times range times raw value; unknown ranges yield no events. |
| SamplePipeline.NewList | legacy/hal/BoschSensor.cpp:81-91 | The lists the threads work on are created empty, with the limit that all results about the pipeline are about. |
| SamplePipeline.OneSampleGoes | legacy/sensord/sensord.cpp:63-82 | A sample of type 1 is added to the accelerometer's list and one of type 16 to the gyroscope's; to the other list nothing is added. |
| SamplePipeline.Poll | legacy/sensord/sensord_hwcntl_implement.cpp:507-592 | A polling cycle adds all available readings to the sensor's own list, oldest dropped beyond 128. |
| SamplePipeline.DeliverSensorData | legacy/sensord/sensord_hwcntl_implement.cpp:651-669 | The hand-over empties both private lists into the shared one, accelerometer first, and skips the lock when both are empty. |
| SamplePipeline.Demultiplex | legacy/sensord/sensord.cpp:63-82 | One sample goes to the rear of its own sensor's list and nowhere else; the lists stay disjoint. |
| SamplePipeline.ReadRawdata | legacy/sensord/sensord.cpp:60-83 | Draining the shared list leaves it empty and adds each sensor's samples to its list in the order they had. |
| SamplePipeline.AlgoProcess | legacy/sensord/sensord_algo.cpp:216-470 | A batch takes everything out of both lists and returns the events of their interleaving; those of each sensor tell of its samples axis by axis, one of each and in order, when its range is known, and there are none otherwise. |
| PipelineRuns.StepKeepsInv | legacy/sensord/sensord_hwcntl_implement.cpp:637-669 | Every step of either thread keeps the layers in time order: delivered, current batch, shared list, private lists. |
| PipelineRuns.DeliveredInTimeOrder | legacy/sensord/sensord_algo.cpp:275-465 | Over every interleaving of the two threads with a non-decreasing positive clock the whole delivered stream, across sensors and batches, has non-decreasing timestamps. |
| PipelineRuns.SamplesAreReadings | legacy/sensord/sensord_hwcntl_implement.cpp:507-592 | Over every interleaving the samples that enter the pipeline are the readings of the chips in order, each with its three values, its time and the type of the chip whose turn it is. |
| PipelineRuns.LineCanBeDelivered | legacy/sensord/sensord.cpp:60-146 | From every state of the invariant in which what waits in front of the demultiplexer fits into the shared list, a continuation without readings delivers all samples that still exist, each sensor's in order. |
| PipelineRuns.OneCycleDelivers | legacy/sensord/sensord_hwcntl_implement.cpp:637-669 | For any two readings with positive times in order, one cycle of polling, hand-over, split and emission delivers exactly the two samples. |
| PipelineRuns.MountedCycleIsLastN | legacy/sensord/sensord_hwcntl_implement.cpp:655-662 | Mounting both lists under one lock keeps the newest 128 samples of the three lists together. |
| PipelineRuns.DrainIsLossless | legacy/sensord/sensord.cpp:60-83 | Demultiplexing a shared list within its bound into empty lists never overflows them. |
| PipelineRuns.DownstreamIsLossless | legacy/sensord/sensord.cpp:60-83 | Draining and processing keep, for each sensor, exactly the sequence of samples that exist or were delivered. |
| PipelineRuns.LineStep | legacy/sensord/sensord_hwcntl_implement.cpp:637-669 | Each step cuts one contiguous range out of a sensor's samples and adds at most one at the end; it cuts nothing when no list overflows. |
| PipelineRuns.EachSampleAtMostOnce | legacy/sensord/sensord.cpp:141-144 | Over every interleaving the samples delivered for a sensor are a subsequence of those read, and when no list overflowed nothing is missing. |
| PipelineRuns.AtRestNothingIsMissing | legacy/sensord/sensord.cpp:60-83 | When no list overflowed and all lists are empty again, each sensor's delivered samples are exactly those read from it, in order. |
| PipelineRuns.SamplesAreConserved | legacy/sensord/sensord.cpp:60-83 | Over every interleaving the samples read are as many as those delivered, in the lists, and dropped by a full list in front of the demultiplexer. |
| Lanes.StageKeepsSum | legacy/sensord/util_misc.c:67-78 | A mask-shift-add stage whose lanes pair up keeps the sum of the lanes. |
| Lanes.PositionsCount | legacy/sensord/sensord_hwcntl_implement.cpp:142-153 | The loop over the mask meets as many ones as the sum of its bits. |
| Lanes.PositionsAreSetBits | legacy/sensord/sensord_hwcntl_implement.cpp:142-153 | The positions it meets are strictly ascending and are exactly the set bits. |
| PopCount.PopCount64Correct | legacy/sensord/util_misc.c:56-81 | For every 64-bit mask the shift-and-add count is the number of its set bits. |
| SensorList.GetSensorList | legacy/sensord/sensord_hwcntl_implement.cpp:121-155 | The arrays sized by the bit counter are filled completely and never overrun, and the recorded indices are the set-bit positions in ascending order. |
| SensorList.FillSlots | legacy/sensord/sensord_hwcntl_implement.cpp:142-153 | The loop over the mask records exactly the set-bit positions and their sensors, also when it ends early because no bits are left. |
| SensorList.GetSensorT | legacy/sensord/sensord_hwcntl.cpp:887-914 | Finds the first exposed sensor with a name and that handle together with its index, or says that there is none. |
| RateChain.DecodedMonotone | legacy/sensord/sensord_hwcntl.cpp:1074-1114 | Encoding and decoding a rate is monotone up to 2000 Hz. |
| RateChain.ChainServesRequest | legacy/sensord/sensord_hwcntl_implement.cpp:423-427 | For any requested period the clamped period is positive, the decoded rate is not below the clamped request, and up to 400 Hz neither is the data rate of the chip. |
| RateChain.ChainMonotone | legacy/sensord/sensord_hwcntl_implement.cpp:162-193 | Clamp, encoding, decoding, data rate and interval together are monotone in the requested period. |
| RateChain.OdrNotBelowIff | legacy/sensord/sensord_hwcntl_implement.cpp:162-180 | The chip's data rate is at least the rate asked for if and only if that is at most 400 Hz. |
| RateChain.OdrIsLeast | legacy/sensord/sensord_hwcntl_implement.cpp:162-180 | The chip's data rate is one of 5, 50, 100, 200 and 400 Hz, and no lower one of them serves the rate asked for. |
| RateChain.ChainServesDecodedRate | legacy/sensord/sensord_hwcntl_implement.cpp:182-193 | The polling interval serves the decoded rate if and only if that is at most 400 Hz, and no longer one of the five intervals does. |
| RateChain.ChainIsLongest | legacy/sensord/sensord_hwcntl_implement.cpp:162-193 | From request to interval: the chain yields the longest of the five intervals that is not longer than the clamped period, and 2500 microseconds when they are all longer. |
| RateChain.ClampIsNearest | legacy/sensord/sensord_hwcntl_implement.cpp:423-427 | The clamped period lies within the delays, and none within them is nearer to the one asked for. |
| RateChain.IntervalExceedsOffset | legacy/sensord/sensord_hwcntl_implement.cpp:193 | Every interval that can be set is one of five values, all above the offset of 600 microseconds. |
| RateChain.ReencodeIff | legacy/sensord/inc/sensord_hwcntl.h:145-188 | Encoding a decoded code gives the code back if and only if it is not one of the codes for 12.5 and 6.25 Hz. |
| RateChain.RoundTwiceIff | legacy/sensord/sensord_hwcntl.cpp:1100-1108 | Rounding a rate up twice changes the result if and only if the request is above 5 and at most 12 Hz. |
| RateChain.RoundedIsLeastIff | legacy/sensord/sensord_hwcntl.cpp:1074-1114 | A rate is rounded up to the least one with a code that serves it, if and only if it is not just above 6 Hz (up to 6.25) or just above 12 Hz (up to 12.5). |
| RateChain.HasCodeIff | legacy/sensord/sensord_hwcntl.cpp:1074-1114 | A rate gets one of the codes if and only if it is at most 2000 Hz, and zero otherwise. |
| RateChain.RoundingDrifts | legacy/sensord/sensord_hwcntl.cpp:1100-1108 | A request that becomes 12.5 Hz, and 25 Hz when it is rounded again. |
| RateChain.LatencyRoundsDownIff | legacy/sensord/sensord_hwcntl.cpp:1119-1143 | value*unit <= latency < (value+1)*unit holds if and only if the latency is not negative and below 16384 s. |
| RateChain.LatencyPrecision | legacy/sensord/sensord_hwcntl.cpp:1119-1143 | A positive latency is never stored as zero, and values below one second have at most three digits. |
| RateChain.LatencyOutOfRange | legacy/sensord/sensord_hwcntl.cpp:1119-1143 | From 16383 seconds on the latency is stored as 16383 seconds; a negative one is stored in nanoseconds modulo 65536. |
| ActiveSensors.RoomForOneMore | legacy/sensord/sensord_hwcntl.cpp:1205 | Pigeonhole: a sensor that is not in the sorted array leaves it at least one slot short of full, so opening a gap stays inside its 32 slots. |
| ActiveSensors.EnumerationIsUnique | legacy/sensord/sensord_hwcntl.cpp:1171-1217 | The sorted array is determined by the set of enabled sensors alone. |
| ActiveSensors.MemMove | legacy/sensord/sensord_hwcntl.cpp:1196-1205 | An overlapping move inside the array, with both ranges inside it. |
| ActiveSensors.ConfigTable.Insert | legacy/sensord/sensord_hwcntl.cpp:1204-1211 | Opening a gap and inserting keeps the array a strictly sorted enumeration followed by NULLs and adds exactly that sensor. |
| ActiveSensors.ConfigTable.Delete | legacy/sensord/sensord_hwcntl.cpp:1194-1200 | Closing the gap keeps the array a strictly sorted enumeration followed by NULLs and removes exactly that sensor. |
| ActiveSensors.ConfigTable.ActivateConfigrefResort | legacy/sensord/sensord_hwcntl.cpp:1148-1220 | After every call the array is the strictly sorted enumeration of the enabled set followed by NULLs, the counter is its size, and the return value is 1 exactly when the set changed. |
| ActiveSensors.ConfigTable.BatchConfigrefResort | legacy/sensord/sensord_hwcntl.cpp:1226-1279 | Changes exactly the sensor's entry of the table, whether it was reached through the array of pointers or directly, and returns 1 exactly when the sensor is active. |
| ActiveSensors.FifoCoversLatencyIff | legacy/sensord/sensord_hwcntl.cpp:1258-1259 | The FIFO watermark is the number of whole periods within the latency if and only if the latency is not negative and that number fits into 16 bits. |
| ActiveSensors.TruncatedDivIs | legacy/sensord/sensord_hwcntl.cpp:1258-1259 | The quotient of 64-bit integers leaves a remainder smaller than the divisor with the sign of the dividend. |
| ActiveSensors.LastCallDecides | legacy/sensord/sensord_hwcntl.cpp:1148-1220 | After any run of calls a sensor is enabled exactly when the last call for it enabled it, or when it was enabled before and no call concerned it. |
| SensorControl.Control.constructor | legacy/sensord/sensord_hwcntl_implement.cpp:73 | Initially no sensor is active and the polling interval is one second. |
| SensorControl.Control.ApSendConfig | legacy/sensord/sensord_hwcntl_implement.cpp:182-306 | Only the accelerometer's configuration sets the polling interval. |
| SensorControl.Control.Switch | legacy/sensord/sensord_hwcntl_implement.cpp:360-368 | The sensor with the index is switched, and enabling the accelerometer, and nothing else, sets the polling interval. |
| SensorControl.ToggledSwitchesOne | legacy/sensord/sensord_hwcntl.cpp:1148-1170 | Switching a sensor changes the enabled indices of both tables together by that sensor's index and by no other. |
| SensorControl.Control.Configure | legacy/sensord/sensord_hwcntl_implement.cpp:431-445 | The entry of the index holds what was asked for, and the polling interval changes if and only if the accelerometer is configured while it is active. |
| SensorControl.Control.ApActivate | legacy/sensord/sensord_hwcntl_implement.cpp:340-371 | Switches exactly the sensor the handle stands for; unknown handles are refused. Enabling the accelerometer sets the polling interval its configuration asks for, and no other call changes the interval. |
| SensorControl.Control.ApBatch | legacy/sensord/sensord_hwcntl_implement.cpp:373-447 | For every exposed sensor the configuration table is reached with a positive clamped period and only that entry changes; unknown handles are refused unless no latency is asked for; a batch of the active accelerometer sets the polling interval to what the whole rate chain yields, and any other leaves the interval. |
| SensorControl.Control.SleepTime | legacy/sensord/sensord_hwcntl_implement.cpp:671 | In every reachable state the unsigned subtraction of the offset does not wrap. |
| Wakelock.IncrementConsistentIff | multihal/2.X/HalProxy.cpp:641-654 | An increment keeps "held exactly while the count is positive" if and only if it does not acquire the lock for zero events. |
| Wakelock.DecrementConsistent | multihal/2.X/HalProxy.cpp:656-668 | Any decrement, over-large or stale, keeps that and never goes below zero. |
| Wakelock.ResetIff | multihal/2.X/HalProxy.cpp:605-609 | A reset empties the count if and only if the threads run or it was empty: after the threads were stopped it leaves count and lock. |
| Wakelock.StoppedResetKeepsLock | multihal/2.X/HalProxy.cpp:197-198 | A counter of stopped threads that a reset leaves at one, with the lock held. |
| Wakelock.HeldIffCounted | multihal/2.X/HalProxy.cpp:641-668 | Over every run with timeouts, over-large and stale decrements and stopped threads the lock is held exactly while the count is positive, given positive increments. |
| Wakelock.TimeoutMeansIdle | multihal/2.X/HalProxy.cpp:593-603 | Over every run with running threads and a clock that does not run backwards, a timeout strikes only when every increment lies further back than the limit. |
| Wakelock.EmptyIncrementLeaks | multihal/2.X/HalProxy.cpp:615-617 | A run in which a locked post without wake-up events acquires the lock for nobody. |
| TokenRuns.BalanceKeptIff | multihal/2.X/ScopedWakelock.cpp:30-54 | Creating, moving, destroying and resetting keep the count equal to the number of live locked tokens created after the last reset, if and only if no such token is overwritten by a move assignment. |
| TokenRuns.OverwriteLosesShare | multihal/2.X/ScopedWakelock.cpp:32-41 | A state in which move assignment onto a locked token leaves the count above the number of tokens. |
| TokenRuns.StaleDestroyIsNoOp | multihal/2.X/HalProxy.cpp:662-663 | Destroying a token older than the last reset changes nothing in the counter. |
| TokenRuns.StepKeepsInv | multihal/2.X/ScopedWakelock.cpp:30-48 | No two live locked tokens stem from the same acquisition. |
| TokenRuns.HoldersAfter | multihal/2.X/ScopedWakelock.cpp:30-54 | After any step: which tokens hold a share, and what the count is. |
| TokenRuns.OneTokenRun | multihal/2.X/ScopedWakelock.cpp:30-54 | A run that creates a locked token, moves it, destroys the empty source and then the target takes count and lock to one and back. |
| TokenRuns.CountIsHolders | multihal/2.X/ScopedWakelock.cpp:30-54 | Over every run from the start of token steps and timeout resets with a strictly increasing clock, in which no holder is overwritten, the count is the number of live locked tokens created after the last reset, each from its own acquisition. |
| EventChannel.CommitAppends | multihal/2.X/HalProxy.cpp:618-638 | A post adds a prefix of its events to the end of the line of events and rejects the rest; nothing overtakes what is pending. |
| EventChannel.CommitDecides | multihal/2.X/HalProxy.cpp:618-638 | In every reachable state: how many events of a post go straight to the event queue, that the rest is rejected if and only if more than 100000 events would then be pending, and that otherwise it waits behind what is pending with the number of wake-up events of the post. |
| EventChannel.WriteKeepsLine | multihal/2.X/HalProxy.cpp:542-545 | A successful background write moves its chunk from the pending queue to the event queue without reordering. |
| EventChannel.DropCutsLine | multihal/2.X/HalProxy.cpp:546-554 | A failed background write cuts exactly its chunk out of the line. |
| EventChannel.FinishKeepsLine | multihal/2.X/HalProxy.cpp:555-563 | The accounting after the mutex was retaken removes exactly the chunk that was handled, from the queue and from its size. |
| EventChannel.StepKeepsInv | multihal/2.X/HalProxy.cpp:531-639 | Every step of posters, writer and framework keeps the order of the line, the accounting and the shape of the pending queue. |
| EventChannel.NoRunIsExcluded | multihal/2.X/HalProxy.cpp:531-639 | In every reachable state each step that the program and the mutex allow continues the run, so the statements about runs leave none out. |
| EventChannel.DeliveredInPostOrder | multihal/2.X/HalProxy.cpp:531-639 | Over every interleaving the delivered events are a subsequence of the posted ones in post order, each at most once. |
| EventChannel.DeliveredWereHandedIn | multihal/2.X/HalProxy.cpp:531-639 | Over every interleaving each delivered event has handle and payload of a reading that was handed in, in the order in which they were, and none twice. |
| EventChannel.CountWakeupIsCardinality | multihal/2.X/HalProxy.cpp:690-699 | The number of wake-up events is the number of places in the batch that hold one. |
| EventChannel.EveryEventHasOneFate | multihal/2.X/HalProxy.cpp:531-639 | Over every interleaving each posted event is in exactly one place: delivered, in the event queue, waiting, dropped by a failed write, or rejected by a full pending queue. |
| EventChannel.AtRestAllIsDelivered | multihal/2.X/HalProxy.cpp:531-639 | When no write failed and no post was rejected, an event path at rest has delivered exactly what was posted, in the same order. |
| EventChannel.PendingIsBounded | multihal/2.X/HalProxy.cpp:556-562 | In every reachable state the recorded size is the number of pending events, at most 100000, no entry is empty, and the subtraction after a write does not wrap. |
| EventChannel.DrainsInRounds | multihal/2.X/HalProxy.cpp:536-563 | Without new posts the pending queue is empty exactly after as many rounds as the sum of the entries' lengths over the quantum count, each rounded up. |
| EventChannel.ChunksIsCeiling | multihal/2.X/HalProxy.cpp:541 | The number of chunks of a pending vector is its length over the quantum count, rounded up. |
| EventChannel.WriterIsNeverStuck | multihal/2.X/HalProxy.cpp:536-563 | While something is pending and no poster holds the mutex the writer has a step to take. |
| EventChannel.LineCanArrive | multihal/2.X/HalProxy.cpp:531-564 | From every state of the invariant with a free mutex there is a continuation without posts and without a drop after which everything on the line has reached the framework in its order. |
| EventChannel.HandedInCanArrive | multihal/2.X/HalProxy.cpp:531-639 | After any run without a loss, exactly the readings that were handed in can still reach the framework, in their order. |
| MultiHal.BeginMove | multihal/2.X/HalProxy.cpp:614-617 | A post that starts raises count and debt alike when it is locked exactly when it carries wake-up events, and never makes the count exceed the debt. |
| MultiHal.CommitChannel | multihal/2.X/HalProxy.cpp:618-638 | Writing and queueing a post moves its wake-up events from "under way" to the line or to the rejected ones without changing the debt. |
| MultiHal.QuietMove | multihal/2.X/HalProxy.cpp:536-638 | Committing, reading, taking, successful writing and the accounting change neither the count nor the debt. |
| MultiHal.DestroyMove | multihal/2.X/HalProxy.cpp:662-664 | Destroying a token lowers count and debt by its share, and by nothing when it is older than the last reset. |
| MultiHal.LockedAfter | multihal/2.X/ScopedWakelock.cpp:30-54 | After any move: which tokens are locked. |
| MultiHal.TimeoutMove | multihal/2.X/HalProxy.cpp:605-609 | A timeout empties the count, and what is owed afterwards is not negative. |
| MultiHal.FailMove | multihal/2.X/HalProxy.cpp:546-554 | A failed write keeps count and debt equal if and only if the entry does not fit the event queue at once, or its recorded number is that of its wake-up events, or the count was just what is dropped; otherwise the count falls short. |
| MultiHal.CountIsOwed | multihal/2.X/include/HalProxy.h:235-236 | On runs in which a post is locked exactly when it carries wake-up events, acknowledgements follow reads and no timeout strikes, every live locked token holds a share and the count is exactly the live locked tokens plus the wake-up events under way, pending, unacknowledged or rejected, unless a failed write dropped the tail of a split post. |
| MultiHal.CountNeverExceedsOwed | multihal/2.X/HalProxy.cpp:531-668 | Over every run in which acknowledgements follow reads, with timeouts, failed writes and wrongly locked posts, the count never exceeds the tokens created since the last reset plus the wake-up events under way, pending, unacknowledged or rejected. |
| MultiHal.NoRunIsExcluded | multihal/2.X/HalProxy.cpp:531-668 | In every reachable state each move that the program and its locks allow is defined, so the statements about runs leave none out. |
| MultiHal.HeldIffOwed | multihal/2.X/HalProxy.cpp:611-668 | On such runs the wake lock is held if and only if a token is locked, a wake-up event is pending, in the event queue or delivered but not acknowledged, a post with wake-up events is under way, or wake-up events were rejected. |
| MultiHal.RejectedIsNeverReleased | multihal/2.X/HalProxy.cpp:631-638 | Without a timeout the wake-up events of a rejected post are never paid back and the lock stays held; a timeout releases it. |
| MultiHal.RejectedPostLeaks | multihal/2.X/HalProxy.cpp:631-638 | A run whose post of 100001 wake-up events is rejected and that leaves the lock held with nothing pending, queued, delivered or locked. |
| MultiHal.SplitTailReleasesEarly | multihal/2.X/HalProxy.cpp:547-553 | A run in which the failed write of the tail of a split post releases the lock while two wake-up events are still in the event queue. |
| HalProxy.Proxy.constructor | multihal/2.X/include/HalProxy.h:198-240 | A new proxy starts where the runs of the event path and of the counter start, so in a reachable state. |
| HalProxy.Proxy.IncrementRefCountAndMaybeAcquireWakelock | multihal/2.X/HalProxy.cpp:641-654 | The object takes the specified increment and hands its time back, or refuses while the threads are stopped; nothing but count, lock and start time changes. |
| HalProxy.Proxy.DecrementRefCountAndMaybeReleaseWakelock | multihal/2.X/HalProxy.cpp:656-668 | The object takes the specified decrement with its staleness test; nothing but count and lock changes. |
| HalProxy.Proxy.ResetSharedWakelock | multihal/2.X/HalProxy.cpp:605-609 | The object takes the specified reset, after which older tokens are stale. |
| HalProxy.Proxy.SharedWakelockDidTimeout | multihal/2.X/HalProxy.cpp:593-603 | Tells whether the time since the last increment exceeds the limit, and otherwise how much is left, which is never negative. |
| HalProxy.Proxy.BeginWakelockRound | multihal/2.X/HalProxy.cpp:572-580 | The part of a round before the wait resets exactly when the limit has passed since the last increment, and otherwise leaves the count alone and says how long to wait. |
| HalProxy.Proxy.EndWakelockRound | multihal/2.X/HalProxy.cpp:581-587 | The part after the wait lowers the count there is by then, by an acknowledgement that arrived. |
| HalProxy.Proxy.CountNumWakeupEvents | multihal/2.X/HalProxy.cpp:690-699 | Counts the wake-up events among the first n. |
| HalProxy.Proxy.PostEventsToMessageQueue | multihal/2.X/HalProxy.cpp:611-639 | A post, when nobody comes in between, is the begin step followed by the commit step of the event path, and raises the count by the number that comes with it exactly when the token is locked. |
| HalProxy.Proxy.BeginPost | multihal/2.X/HalProxy.cpp:613-617 | Taking the mutex for a post is the begin step, and a locked token raises the count by the number of wake-up events that comes with the batch. |
| HalProxy.Proxy.CommitPost | multihal/2.X/HalProxy.cpp:618-639 | From whatever reachable state the others left: the first k events of the post join the event queue, where k is what fits into the free slots seen when nothing is pending and the write succeeds, and zero otherwise; the rest is lost if and only if more than 100000 events would then be pending, and otherwise waits behind what is pending; the largest number observed is kept up. |
| HalProxy.Proxy.FrameworkReads | multihal/2.X/include/HalProxy.h:142-144 | The framework gets the n oldest events of the event queue, which keeps the others, and the object stays in a reachable state. |
| HalProxyCallback.PostEvents | multihal/2.X/HalProxyCallback.cpp:41-57 | An empty batch, and any batch while the threads are stopped, has no effect; any other joins the log of posted events in order, each event with the number of its framework handle and its payload, and raises the count by the wake-up events in it. |
| HalProxyCallback.SameWakeupCount | multihal/2.X/HalProxyCallback.cpp:74-77 | The number that the callback counts through the sensor map is the number of wake-up events the event path finds in the batch. |
| HalProxy.Proxy.TakePendingWrite | multihal/2.X/HalProxy.cpp:538-542 | The part before the mutex is let go changes nothing but the thread's own position: the number recorded with the front entry, and as many of its events as the event queue holds. |
| HalProxy.Proxy.WritePending | multihal/2.X/HalProxy.cpp:543-554 | The part without the mutex either appends the chunk to the event queue or drops it, and only in the second case lowers the count, by the specified number. |
| HalProxy.Proxy.LowerAfterFailure | multihal/2.X/HalProxy.cpp:547-553 | A failed write lowers the count by the wake-up events of the chunk when the entry does not fit at once, and otherwise by the number recorded with the entry. |
| HalProxy.Proxy.FinishPendingWrite | multihal/2.X/HalProxy.cpp:555-563 | The part after the mutex was taken back removes the handled chunk from the queue and its size, and keeps the recorded number with what is left. |
| HalProxy.ScopedWakelock.constructor | multihal/2.X/ScopedWakelock.cpp:43-48 | A token is locked only if its increment took effect, and remembers its time. |
| HalProxy.ScopedWakelock.Assign | multihal/2.X/ScopedWakelock.cpp:32-41 | Moving hands the lock over and leaves the source unlocked, so a lock has at most one owner; moving a token onto itself unlocks it. |
| HalProxy.ScopedWakelock.Move | multihal/2.X/ScopedWakelock.cpp:30 | Move construction takes over the lock and leaves the source unlocked. |
| HalProxy.ScopedWakelock.Destroy | multihal/2.X/ScopedWakelock.cpp:50-54 | A locked token gives back its one share with its own time; an unlocked one changes nothing. |
| HandleCoding.ClearRoundTrip | multihal/2.X/HalProxy.cpp:701-703 | Clearing the index gives the local handle back. |
| HandleCoding.SetOnAnyHandle | multihal/2.X/HalProxy.cpp:56-58 | On any handle the lower three bytes stay, and the lowest byte of the index is added to the bits of the first. |
| HandleCoding.ExtractRoundTripIff | multihal/2.X/HalProxy.cpp:56-67 | The sub-HAL index comes back from a signed handle if and only if it is below 128, or so large that it is a sign extension. |
| HandleCoding.SetIsInjectiveIff | multihal/2.X/HalProxy.cpp:56-58 | Two handles made of clear ones are equal if and only if the local handles are and the indices agree in their lowest byte, so up to 256 sub-HALs never collide. |
| HandleCoding.LargeIndexIsLost | multihal/2.X/HalProxy.cpp:67 | With 200 sub-HALs there is a handle that decodes to an index that does not exist. |
| SensorDirectory.EnrollFaithful | multihal/2.X/HalProxy.cpp:454-472 | Every listed sensor stems from an offer with a clear handle, every such offer is listed, and the sub-HAL with direct channels is the first that offered any. |
| SensorDirectory.ListedIff | multihal/2.X/HalProxy.cpp:454-472 | The list holds exactly the handles made of a clear offered handle and the index of its sub-HAL. |
| SensorDirectory.LastOfferStands | multihal/2.X/HalProxy.cpp:454-472 | When several offers get the same handle, the entry is that of the last. |
| SensorDirectory.ListedAsOffered | multihal/2.X/HalProxy.cpp:454-472 | An offer that no later one replaces is listed with its name and wake-up flag, under its framework handle, and with direct channels if and only if it has them and its sub-HAL is the first that offered any. |
| SensorDirectory.OffersOfOne | multihal/2.X/HalProxy.cpp:454-461 | One sub-HAL offers what it lists, in that order. |
| SensorDirectory.OffersInTurn | multihal/2.X/HalProxy.cpp:454-461 | Sub-HALs are asked one after the other. |
| SensorDirectory.HandlesDecode | multihal/2.X/HalProxy.cpp:454-472 | Every listed handle decodes to the sub-HAL and the local handle behind it, for any lawful coding. |
| SensorDirectory.HandlesAreUnique | multihal/2.X/HalProxy.cpp:462-464 | Two usable offers get the same handle exactly when they name the same sub-HAL and local handle. |
| SensorDirectory.OneDirectSubHal | multihal/2.X/HalProxy.cpp:670-680 | A listed sensor carries direct-channel flags exactly when it offered them and belongs to the first sub-HAL that offered any. |
| SensorDirectory.Directory.constructor | multihal/2.X/HalProxy.cpp:492 | A new directory holds the merged list of its sub-HALs. |
| SensorDirectory.Directory.SetDirectChannelFlags | multihal/2.X/HalProxy.cpp:670-680 | Chooses the first sub-HAL with a direct-channel sensor and strips the flags of all others. |
| SensorDirectory.Directory.InitializeSensorList | multihal/2.X/HalProxy.cpp:454-472 | The nested loops, with their changing choice of the direct-channel sub-HAL, build exactly the merged list of all offers. |
| SensorDirectory.ProcessEvents | multihal/2.X/HalProxyCallback.cpp:64-80 | Every event is handed on once, in order and with its payload, under its framework handle, meta handles included, with the number of events of wake-up sensors; a handle that no sensor has wakes nobody and is in the map from then on with an empty description. |
| SensorDirectory.EventDecodes | multihal/2.X/HalProxyCallback.cpp:67-73 | From the handle of a posted event, and from that of the sensor a meta event tells of, the sub-HAL and its own handle come back; the rest of the event is unchanged. |
| SensorDirectory.EventOfOfferedSensor | multihal/2.X/HalProxyCallback.cpp:67-73 | An event of an offered sensor carries a listed handle, and the entry there stems from an offer of the same sub-HAL and handle. |
| SensorDirectory.CountWakesIsCardinality | multihal/2.X/HalProxyCallback.cpp:74-77 | The number of wake-up events is the number of places in the batch with an event of a listed wake-up sensor. |
| ProxyHandles.ProxyHandlesDecode | multihal/2.X/HalProxy.cpp:454-472 | With at most 128 sub-HALs every 32-bit framework handle decodes to the sub-HAL and local handle that produced it. |
| ProxyHandles.ProxyEventsDecode | multihal/2.X/HalProxyCallback.cpp:67-69 | Of up to 128 sub-HALs, the one that posted an event and its own 32-bit handle can be read off the event's handle. |
| SingleHal.HeldIffOutstanding | 2.X/Sensors.h:249-282 | When the system calls succeed the lock is held after every update exactly while events are outstanding. |
| SingleHal.CountIsBalanceIff | 2.X/Sensors.h:251-256 | For any number of events written and any 32-bit number acknowledged, the new count is the balance, or zero when that is negative, if and only if the balance is a signed 32-bit number. |
| SingleHal.UpdateLeavesBalanceIff | 2.X/Sensors.h:249-282 | What an update leaves, whether or not the system calls succeed: the release time, nothing after a late call of a held lock, otherwise the true balance cut off at zero if and only if it is a signed 32-bit number, and when the lock is held. |
| SingleHal.HeldIffBalance | 2.X/Sensors.h:249-282 | With a balance in range and successful calls an update that is not late leaves the balance, with the lock held if and only if it is positive; a late update of a held lock leaves neither. |
| SingleHal.HeldWhileUnacknowledged | 2.X/Sensors.h:231-282 | Over every run without a late call the count is the number of unacknowledged events, and the lock is held exactly while there are any. |
| SingleHal.UnacknowledgedIsDifference | 2.X/Sensors.h:251-256 | Where acknowledgements never run ahead of writes, that number is the difference of the totals. |
| SingleHal.ReleasedAfterTimeoutIff | 2.X/Sensors.h:265-281 | A tick after the release time releases the lock if and only if it was held before or the tick leaves nothing outstanding. |
| SingleHal.OverflowReleases | 2.X/Sensors.h:251-256 | A run whose second write overflows the count and releases the lock while 2^31 events are outstanding. |
| SingleHal.HugeAcknowledgementAcquires | 2.X/Sensors.h:239-251 | A run without any write in which an acknowledgement of 2^32 - 1 in a late tick acquires the lock. |
| SingleHal.NeverHeldForeverIff | 2.X/Sensors.h:231-282 | Over every run a tick later than the timeout after the last write of wake-up events leaves the lock released if and only if it was held until then or the number acknowledged is at most 2^31. |
| SingleHal.Sensors.UpdateWakeLock | 2.X/Sensors.h:249-282 | The object takes the specified update, computed in unsigned arithmetic and read as a signed number; `SingleHal.UpdateLeavesBalanceIff` says what that update leaves, and what is proved of runs holds of it. |
| SingleHal.Sensors.PostEvents | 2.X/Sensors.h:191-202 | Events are written all or none, and only written wake-up events are counted. |
| SingleHal.Sensors.ReadWakeLockFmq | 2.X/Sensors.h:231-243 | However many reads the loop makes, each counts once, timed-out reads as zero. |
| SamplingLoop.StepKeepsInv | multihal/Sensor.cpp:61-125 | Batch, activate and loop steps keep samples at least the period in force apart and the period within the sensor's delays. |
| SamplingLoop.SamplesAreSpaced | multihal/Sensor.cpp:103-125 | Over every run consecutive samples are at least the period in force apart, also across disabling and enabling, and at least the minimum delay once a batch call preceded the first activation. |
| SamplingLoop.WaitIsBoundedIff | multihal/Sensor.cpp:114-122 | The wait is positive exactly when there is a period to wait for or the next sample is not due, never negative, and never longer than the longer of the periods read in the round. |
| SamplingLoop.WaitEndsInSample | multihal/Sensor.cpp:116-122 | When the wait of a round has passed and the period stayed, the next round takes a sample. |
| SamplingLoop.ClampIsNearest | multihal/Sensor.cpp:61-70 | No period within the delays is nearer to the one asked for than the one that is taken. |
| SamplingLoop.Sensor.SetPeriod | multihal/Sensor.cpp:61-70 | The method is the batch step: a period below the minimum delay becomes the minimum, one above the maximum the maximum, and one in between is taken as it is. |
| SamplingLoop.Sensor.SetEnabled | multihal/Sensor.cpp:72-79 | The sensor is enabled as asked; the period and the time of the last sample stay, so switching off and on does not bring samples closer together. |
| SamplingLoop.Sensor.RunOnce | multihal/Sensor.cpp:111-122 | A sample with the present time is added exactly when the period in force has passed since the last one, and the wait ends when the next one is due. |

## Left out

- RateChain.Hz: rates are exact real numbers; the rounding of the 32-bit float division is not modelled.
- Alignment.EventsProject: the conversion to physical units uses exact real numbers, without float rounding.
- PipelineRuns.DeliveredInTimeOrder: assumes a clock that does not run backwards and is positive, and that no allocation fails.
- TokenRuns.CountIsHolders: assumes that the clock rises strictly between a reset and a creation; the source reads the system clock, which can be set back.
- MultiHal.CountIsOwed: the exact sum is for runs without a timeout; after a timeout the count is zero whatever is owed, and `MultiHal.CountNeverExceedsOwed` is what holds.
- MultiHal.MoveKeeps: tokens change hands by move construction only; move assignment onto a live token is in `TokenRuns`.
- MultiHal.DestroyMove: the poster's own token stays alive until a destroy step, which may come at any time.
- HalProxy.Proxy.CountNumWakeupEvents: the look-up of an unknown handle, which adds an empty description to the sensor map, is modelled in `SensorDirectory.ProcessEvents` only; an empty description wakes nobody.
- HalProxy.Proxy.CommitPost: the free slots seen and the success of the write are parameters.
- HalProxyCallback.PostEvents: the event path carries a payload as one number; the handle a meta event tells of is tagged in `SensorDirectory.ProcessEvents` and not followed into the event queue.
- PipelineRuns.LineCanBeDelivered: when more waits than the shared list holds, the hand-over drops the oldest; `PipelineRuns.LineStep` says what is left then.
- HalProxy.Proxy.EndWakelockRound: whether an acknowledgement arrived, and which, is a parameter.
- SensorControl.Control.ApBatch: an on-change sensor would divide by a period of zero; none is exposed, and the model requires that.
- SimpleList.BoschSimpleList.MountRear: splicing a list onto itself and sums of lengths beyond 32 bits are excluded, as the source does not handle them.
- Wrap-around of the 64-bit reference count and of 64-bit times.
- The 32-bit bit counter, which nothing in the modelled code calls.
- Re-initialisation: stopping the threads, replacing the queues and disabling all sensors, and late posts racing with it.
- Message queues, event flags, Binder, HIDL and AIDL transport, loading of sub-HALs, service start-up.
- Payload conversion, status mapping, axis remapping, operation modes and direct report configuration.
- sysfs reading, pipes, logging, trace files, signals and debug output.
- The flush path and dynamic sensor connection.
- Static sensor descriptions other than handles, modes and delays.
