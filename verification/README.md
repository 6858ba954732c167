# Verified model of a camera capture library

This project models the parts of the library whose promises are hardest to keep, and proves them with Dafny 4.11.
`dafny verify dfyconfig.toml` checks everything.

## What is modelled

**The frame hub** (`src/frame.rs`). `HubState` is a transition system in which one step is one lock-protected section:
of the pool lock, of the watch value with the subscriber list and queues inside it, or of a reader that clones or drops
a frame. Every interleaving of `reserve`, writing, commit, charge, `Lease::drop`, `configure`, `start`, `stop`,
subscribe, `next`, recovery flags and the two halves of `record_conversion_error` and `record_input_drop` is a run.
Reference counts are derived from the holders (slots, leases, the latest frame, queues, readers). `HubOwnership`,
`HubEpochs`, `HubDelivery` and `HubMetrics` each keep one invariant; `HubRuns` states what holds over whole runs.
`DeliveryPolicies` says which frames a queue holds after any publications. `HubRecovery` adds the waiter of the recovery
loop and the wake channel beside the hub.
`FrameHubs` has the hub, its subscriber list and its subscribers as classes that are updated in place, each method
proved to do what the sections of the transition system do. The reference counters and the fresh identities that the
allocator hands out are inputs; `CountsExact` says that the counters are right.

- `start` holds the pool lock from its first section to its last, `stop` does not. The read of the recovery flags in
  `start` and its replacement of the state are two sections, so that a flag change in between can be lost, as in the
  source.
- The scan for a unique slot in `reserve` is not atomic with frame drops, so a step may lend any unique slot; the class
  lends the first.
- A publication reads each subscriber's stop flag when it comes to that subscriber, so a commit carries the flags that
  were raised too late for some of them. `with_stop_flag` is two steps.
- `configure`, `stop`, `clear_queues` and the recovery flags may step at any time, which allows more runs than callers
  can make.
- A fresh allocation has exactly the capacity asked for. With that, the branch of `reserve` for an over-sized
  allocation is modelled and proved dead (`HubOwnership.ReuseFits`).
- An error or a dropped input checked in one epoch can be charged to the next, because `record_conversion_error` and
  `record_input_drop` let go of the state before they take the pool: `HubRuns.StaleErrorExample` is such a run, and
  `HubRuns.PendingChargedToOwnEpochIff` says exactly when it happens. Reservations and publications are never charged
  to another epoch.

**Pixel conversion** (`src/conversion.rs`, `src/utils/color_convert.rs`). `Reference` says what every output pixel
should be; `Converter.RgbConverter.ConvertLayoutInto` is the converter with all its paths, writing into an array in
place, and meets that reference on every raw layout, size and target. `Kernels.Row` describes a source row by the step
and shift of its luma and chroma bytes, so that the planar, semiplanar and packed kernels, full and half size, are one
kernel each call site instantiates with its own index formulas; the vector group loops, the two-row kernels with shared
chroma, the scalar tails, the full-range BT.601 kernel and the packed 4:2:2 vector kernel are separate code. The target
decides which run (`vector`, `lanes`). `Pixels` relates one pixel to machine arithmetic and to the exact matrix.

**Session lifecycle and recovery** (`src/api.rs`). `Lifecycle` is a transition system whose steps are the segments
between awaits of the start future and session handle, the spawned start task, the stop tasks, the recovery loop, a
device operation and the camera. `request_stop` is one step, and claims of finality are made at that granularity.
Timeouts, cancellation and the outcome of every source operation are nondeterministic.

- The start task does not test `closed` when it gets the lifecycle lock. If a stop task of the same session gets it
  first, the start task comes late: it cleans up a session that is already closed, turns Failed into Stopped and
  releases the camera a second time, possibly under a newer session. `LifecycleRuns.LateStartExample` is such a run.
  What depends on it has its exact condition:
  - every session is released exactly when it closes and never again, if and only if no start task comes late
    (`LifecycleRuns.ReleasedOnceIff`);
  - `busy` holds exactly while a session is open, there is never a second one and a closed device has none, if and only
    if no start task comes late while another session is open (`LifecycleRuns.AtMostOneSessionIff`); up to such a step
    the device is released, and a source started, only as promised;
  - Stopped is final in every run, and Failed stays if and only if the start task of that session does not come late
    (`LifecycleRuns.TerminalIsFinalIff`).
- No source is ever started for a stopping or closed session, late start tasks or not.
- `LifecycleStages` says what the state of a session tells about it in every run, and in which state it closes.
- Every session is released. A stop that `request_stop` spawned is in a task of its own and cannot be cancelled, only
  the stop inside a dropped `close` future can. `LifecycleEnds` proves that a session whose owner is gone is stopping;
  that a stopping session is closed and released or somebody who cannot be cancelled still has to close it; that it takes
  boundedly many more segments; and that one of them is always enabled. Awaited operations are taken to return, and
  the runtime to outlive the tasks spawned on it.

**Small cores.** Layout validation and overlapping chroma views (`Format`), frame rates (`FrameRates`), the
phase-preserving limiter (`Limiter`), backend and device identities and their persisted form (`Identity`).

## Model

| member | source | states |
|---|---|---|
| HubRuns.RunInv | src/frame.rs:777-883 | every reachable state keeps ownership, numbering, delivery and metrics invariants, in every interleaving |
| HubRuns.RetainedBytesNeverChange | src/frame.rs:53-95 | while a frame is alive anywhere its bytes do not change |
| HubRuns.ReaderSeesWhatWasCommitted | src/frame.rs:918-947 | every live frame goes back to one commit, was alive ever since, and has the bytes of that lease at the commit |
| HubRuns.WritersNeverShare | src/frame.rs:806-827 | a writable lease is the only holder of its storage, and no live frame has it |
| HubRuns.MemoryIsBounded | src/frame.rs:797-882 | slots within budget.buffers, all live storage within budget.bytes, every lease has a valid slot of its own, no slot is empty of bytes |
| HubRuns.KeysStrictlyIncrease | src/frame.rs:918-947 | published keys strictly increase, and each session's sequences are 1, 2, ..., n |
| HubRuns.DeadEpochsStayDead | src/frame.rs:934-937 | a stopped or superseded session never publishes again |
| HubRuns.EveryOfferIsAccounted | src/frame.rs:948-991 | a receiver is offered a gapless stretch of the log; offered = returned + dropped + discarded + queued; queues stay within their bound and in order |
| HubRuns.NothingIsMissed | src/frame.rs:595-621 | a receiver that is alive with its stop flag down has been offered the frame that was the latest when it subscribed, and after it exactly the frames published since |
| HubRuns.AcceptedFramesAreSpaced | src/frame.rs:961-970 | with a rate limit, frames that pass it are captured at least as many intervals apart as there are steps between them |
| HubRuns.NoLostWakeUp | src/frame.rs:1165-1190 | a receiver asleep on the current version has nothing queued, its stream can go on, and its stop flag was not yet up when the watch value last changed |
| HubRuns.NextDelivers | src/frame.rs:1165-1190 | next returns the first queued frame whose key differs from the cursor and whose session is the hub's, and keeps the rest; it sleeps only when every queued frame has the cursor's key or another session; keys are returned in order |
| HubRuns.SeedIsNotReturned | src/frame.rs:623-631 | wait_after never returns the frame it was told to wait after, in any run |
| HubRuns.ConfigureHolds | src/frame.rs:360-386 | from an accepted configure to the next one, slots and all live storage stay within its budget; a refused one changes neither bound |
| HubRuns.StopAndStartEndTheSession | src/frame.rs:387-459 | from a stop or start on, the session before it publishes nothing more |
| HubRuns.EpochMetrics | src/frame.rs:482-548 | per epoch published + pool drops <= received, consecutive <= max <= errors, counters equal the charge log, recovery is asked for exactly after 8 errors in a row |
| HubRuns.ChargedToOwnEpoch | src/frame.rs:996-1018 | publications and reservations are counted, once, in the metrics of their own epoch only |
| HubRuns.PendingChargedToOwnEpochIff | src/frame.rs:524-593 | a checked error or dropped input is counted once, and in the session it was checked in exactly when no start is under way or begins in between |
| HubRuns.StaleErrorExample | src/frame.rs:524-548 | a run in which an error of session 1 is counted in session 2 |
| HubOwnership.PoolStep | src/frame.rs:777-883 | every section keeps each storage with exactly one slot or lease and the pool within budget |
| HubOwnership.FramesStep | src/frame.rs:918-947 | every section keeps live frames frozen and with storages of their own |
| HubOwnership.UniqueIffUnheld | src/frame.rs:53-95 | a slot's storage has one reference exactly when no live frame holds it |
| HubOwnership.WriterIsAlone | src/frame.rs:53-95 | a writable lease has the only reference to its storage |
| HubOwnership.GrantedIff | src/frame.rs:797-882 | a reservation gets a lease exactly when the budget allows it, in a slot that nobody else holds or in a new one |
| HubOwnership.ReuseFits | src/frame.rs:867-875 | reused storage always fits the budget, so the over-sized branch is dead |
| HubOwnership.ReuseAllocatesNothing | src/frame.rs:841-866 | a slot with storage of the kind and length asked for is lent without an allocation |
| HubOwnership.ConfigureFreesUnheld | src/frame.rs:372-373 | configure frees exactly the storages that no live frame holds |
| HubRuns.LateFinishIsSilent | src/frame.rs:933-1000 | a finish_publish of a dead epoch, however it interleaves, changes no reader's view and no counter, and is never charged |
| HubEpochs.SessionCounts | src/frame.rs:387-411 | a session's keys are (session, 1), (session, 2), ... |
| HubDelivery.DeliveryStep | src/frame.rs:948-991 | every section keeps bounds, accounts, order, contiguity, spacing and wakefulness of every subscriber |
| HubDelivery.PopSplits | src/frame.rs:1179-1185 | the pop loop splits the queue into discarded keys, the returned frame and the rest |
| DeliveryPolicies.QueueFollowsPolicy | src/frame.rs:948-991 | after any publications without a next the queue is what it held and what passed the rate limit, cut to the newest, the oldest or the last one by policy; every other frame was counted as dropped |
| DeliveryPolicies.FullQueueLoses | src/frame.rs:971-989 | so an empty queue ends with the last min(capacity, n) frames for DropOldest, the first for DropNewest, and the last one for Latest |
| HubMetrics.TriggerIffBurst | src/frame.rs:482-495 | while active, recovery is asked for over damaged frames exactly when the last 8 charges are errors |
| HubMetrics.TriggerIs | src/frame.rs:482-501 | recovery is asked for by an inactive source first, then eight errors as the last charges, then a stall |
| HubMetrics.ReceivedStep | src/frame.rs:797-834 | published + pool drops + leases still to be charged never exceed received |
| FrameHubs.FrameHub.Reserve | src/frame.rs:777-883 | error for an impossible layout, nothing for a dead epoch, otherwise the pool section on the first unique slot |
| FrameHubs.FrameLengthIs | src/frame.rs:760-775 | a frame is three bytes a pixel long, or ends with the largest plane end that does not overflow, up to 128 MiB |
| FrameHubs.FrameHub.Lend | src/frame.rs:828-882 | budget test, reuse or allocation, and the lease of the chosen slot |
| FrameHubs.FrameHub.Commit | src/frame.rs:933-995 | publishes exactly when the lease's epoch is active, and offers the frame to every subscriber |
| FrameHubs.FrameHub.ChargeCommit | src/frame.rs:996-1001 | counts a publication only while its epoch lasts |
| FrameHubs.FrameHub.FinishPublish | src/frame.rs:918-1020 | commit and charge together are a run; true exactly for the active epoch, otherwise nothing a reader sees changes |
| FrameHubs.FrameHub.Publish | src/frame.rs:885-917 | succeeds exactly when the epoch is active, the length is legal, the budget grants a lease and the conversion succeeds, and then makes one new frame, numbered next, with exactly the converted bytes; any other outcome is invisible; the lease always returns; the whole call is a run |
| FrameHubs.FrameHub.DropLease | src/frame.rs:1124-1128 | the storage goes back to its slot |
| FrameHubs.FrameHub.Configure | src/frame.rs:360-386 | refused while streaming or leased, or when what is retained does not fit; success sets both budgets, refusal leaves both; frees exactly the unheld storages, in order |
| FrameHubs.FrameHub.Shrink | src/frame.rs:372-373 | the retain loop keeps exactly the slots whose storage is out or shared |
| FrameHubs.FrameHub.RecordError | src/frame.rs:524-549 | without interference, an error is counted exactly for the active session; wakes recovery on the eighth in a row |
| FrameHubs.FrameHub.Start | src/frame.rs:387-411 | a new active epoch with zero metrics, no latest frame and nothing queued anywhere, recovery flags kept; the sections of start are a run to there |
| FrameHubs.FrameHub.Stop | src/frame.rs:450-459 | afterwards the epoch is not active, there is no latest frame and nothing is queued; the sections of stop are a run to there |
| FrameHubs.FrameHub.Subscribe | src/frame.rs:595-622 | a queue as long as the pool is refused; otherwise one new subscriber that starts at the latest frame |
| FrameHubs.FrameHub.Next | src/frame.rs:1165-1190 | the critical section of next: the end of the stream exactly when it is stopped or over, a frame of the session that is not the cursor's, or sleep |
| FrameHubs.Subscriber.Receive | src/frame.rs:948-991 | one round of the publication loop for one subscriber, which stays exactly while its receiver exists and is not stopped; a stopped one is emptied |
| FrameHubs.Subscriber.Accept | src/frame.rs:971-989 | queue and drop count for each policy: the frame alone, the queue with it while there is room, without its oldest, or unchanged |
| FrameHubs.Subscriber.TakeNext | src/frame.rs:1179-1185 | the pop loop returns the first frame with a key other than the cursor's and of the session; without one every queued frame has the cursor's key or another session |
| FrameHubs.SubscriberList.OfferAll | src/frame.rs:948-991 | every listed subscriber gets the offer, and exactly the ones to be dropped leave the list |
| FrameHubs.SubscriberList.ClearAll | src/frame.rs:424-433 | every live subscriber's queue is emptied, dead ones leave the list |
| HubState.StartIsARun | src/frame.rs:387-411 | start without interference is its four sections |
| HubState.StopIsARun | src/frame.rs:450-459 | stop without interference is its two sections |
| HubRecovery.NoSleptThroughTrigger | src/frame.rs:502-549 | a sleeping recovery waiter for which there is a trigger has a wake-up that it has not looked at, or one is about to come |
| Pixels.PixelIsClose | src/utils/color_convert.rs:60-109 | for all bytes and all eight tables every channel is within 0.75 of the exact matrix of the colour, with its own black level |
| Pixels.Bt601IsClose | src/utils/color_convert.rs:36 | full-range BT.601 is within 0.6 of the matrix of section 2.5.1 of Recommendation ITU-R BT.601-7 |
| Pixels.PackedIsClose | src/utils/color_convert.rs:2464-2470 | the 8-bit pixel is within 1.25 of that matrix |
| Pixels.BlackAndWhite | src/utils/color_convert.rs:60-109 | nominal black and white of every matrix and range come out as (0, 0, 0) and (255, 255, 255) |
| Pixels.TablesAreRounded | src/utils/color_convert.rs:60-93 | every table entry is its exact coefficient times 1024, rounded, and the offset is the black level of the range |
| Pixels.MachineArithmeticIsExact | src/utils/color_convert.rs:1352-1398 | the lanes of the vector kernels, with 32-bit wrapping sums and 16-bit truncating narrowing, compute the scalar pixel for every table |
| Pixels.MachineLaneIsExact | src/utils/color_convert.rs:1839-1934 | the same for both shift widths |
| Pixels.PreparedIsPixel | src/utils/color_convert.rs:2879-2889 | preparing the chroma once does not change the pixel |
| Pixels.EightBitIsPacked | src/utils/color_convert.rs:2464-2470 | the <8, 0, 255> instantiation equals the scalar 8-bit pixel on all byte triples |
| PackedKernels.PackedScalar | src/utils/color_convert.rs:1206-1273 | converts as many pairs as fit and leaves the rest of the buffer |
| PackedKernels.PackedBatched | src/utils/color_convert.rs:2491-2565 | the batched form does the same, for all lengths |
| PackedKernels.PackedEightBit | src/utils/color_convert.rs:2450-2472 | the vector form does the same, for all lengths |
| PackedKernels.PackedFormsAgree | src/utils/color_convert.rs:2491-2565 | the three forms leave the same bytes |
| PackedKernels.PackedVector | src/utils/color_convert.rs:1949-2020 | one packed row, whole groups and tail, is the row pair by pair |
| PackedKernels.FourByteRow | src/utils/color_convert.rs:2755-2780 | one packed 8888 row, shuffled groups and tail, is the row pixel by pixel |
| Kernels.VectorGroups | src/utils/color_convert.rs:2141-2181 | the vector groups write exactly the pixels before the returned column |
| Kernels.ScalarTail | src/utils/color_convert.rs:323-335 | the scalar tail completes the row and touches nothing else |
| Kernels.ConvertTwoRows | src/utils/color_convert.rs:2216-2277 | two rows sharing prepared chroma are each the row converted by itself |
| Kernels.Bt601Row | src/utils/color_convert.rs:2870-2898 | the specialised kernel gives the row pixel by pixel |
| Kernels.GroupIsRow | src/utils/color_convert.rs:2160-2163 | the shuffled lanes of a group are the pixels of the row |
| Kernels.ConvertPaired | src/utils/color_convert.rs:184-268 | row pairs and an odd last row make the image row by row |
| Kernels.DoneDetermines | src/conversion.rs:714-766 | an image fills its buffer in one way only |
| YuvKernels.ValidatePlane | src/utils/color_convert.rs:39-57 | accepts exactly the planes that hold every sample, without overflow |
| YuvKernels.Yuv420ToRgb | src/utils/color_convert.rs:111-338 | succeeds exactly on valid planes and a long enough buffer, and then converts every row |
| YuvKernels.Yuv420spToRgb | src/utils/color_convert.rs:340-599 | the same for NV12 and NV21 |
| YuvKernels.Yuv422ToRgb | src/utils/color_convert.rs:892-986 | the same for packed 4:2:2 |
| YuvKernels.Yuv420ToRgbHalf | src/utils/color_convert.rs:708-786 | half size from contiguous planes |
| YuvKernels.Yuv420spToRgbHalf | src/utils/color_convert.rs:601-706 | half size from NV12 and NV21 |
| YuvKernels.Yuv422ToRgbHalf | src/utils/color_convert.rs:788-890 | half size from packed 4:2:2 |
| YuvKernels.FourByteToRgb | src/utils/color_convert.rs:2715-2783 | packed 8888, for every channel order |
| YuvKernels.HalfPlanarPixel | src/utils/color_convert.rs:742-784 | a half-size planar pixel is the full-size pixel at twice its place |
| YuvKernels.HalfSemiPixel | src/utils/color_convert.rs:639-704 | the same for NV12 and NV21 |
| YuvKernels.HalfPackedPixel | src/utils/color_convert.rs:828-888 | the same for packed 4:2:2 |
| Nearest.NearestMap.Update | src/conversion.rs:176-210 | the cached map equals a fresh computation for the stored dimensions, over any calls |
| Nearest.NearestInRange | src/conversion.rs:197-208 | every map entry is in range |
| Nearest.NearestIsFloor | src/conversion.rs:197-208 | an entry is the place of the destination index in the source, rounded down |
| Nearest.MapsAreMonotone | src/conversion.rs:197-208 | the map is monotone, reversed for bottom-up rows |
| Nearest.GroupRatios | src/conversion.rs:845-876 | at 2:3 and 3:4 the map skips exactly the last pixel of each group |
| Nearest.ResizeRow | src/conversion.rs:845-876 | group copies and mapped copy alike give the mapped row |
| Reference.SampleInData | src/format.rs:536-612 | every sample that a format has lies in the data of a valid layout |
| Reference.FormatBytes | src/conversion.rs:387-493 | which bytes of which plane are the channels of a pixel, for every raw format |
| Reference.PlanarIsRef | src/conversion.rs:427-480 | the planar view of every 4:2:0 layout, at any strides, converts to the reference |
| Reference.SemiIsRef | src/conversion.rs:447-466 | so does the semiplanar view |
| Reference.PackedIsRef | src/conversion.rs:480-490 | so does packed 4:2:2 |
| Reference.FourByteIsRef | src/conversion.rs:400-426 | so do the packed 8888 orders |
| Reference.RgbIsRef | src/conversion.rs:392-399 | rows of tightly packed RGB are the reference rows |
| Conversion.FullSize | src/conversion.rs:387-493 | the same-size branch, when it takes a layout, gives the wanted image |
| Conversion.HalfSize | src/conversion.rs:336-386 | so does the exact-half branch |
| Scaling.ConvertYuvRows | src/conversion.rs:768-843 | one row, or an even row and the next, converted into scratch are the reference rows |
| Scaling.ScaleYuvNearest | src/conversion.rs:714-766 | the row-paired converter writes every output row from its mapped source row, at the nearest maps of any two sizes |
| Converter.ScaleMapped | src/conversion.rs:569-712 | so do the pixel-by-pixel converters |
| Converter.YuvSource | src/conversion.rs:669-707 | the index formulas of the scalar converter give the reference pixel |
| Converter.RgbSource | src/conversion.rs:589-646 | so do those of the packed formats |
| Converter.RgbConverter.ConvertLayoutInto | src/conversion.rs:239-520 | succeeds exactly when the layout validates, the length is three bytes a pixel, the format is raw and colour is known where needed; then the wanted image is written with the coefficients of the override, or else of the layout; otherwise nothing |
| Converter.EveryPixelIsNearest | src/conversion.rs:197-208 | on success output pixel (column, row) is the nearest source pixel |
| Converter.PathsAgree | src/conversion.rs:656-766 | any two paths that can serve a request leave the same bytes |
| Format.Validate | src/format.rs:536-612 | the checked arithmetic accepts exactly the layouts that fit |
| Format.TightIsValidIff | src/format.rs:536-612 | an image without padding is accepted exactly when it has pixels, whole pairs in 4:2:2, a legal rotation, and its planes in the data |
| Format.TightHasNothingToSpare | src/format.rs:536-612 | no plane of it can lose a byte, in all or in a row |
| Format.SamplesInside | src/format.rs:536-612 | every sample byte of an accepted plane is inside it |
| Format.InterleavedIffOverlapping | src/format.rs:426-466 | chroma views are taken as interleaved exactly when one covers the other and the visible chroma |
| Format.InterleavedSamples | src/format.rs:426-466 | sampling the interleaved plane gives the bytes of the original views, in bounds |
| LifecycleRuns.AtMostOneSessionIff | src/api.rs:1207-1338 | at every moment busy holds exactly while a session is open, there is never a second and a closed device has none, if and only if no start task cleans up a closed session while another is open |
| LifecycleRuns.DeviceReleaseIsAlone | src/api.rs:1022-1030 | up to such a step the device is released only when no session is open |
| LifecycleRuns.TerminalIsFinalIff | src/api.rs:1738-1803 | Stopped never changes, and Failed changes exactly when the start task of the session comes late |
| LifecycleStages.ClosingStateIs | src/api.rs:1778-1803 | the step that closes a session leaves it Stopped exactly when the source stopped or the start failed, and Failed exactly when the source failed to stop or the permitted attempts were used up |
| LifecycleStages.StateTellsTheStage | src/api.rs:1738-1803 | while a session is open its state says whether it starts, streams, is in its n-th attempt to recover, gives up, or stops |
| LifecycleStages.StartTriesAll | src/api.rs:1248-1292 | a start that nobody stopped gives up only after every candidate was tried |
| LifecycleStages.HandleMeansWorked | src/api.rs:1248-1338 | a handle is returned only for a session of which a candidate worked |
| LifecycleStages.ClosedDeviceStaysClosed | src/api.rs:1022-1030 | a closed device stays closed, and no session begins on it |
| LifecycleRuns.SourceNeverStartsAfterStop | src/api.rs:1248-1284 | in every run, no source is started for a session that is stopping or closed |
| LifecycleRuns.SourceStartsAlone | src/api.rs:1248-1284 | a source is started for the only open session, on an open device, up to the first late clean-up under an open session |
| LifecycleRuns.ReleasedOnceIff | src/api.rs:1286-1292 | every session is released when it closes and never again exactly when no start task fails on a session already closed |
| LifecycleEnds.GoneMeansReleased | src/api.rs:1744-1803 | whoever owned a session, and however it went, the session is stopping; and it is closed and released, or somebody who cannot be cancelled still has to close it |
| LifecycleEnds.ReleasedExactlyOnceIff | src/api.rs:1286-1292 | a session that is closed, or stopping with nobody left to close it, has been released exactly once if and only if its start task did not come late |
| LifecycleEnds.StopIsBounded | src/api.rs:1744-1803 | a stopping session takes no more segments than its rank, and two for each further call of close |
| LifecycleEnds.StopIsFinished | src/api.rs:1744-1803 | after that many it is closed and released |
| LifecycleEnds.StopNeverStuck | src/api.rs:1744-1803 | while it is open one of these segments can be taken, without any cancellation |
| LifecycleRuns.LateStartExample | src/api.rs:1245-1294 | a run in which a late start task releases the camera under a streaming session and turns Failed into Stopped |
| LifecycleRuns.SegmentKeeps | src/api.rs:1738-1803 | every segment of every task, a late one included, keeps the lock and the flags of a session |
| RecoveryRuns.AttemptsAreNumbered | src/api.rs:1908-1909 | attempts are numbered 1, 2, 3, ... since the last success and never exceed the permitted number, and giving up follows exactly the permitted failures |
| RecoveryRuns.FailureEndsIff | src/api.rs:1963-1984 | a failure ends the session exactly when it is the last one permitted in a row, and each failure brings the end nearer |
| RecoveryRuns.AttemptBeginsIff | src/api.rs:1884-1910 | an attempt begins exactly when nobody stops the session and there is a trigger or the attempt before it failed |
| RecoveryRuns.AttemptGoesOn | src/api.rs:1914-1962 | an attempt is left for good once the session is stopping, fails with its operation, and succeeds exactly when the source has started |
| RecoveryRuns.RetryDelayGrows | src/api.rs:2028-2036 | the delay starts at 100 milliseconds, doubles twice, is then the policy's, never shrinks and never exceeds the policy's |
| Limiter.FrameRateLimiter.Accept | src/utils/frame_rate.rs:10-32 | the in-place limiter takes the specified step, and is off without interval or timestamp |
| Limiter.NextIsDue | src/utils/frame_rate.rs:17-30 | after an accept at t the next is due between t and t + I + I/20 |
| Limiter.RejectedIsEarly | src/utils/frame_rate.rs:19-21 | a frame is rejected only when less than an interval passed since the last accepted one |
| Limiter.SlowStreamsPass | src/utils/frame_rate.rs:10-32 | streams with gaps of at least the interval lose nothing |
| Limiter.PhaseIsKept | src/utils/frame_rate.rs:22-27 | without a clock reset the k-th accept after the first is at least k intervals less a tolerance later |
| FrameRates.New | src/format.rs:31-48 | a constructed rate is in lowest terms with the value of its input; zero is refused |
| FrameRates.EqualIffSame | src/format.rs:71-76 | constructed rates compare equal exactly when their fields are equal |
| FrameRates.CompareIsTransitive | src/format.rs:71-76 | cross-multiplied comparison is transitive |
| FrameRates.CompareIsTotal | src/format.rs:71-76 | and antisymmetric and reflexive |
| FrameRates.CompareIsByValue | src/format.rs:71-76 | it is the order of the rates as real numbers |
| FrameRates.Compare | src/format.rs:71-76 | the products never exceed 64 bits |
| Identity.BackendRoundTrip | src/contract.rs:31-86 | from_str reads exactly the texts of constructible backends, as themselves |
| Identity.RoundTrip | src/contract.rs:281-325 | every device identity is read back from its persisted form |
| Identity.PrintIsInjective | src/contract.rs:281-289 | distinct identities print differently |
| Identity.ReadsBack | src/contract.rs:292-325 | what is read is a constructible identity and prints as the text read, up to the case of its digits |
| Identity.AcceptsExactlyPrinted | src/contract.rs:292-325 | exactly the printed identities are accepted, in either digit case |
| Identity.Utf8IffEncoded | src/contract.rs:321-322 | the test for UTF-8 accepts exactly the encodings of sequences of Unicode scalar values |
| Identity.IsDeviceIff | src/contract.rs:260-268 | a native part is UTF-8 of one to 4096 bytes without a zero |
| Identity.PrintExample | src/contract.rs:281-289 | a concrete identity and its persisted form |

## Left out

- JPEG and H264 decoding: the converter is modelled as in a build without JPEG decoding, where both formats are refused.
- HubState.ReserveAt: does not model allocators that return more capacity than asked for; allocation is exact.
- HubRuns.MemoryIsBounded: does not count the storage that a reservation replaces, which the source frees when `reserve` returns, just after the pool lock; the model frees it in the pool section.
- HubOwnership.UniqueIffUnheld: weak references to storages, which `Storage::unique` detaches, are never made by the library and are not modelled.
- HubRuns.AcceptedFramesAreSpaced: capture times and the interval are integers; the interval of a rate is a positive constant.
- HubRuns.NextDelivers: `wait_after` and `wait_first_in` are modelled by a step that seeds a fresh receiver's cursor, without their timeouts.
- HubRuns.EpochMetrics: conversion times, quantiles, the recent-frame window, stall timing and error-report throttling are not modelled.
- FrameHubs.FrameHub.Publish: the conversion closure is an input, the bytes it writes or its error; time stamps and source sequences of frames are not modelled.
- FrameHubs.FrameHub.RecordError: stated without interference; the interleaved form is two steps of the transition system.
- Pixels.Coefficients: the eight tables are integers; the floating-point computation that gives them is not modelled, but each entry is proved to be the rounded exact value.
- Kernels.VectorGroups: vector registers are groups of lanes with per-lane arithmetic; the NEON path for contiguous luma with strided chroma counts as scalar, and NEON group sizes are taken to be those of AVX2.
- Converter.RgbConverter.ConvertLayoutInto: `selected_conversion_path`, which only names the path, is not modelled.
- Lifecycle.Act: one segment is atomic, `request_stop` included; tearing between its stores on other threads is not modelled. Backends are operations that may fail, and what they do to the hub is not modelled.
- RecoveryRuns.FailureEndsIff: how the first recovered frame is validated against the request is a nondeterministic outcome.
- Ranking of capture configurations and validation of requests: only easy members, and a floating-point rate distance.
- Memory budget validation, event and error text, controls, device watching and native backends: only easy members or foreign code.
