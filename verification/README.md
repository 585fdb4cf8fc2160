# Verified model of the mfx50 realtime transcoder core

This project models the stateful heart of the mfx50 transcoder and proves what every run of it
keeps. The device (oneVPL) is an oracle: every decode, encode and sync call may answer anything at
any time; only a successful decode carries a surface. Everything below is proved for all such
answers.

**The route pipeline** (`RouteModel`, `RouteLedger`, `RouteOrder`, `RouteOutputs`, `RouteCalls`,
`RouteResources`, `RoutePool`, `RoutePreprocess`, `RouteStale`, `RouteReuse`, `RoutePipeline`). A
route owns a few slots that move FREE, DECODING, DECODED, ENCODING, FREE, five order counters and a
pool of encode-control slots. `RouteModel` gives the effect of each step for each device answer as
functions on a state with a history; `RoutePipeline.Route` performs the same steps on mutable
fields; a ghost log shows that every reachable route is a run of the model, so the theorems about
runs hold of it, and a ghost list of the questions asked of the device shows that the answers in the
log are the device's own. The device may also fail to unmap a surface: at the end of the control
decision, of the scene analysis, of preprocessing and of static reuse. The main results:

- Order holds in *every* run, not only in those without errors: the frames handed to the encoder are
  a prefix of the frames the decoder gave, and the encoder accepts them in order (`OrderTheorem`).
  The packets of completed encodes are exactly the non-empty bitstreams of the accepted frames, in
  order, numbered 0, 1, 2, ..., each with its frame's user pointer, and with its frame's time stamp
  when the bitstream carries none (`PacketTheorem`).
- What went in is what the calls said, counted from the calls and the device's answers alone: the
  frames of a route are those the decoder gave, each with the time stamp and user pointer of its
  call, and the input left is what was appended less what was consumed (`CallsTheorem`); the
  bitstreams are those of the completing syncs and of the drain (`BitsTheorem`); each frame handed
  on has one verdict of the encoder (`VerdictTheorem`); and no frame is ready, and no encode
  complete, before the device said so (`FrameWaits`, `EncodeWaits`).
- The orders in each phase are contiguous intervals of frames (`IntervalTheorem`). Ready orders are
  a different matter: a failed scene analysis uses one up, so they only increase with the frames
  (`ReadyTheorem`), and those of the waiting frames are contiguous if and only if no analysis failed
  between them (`ReadyContiguousIff`).
- A failed sync can take only the first order of its interval, and each kind of sync fails at most
  once in the life of a route, because the counter is not advanced: afterwards that side stands
  still for ever (`DecodeLossIsPermanent`, `EncodeLossIsPermanent`), and with frames behind the lost
  one the pipeline can never be drained (`BlockedForEver`).
- Frames and surfaces are conserved, and closing releases each surface once per hand-out.
- The control pool grows at a step exactly when held slots and slots lost to a failed Unmap fill it,
  and the number of losses that is harmless for every run is determined exactly (`PoolGrowsIff`,
  `PoolBoundIsExact`).
- "Preprocessed exactly once" is false of the code in both directions. The flag survives when an
  output frees the slot, so a frame can go through without an attempt
  (`SecondFrameIsNotPreprocessed`); and when unmapping fails at the end of an attempt and the frame
  holds no control, the retry attempts it again (`FailedFrameIsPreprocessedTwice`).
  `PreprocessTheorem` gives the exact number of attempts for every frame handed on, and when it is
  at most one; `StaleIff` says exactly when the flag of a slot is found set.
- Static reuse in whole runs: the frames are prepared in turn, and a failing Unmap makes a decision
  lose its reuse step (`PreparationTheorem`), in every combination that the device chooses
  (`EveryFateOccurs`). A replaced frame shows a picture at most 11 frames older, plus 12 for every
  refresh missed and 1 for every preparation without a decision in between (`RouteAgeTheorem`); when
  the plain bound of 11 frames within one static run holds in all runs is determined exactly
  (`RouteBoundIff`, below).
- All inner loops terminate, and each pass of the pipeline ends for one of three stated reasons. A
  drain decodes the pending input before it asks the decoder for its last frames; when it returns
  normally every slot is free and every frame accounted for, and it throws only when a step threw or
  after 100000 turns.

`Transcoder` composes all routes with the shared output queue of `OutputDelivery`: whatever the
interleaving of routes and polls, the n-th packet a caller receives for a stream is the n-th packet
of that route's run (`EndToEnd`).

**Around the pipeline.** `AsyncIngress`: producers, drop-oldest queues and stride-sharded workers as
interleaved critical sections; which pushes are accepted, which packet a full queue drops, and the
round of visits of each worker are stated exactly. `ByteFifo`: the growing input buffer as a byte
queue; the window length is 32 bits wide and truncates, so appending loses nothing if and only if it
stays below 2^32 bytes. A route's header probe after a failed one moves the window back over the
bytes the device consumed (`ProbeRouteHeader`). `StaticReuse`: the gate composed with the reference
picture, and `ReuseBounds`: how old the picture of a replaced frame can be. A decision whose step is
missed leaves the reference alone although the gate has counted it, so "at most 11 frames" is false
of the code: with the refresh at count 12 missed a frame shows a picture 21 frames old, and with the
counts 0, 1 and 2 missed one from before a reset. If the decisions that may miss their step are
those with a count in a given set, the bound holds in all runs if and only if decisions are not
cached (reuse interval at most 1), the set has no positive multiple of 12, and not all of 0, 1 and 2
(`BoundHoldsIff`); and no reset lies between a frame and its picture if and only if the set lacks
one of 0, 1 and 2, or, with cached decisions, lacks 0 (`NoResetIff`). With an interval a decision is
either the gate's own or repeats the last one that came with a map (`CacheTheorem`). The bound in
missed refreshes is attained for every number of them (`AgeBoundIsTight`).

**The split decoder** (`DecoderModel`, `DecoderHistory`, `DecoderCalls`, `SplitDecoder`): occupancy
bound, exactly one place for each delivered surface, end of stream for ever; surfaces leave in
decode order in all runs if and only if the asynchronous depth is 1, and with more operations two
pushes and two polls can swap two surfaces (`CallsOvertake`). `DecoderCalls` computes the effect of
each call from the device's answers, and the methods of `SplitDecoder.Decoder` are proved to have
it, with answers that the device gave. `DecoderHistory` counts from the events what was delivered,
with the metadata of the submission that delivered it, and what is left of the input; a polled
surface carries that metadata, and a poll that has work to do asks the device for it. The drive loop
does not end for all answers: a sync warning releases a surface and still counts as success. A drive
takes at most twice the capacity in rounds and one more for every warning (`DriveBound`); from an
idle decoder it can be kept going for any number of rounds if and only if it blocks or has a second
operation (`DriveUnboundedIff`), and a flush after one packet is such a case (`FlushCanGoOn`). While
a ready decoder has input, the end of the stream is not reported (`EndOfInputTheorem`), so a flush
never ends when the device leaves bytes behind (`StuckForEver`); a flush that finds input completes
at once if and only if the decoder never got ready, and then discards it (`FlushDrainsIff`).

**Algorithms.** `QpMap`: the block map of a frame cell by cell, smoothing in place, its bounds, and
that the median of three sequences with bounded steps has bounded steps, so the column pass keeps
the row bound. `Regions`: flood fill and the scan into connected regions. `SummedArea`: integral
tables against the naive sum. `Opening`: the in-place opening. It is not idempotent because the
border is cleared; it is idempotent on a mask exactly when every interior pixel in a set 3x3 square
around an interior centre also lies in a set square whose centre is two pixels away from the border.
`RoiSelection`: the greedy choice of boxes, each taken in turn exactly when it fits and nothing
chosen before blocks it (`TurnTheorem`), its limits and its maximality; `RoiTrim` takes a foreground
mask through regions and trimming to these boxes. `AccessUnits`: the Annex B splitter (byte stream
format of ITU-T H.264 and H.265), with the exact positions at which it lists a unit; the last three
bytes of the data never belong to a listed unit, though the last packet holds them; a packet ends
exactly where the next coded-video unit or delimiter begins a new access unit. `TemporalQp`: IDR
cooldown, the conservative window, and every quantiser of a decision (`DecisionTheorem`).

`Sums` holds weighted sums over sequences, `Arith` facts about products and remainders, and `Basics`
the definitions that all modules share.

## Model

| member | source | states |
|---|---|---|
| RouteOrder.OrderTheorem | mfx50_realtime.cpp:1362-1490 | in every run the frames handed to the encoder are the first frames taken from the decoder, in order, and the encoder accepts them in order |
| RouteOutputs.PacketTheorem | mfx50_realtime.cpp:1032-1059 | in every run packets carry 0, 1, 2, ...; those of completed encodes are exactly the non-empty bitstreams of the accepted frames, in order, with their own user pointer, and with their own time stamp when the bitstream has none |
| RouteOutputs.EmittedStep | mfx50_realtime.cpp:1492-1536 | every step keeps the ledger of emitted packets |
| RouteOutputs.SilentStep | mfx50_realtime.cpp:1375-1490 | only encode syncs and the drain of the encoder emit |
| RouteCalls.CallsTheorem | mfx50_realtime.cpp:1404-1446 | in every run the frames taken are exactly those the decoder gave to the submissions that found a free slot, in order, each with the time stamp and user pointer of its call; the input left is what was appended less what submissions that were not draining consumed |
| RouteCalls.BitsTheorem | mfx50_realtime.cpp:1032-1059 | in every run completed encodes left exactly the bitstreams of the syncs that completed them, and the drain emitted exactly its non-empty bitstreams, with their own time stamp or 0 and no user pointer |
| RouteCalls.VerdictTheorem | mfx50_realtime.cpp:1465-1489 | in every run each frame handed on has one verdict of the encoder, in order; the accepted frames are those whose verdict was acceptance, and as many were absorbed and rejected as it absorbed and rejected |
| RouteCalls.FrameWaits | mfx50_realtime.cpp:1375-1402 | a frame taken with a sync point is not ready in any continuation without a decode sync answered "done" |
| RouteCalls.EncodeWaits | mfx50_realtime.cpp:1492-1536 | a frame accepted with a sync point does not complete in any continuation without an encode sync answered "done" |
| RouteCalls.DecodeLossIff | mfx50_realtime.cpp:1397-1401 | a decode sync loses a frame iff the device answers with a warning or an error for the sync point of the slot in turn, and then throws iff it was an error |
| RouteCalls.EncodeLossIff | mfx50_realtime.cpp:1531-1535 | the same for encode syncs |
| Transcoder.EndToEnd | src/core/mfx50_output_queue.cpp:7-39 | for every interleaving of routes and polls, the n-th packet received for a stream is the n-th packet of its route's run, with number n |
| Transcoder.RoutesRunAlone | mfx50_realtime.cpp:1538-1565 | every route runs as if it were alone |
| Transcoder.StreamsKept | mfx50_realtime.cpp:1032-1059 | received and queued packets of a stream are all packets of its route |
| Transcoder.PollHandsOut | src/core/mfx50_output_queue.cpp:12-39 | a poll hands out the front packet iff there is one and it fits the buffer, and no route notices |
| RouteOrder.IntervalTheorem | mfx50_realtime.cpp:1362-1536 | in every run the frames in DECODING, DECODED and ENCODING are exactly the intervals between the counters, each once; only the first is missing after a failed sync |
| RouteOrder.ReadyTheorem | mfx50_realtime.cpp:1362-1374 | the ready order of a frame is its number plus the scene analyses that failed before it was ready, so ready orders increase with the frames |
| RouteOrder.ReadyContiguousIff | mfx50_realtime.cpp:1368-1373 | the ready orders of the decoded slots are contiguous iff no scene analysis failed between the first and the last of them |
| RouteOrder.DecodeProgressIff | mfx50_realtime.cpp:1375-1402 | a decode sync answered "done", with a scene analysis that succeeds, progresses iff a frame is being decoded and no decode sync ever failed |
| RouteOrder.EncodeProgressIff | mfx50_realtime.cpp:1492-1536 | the same for encode syncs |
| RouteOrder.DecodeLossIsPermanent | mfx50_realtime.cpp:1397-1399 | after a failed decode sync the output counter never advances, every frame in decoding keeps its slot in every continuation, and no frame beyond the counter is handed on |
| RouteOrder.EncodeLossIsPermanent | mfx50_realtime.cpp:1531-1533 | after a failed encode sync no encode completes again and every frame in encoding keeps its slot in every continuation |
| RouteOrder.BlockedForEver | mfx50_realtime.cpp:1617-1635 | with a frame behind a lost one some slot stays occupied in every continuation |
| RouteLedger.OldestIsNext | mfx50_realtime.cpp:1448-1454 | the decoded slot with the least ready order holds exactly the next frame in decode-submit order |
| RouteOrder.WarningEndsTurn | mfx50_realtime.cpp:1397-1401 | after a sync warning the same pass finds no further slot in turn |
| RouteLedger.LedgerStep | mfx50_realtime.cpp:1362-1536 | every step, with any answer, keeps the frame ledger (who holds which frame, in which phase, with which metadata) |
| RouteLedger.LedgerRun | mfx50_realtime.cpp:1362-1536 | every run keeps the frame ledger |
| RouteResources.ConservationTheorem | mfx50_realtime.cpp:1404-1536 | frames taken = slots in DECODING + DECODED + ENCODING + completed encodes + absorbed + rejected + at most two lost syncs |
| RouteResources.SurfaceTheorem | mfx50_realtime.cpp:1325-1346 | in every run each surface was taken as often as it was released or is held, and a slot holds one iff it is DECODING or DECODED |
| RouteResources.CloseReleasesEverySurface | mfx50_realtime.cpp:1665-1668 | after closing, at any point of any run, each surface was released exactly once per hand-out |
| RouteResources.CensusRun | mfx50_realtime.cpp:1404-1536 | the number of slots per phase equals the difference of its counters in every run |
| RouteResources.ProgressLowersWeight | mfx50_realtime.cpp:1538-1565 | 3·DECODING + 2·DECODED + ENCODING strictly falls on every progressing step but decode submit, which uses up a free slot instead |
| RouteResources.ProgressIsWork | mfx50_realtime.cpp:1538-1565 | a step reports progress exactly when one counted piece of work was done |
| RouteResources.DrainedTheorem | mfx50_realtime.cpp:1617-1635 | with every slot free each frame completed its encode, was absorbed, rejected or lost; without a lost sync all were handed on in order and every accepted one completed |
| RoutePool.PoolTheorem | mfx50_realtime.cpp:1026-1027 | used control slots are held by one pipeline slot each or were lost to Unmap; the pool keeps its initial size while losses plus depth fit it |
| RoutePool.PoolGrowsIff | mfx50_realtime.cpp:1061-1090 | an encode submission grows the pool iff a control is acquired and holders plus losses fill the pool |
| RoutePool.PoolCanGrow | mfx50_realtime.cpp:1293-1295 | for every depth there is a run with one loss more than allowed that grows the pool |
| RoutePool.PoolBoundIsExact | mfx50_realtime.cpp:1026-1027 | the pool keeps its size in all runs with at most L failed Unmaps iff L + depth <= AsyncDepth + 4 |
| RoutePool.PoolStep | mfx50_realtime.cpp:1061-1097 | every step keeps the one-to-one correspondence of used control slots and holders |
| RoutePreprocess.PreprocessTheorem | mfx50_realtime.cpp:1457-1464 | in every run preprocessing of a frame handed on is attempted not at all if its slot's flag was set, else once and once more per attempt that failed without a control in hand; so at most once iff none failed so |
| RoutePreprocess.SecondFrameIsNotPreprocessed | mfx50_realtime.cpp:1505-1508 | a run with one slot whose second frame is output without an attempt to preprocess it |
| RoutePreprocess.FailedFrameIsPreprocessedTwice | mfx50_realtime.cpp:799-802 | a run in which unmapping fails at the end of an attempt and the retry attempts the same frame again |
| RoutePreprocess.OnceStep | mfx50_realtime.cpp:1457-1464 | every step keeps the counts of preprocessing attempts of all frames |
| RouteStale.StaleIff | mfx50_realtime.cpp:1414-1420 | a slot's flag is set as a frame is taken iff the previous frame in the slot completed its encode and its preprocessing never failed with a control in hand |
| RouteStale.StaleStep | mfx50_realtime.cpp:1333-1346 | every step keeps that account of all slots |
| RoutePipeline.Route.constructor | mfx50_realtime.cpp:527-535 | a new route is the initial state of the model |
| RoutePipeline.Route.ResetOp | mfx50_realtime.cpp:1333-1346 | a reset frees the slot and gives back its surface and control |
| RoutePipeline.Route.HasActive | mfx50_realtime.cpp:1348-1353 | reports exactly whether some slot is not free |
| RoutePipeline.Route.FindFree | mfx50_realtime.cpp:1355-1360 | the first free slot, if any |
| RoutePipeline.Route.MarkDecodedReady | mfx50_realtime.cpp:1362-1374 | the ready order is taken; a failing scene analysis then leaves the slot in DECODING without a sync point |
| RoutePipeline.Route.TrySyncOneDecode | mfx50_realtime.cpp:1375-1402 | performs exactly one decode-sync step of the model, and reports its progress and exception |
| RoutePipeline.Route.SubmitInto | mfx50_realtime.cpp:1414-1446 | the device is asked once; a frame it gives is recorded with the time stamp and user pointer of the call, and the slot and the input become what its answer says |
| RoutePipeline.Route.TrySubmitOneDecode | mfx50_realtime.cpp:1404-1446 | without a free slot nothing happens; otherwise the device is asked once, and the call progresses, throws or needs more data exactly as it answers; a progressing call adds one frame with its own time stamp and user pointer |
| RoutePipeline.Route.AcquireEncodeControlSlot | mfx50_realtime.cpp:1061-1090 | marks the first unused control slot, or one more slot when none is unused |
| RoutePipeline.Route.PrepareEncodeControl | mfx50_realtime.cpp:1220-1323 | the control is kept, dropped, or lost to a failed Unmap |
| RoutePipeline.Route.ApplyPreprocess | mfx50_realtime.cpp:747-813 | one attempt to preprocess, recorded for the frame unless its flag is set; the flag is set unless unmapping fails |
| RoutePipeline.Route.PrepareSelected | mfx50_realtime.cpp:1457-1464 | control, preprocessing and static reuse in order, stopping at the first failure |
| RoutePipeline.Route.SelectDecoded | mfx50_realtime.cpp:1448-1454 | the decoded slot with the least ready order |
| RoutePipeline.Route.SubmitSelected | mfx50_realtime.cpp:1465-1489 | the model's encode step for the device's answer |
| RoutePipeline.Route.TrySubmitOneEncode | mfx50_realtime.cpp:1448-1490 | performs exactly one encode-submit step |
| RoutePipeline.Route.PushEncoded | mfx50_realtime.cpp:1032-1059 | a non-empty bitstream becomes the route's next packet, with the bitstream's time stamp when it has one; an empty one none |
| RoutePipeline.Route.FinishEncode | mfx50_realtime.cpp:1517-1529 | the bitstream is pushed, the control is released, the slot is free, the counter advances |
| RoutePipeline.Route.TrySyncOneEncode | mfx50_realtime.cpp:1492-1536 | performs exactly one encode-sync step |
| RoutePipeline.Route.TryStep | mfx50_realtime.cpp:1547-1549 | any step other than a decode submission lowers the weight when it progresses |
| RoutePipeline.Route.RepeatStep | mfx50_realtime.cpp:1547-1549 | the while loops terminate; all tries of one kind but the last make progress, the last makes none |
| RoutePipeline.Route.SubmitDecodes | mfx50_realtime.cpp:1551-1555 | terminates with no free slot or after a submission without progress |
| RoutePipeline.Route.ProcessRound | mfx50_realtime.cpp:1545-1555 | one round tries encode syncs, decode syncs, encode submissions and, unless no slot is free, decode submissions; without progress each kind was tried once in vain; it throws iff one of its steps threw |
| RoutePipeline.Route.ProcessRoutePipeline | mfx50_realtime.cpp:1538-1565 | returns because the decoder needs data, after a round in which the last try of each kind was in vain, or after 256 rounds of progress; progress is reported iff work was done |
| RoutePipeline.Route.WaitForOnePipelineOp | mfx50_realtime.cpp:1611-1615 | tries encode sync, decode sync, encode submission, stopping at the first that works |
| RoutePipeline.Route.DrainTurn | mfx50_realtime.cpp:1621-1628 | the decoder is drained only once its input is done, which takes an empty input or a decoder that asks for more; it counts as done only after it ran dry while draining |
| RoutePipeline.Route.DrainPipeline | mfx50_realtime.cpp:1617-1635 | every draining submission finds the input used up, or comes after one that was not draining and asked for more; returns normally only after the decoder ran dry while draining and with every slot free and every frame accounted for, never with frames behind a lost one; throws only if a step threw or after 100000 turns |
| RoutePipeline.Route.DrainEncoder | mfx50_realtime.cpp:1637-1663 | of the answers of the encoder the packets before the first that ends the drain are emitted, in order, and nothing else; it throws iff that one is not the end, and runs once |
| RoutePipeline.Route.CloseRoute | mfx50_realtime.cpp:1665-1668 | all slots are reset and every surface was released once per hand-out |
| AsyncIngress.IngressTheorem | mfx50_realtime.cpp:1808-1970 | under every interleaving the processed packets, the one in hand and the queue are the accepted packets not dropped, in acceptance order; the queue never exceeds its limit |
| AsyncIngress.PacketsConserved | mfx50_realtime.cpp:1808-1970 | accepted = processed + in hand + queued + dropped |
| AsyncIngress.IdleMeansProcessed | mfx50_realtime.cpp:1924-1929 | "queue empty and not processing" implies that every accepted packet was processed or dropped |
| AsyncIngress.RejectingNeverDrops | mfx50_realtime.cpp:1938-1950 | without the drop-oldest policy nothing accepted is dropped |
| AsyncIngress.VisitedRoutes | mfx50_realtime.cpp:1853-1860 | a worker visits exactly the routes of its residue class, so each route has one owner |
| AsyncIngress.QueueLimit | mfx50_realtime.cpp:1681-1685 | the queue limit is positive for every configuration |
| AsyncIngress.LimitPrecedence | mfx50_realtime.cpp:1681-1685 | the input limit if positive, else the general limit if positive, else 128 |
| AsyncIngress.WorkerCount | mfx50_realtime.cpp:1892-1901 | at least one worker and never more than routes |
| AsyncIngress.WorkersWanted | mfx50_realtime.cpp:1892-1901 | the configured number of workers, else up to 8 by the hardware, else 4, unless there are fewer routes |
| AsyncIngress.AcceptanceTheorem | mfx50_realtime.cpp:1931-1970 | in every run the accepted payloads of a route are those of the pushes that found room, or found the queue full under the drop-oldest policy, in order; all other pushes were refused |
| AsyncIngress.NothingRefused | mfx50_realtime.cpp:1938-1942 | with the drop-oldest policy every push is accepted |
| AsyncIngress.DropsWhenFull | mfx50_realtime.cpp:1938-1942 | a packet is dropped only by a push that finds the queue full under that policy, and it is the oldest |
| AsyncIngress.VisitProcesses | mfx50_realtime.cpp:1808-1851 | three critical sections of a worker that finds a packet process the oldest packet of the route, whatever the pipeline answers, and move on |
| AsyncIngress.EmptyVisit | mfx50_realtime.cpp:1821-1826 | without a packet and without pipeline work the worker moves on and changes nothing |
| AsyncIngress.PollingVisit | mfx50_realtime.cpp:1821-1850 | with pipeline work left the route is marked busy, polled and released |
| AsyncIngress.Strides | mfx50_realtime.cpp:1856-1860 | the visits of a worker go up in strides of the worker count |
| AsyncIngress.RoundTrip | mfx50_realtime.cpp:1854-1860 | and start over behind its last route |
| AsyncIngress.EnqueueKeeps | mfx50_realtime.cpp:1936-1953 | enqueueing with either policy keeps the queue the tail of the surviving packets |
| AsyncIngress.WorkKeeps | mfx50_realtime.cpp:1808-1851 | every critical section of a worker keeps the invariant of every route |
| AsyncIngress.KeptRun | mfx50_realtime.cpp:1808-1970 | every interleaving keeps it |
| AsyncIngress.SurvivorsDrop | mfx50_realtime.cpp:1939-1941 | dropping one survivor removes exactly that one and keeps the order |
| AsyncIngress.AsyncRoute.EnqueueAsyncPacket | mfx50_realtime.cpp:1931-1970 | a push that finds room is appended; with the queue full the oldest packet makes way under the drop-oldest policy, and otherwise the push is refused without effect |
| AsyncIngress.AsyncRoute.TakePacket | mfx50_realtime.cpp:1808-1819 | the oldest packet leaves with the payload it was accepted with, and the route is marked busy |
| AsyncIngress.AsyncRoute.IsIdle | mfx50_realtime.cpp:1924-1929 | the condition a flush waits for |
| ByteFifo.InputBuffer.Compact | mfx50_realtime.cpp:488-497 | the overlapping move leaves the window's bytes unchanged |
| ByteFifo.InputBuffer.AppendGrowing | mfx50_realtime.cpp:499-509 | exactly the new bytes are added at the end; nothing is lost iff the length stays below 2^32 |
| ByteFifo.InputBuffer.EnsureCapacity | mfx50_codec_api.cpp:391-406 | the doubling loop terminates with enough room and the same window |
| ByteFifo.InputBuffer.AppendDoubling | mfx50_codec_api.cpp:408-417 | as AppendGrowing, for the doubling buffer |
| ByteFifo.InputBuffer.CopyIn | mfx50_codec_api.cpp:411-415 | the copied bytes follow the window; the stored length is truncated to 32 bits |
| ByteFifo.InputBuffer.Consume | mfx50_realtime.cpp:1422-1425 | bytes taken by the decoder leave at the front |
| ByteFifo.InputBuffer.ProbeHeader | mfx50_codec_api.cpp:434-441 | header probing consumes nothing |
| ByteFifo.InputBuffer.ProbeRouteHeader | mfx50_realtime.cpp:902-911 | a probe that does not fail puts a window at the start of the array back; behind consumed bytes it moves the window to the start, and changes it unless the bytes repeat; a failing probe leaves what the device consumed |
| OutputDelivery.OutputQueue.Push | src/core/mfx50_output_queue.cpp:7-10 | the packet is appended |
| OutputDelivery.OutputQueue.Poll | src/core/mfx50_output_queue.cpp:12-39 | the front leaves iff it fits; a too-small poll reports its size and changes nothing |
| OutputDelivery.OutputQueue.DrainAll | src/core/mfx50_output_queue.cpp:41-46 | everything leaves in order |
| OutputDelivery.Delivery.PushEncoded | mfx50_realtime.cpp:1032-1059 | a non-empty bitstream becomes one packet with its data, metadata and its route's next number; an empty one none |
| OutputDelivery.Delivery.PollPacket | src/core/mfx50_output_queue.cpp:12-39 | a poll hands out the front packet iff there is one and it fits the buffer, and then it leaves the queue; otherwise nothing changes |
| OutputDelivery.Delivery.ReceivedInOrder | mfx50_realtime.cpp:1032-1059 | the packets received for a stream carry dts 0, 1, 2, ... without gap, loss or duplicate, and with the queued ones they are all |
| StaticReuse.CopyOut | mfx50_realtime.cpp:649-672 | the reference holds exactly the visible rows |
| StaticReuse.CopyBack | mfx50_realtime.cpp:674-691 | the reference becomes visible and every byte outside the visible window is unchanged |
| StaticReuse.Surface.Read | mfx50_realtime.cpp:649-672 | both planes of the visible picture |
| StaticReuse.Surface.Write | mfx50_realtime.cpp:674-691 | both planes are replaced inside the window only |
| StaticReuse.ReuseRoute.MakeDecision | src/api/mfx50rt_api.cpp:688-716 | the decision, fresh from the gate or cached, and what it leaves in gate and cache |
| StaticReuse.ReuseRoute.Apply | mfx50_realtime.cpp:693-745 | the surface shows the reference, or becomes it, or invalidates it |
| StaticReuse.ReuseRoute.PrepareFrame | mfx50_realtime.cpp:1457-1464 | one preparation with its fate: lost and skipped decisions count but leave the reference alone |
| ReuseBounds.OriginTheorem | mfx50_realtime.cpp:693-745 | at any interval a replaced frame shows an earlier frame of the same shape, and every reuse step in between showed that picture too |
| ReuseBounds.FromEarlierHolds | mfx50_realtime.cpp:697-740 | the reference is the picture of an earlier frame, and every reuse step since has shown it |
| ReuseBounds.AgeTheorem | mfx50_realtime.cpp:693-745 | with one decision per preparation the age is at most 11, plus 12 per missed refresh and 1 per preparation without a decision; without missed refreshes all is one static run |
| ReuseBounds.AgeBoundHolds | src/algo/hybridtsrq/static_reuse_gate.cpp:65-72 | the age of the reference is at most the count modulo 12, plus 12 per missed refresh and 1 per preparation without a decision |
| ReuseBounds.AgeBoundIsTight | mfx50_realtime.cpp:693-745 | for every number of missed refreshes a run attains the bound |
| ReuseBounds.CountIsRun | src/algo/hybridtsrq/static_reuse_gate.cpp:65-70 | the gate's count is the length of the current static run |
| ReuseBounds.CacheTheorem | src/api/mfx50rt_api.cpp:692-716 | at any interval a fresh decision is the gate's for the static run of fresh decisions, and any other repeats the last fresh one that came with a map; fresh are the first, every one that many decisions later, and those before a fresh one had a map |
| ReuseBounds.ReplacedIff | src/algo/hybridtsrq/static_reuse_gate.cpp:65-72 | a reuse step replaces a frame iff its static run has length at least 3 and not a multiple of 12, its surface is usable and the reference has its shape |
| ReuseBounds.BoundHoldsIff | mfx50_realtime.cpp:1457-1464 | age at most 11 within one static run, in all runs, iff decisions are not cached, no refresh may be missed, and not all of the counts 0, 1, 2 |
| ReuseBounds.NoResetIff | mfx50_realtime.cpp:1457-1464 | no reset between a replaced frame and its picture, in all runs, iff not all of the counts 0, 1, 2 may be missed, or with cached decisions iff 0 may not |
| ReuseBounds.RecentHolds | mfx50_realtime.cpp:693-745 | the bound in each run that cannot miss a refresh or a reset |
| ReuseBounds.SameRun | mfx50_realtime.cpp:698-701 | a run that cannot miss a reset keeps a frame and its picture in one static run |
| ReuseBounds.RefreshMissed | mfx50_realtime.cpp:801-801 | a missed refresh makes a picture at least 21 frames old |
| ReuseBounds.ResetMissed | mfx50_realtime.cpp:801-801 | a run in which a missed reset lets a picture from before it through |
| ReuseBounds.CachedIsOld | src/api/mfx50rt_api.cpp:692-716 | with cached decisions a picture gets older than 11 frames although nothing is missed |
| ReuseBounds.CachedReset | src/api/mfx50rt_api.cpp:692-716 | with cached decisions one missed reset lets a picture from before it through |
| ReuseBounds.StillScene | src/api/mfx50rt_api.cpp:692-716 | the exact state in any interval of a still scene with cached decisions |
| RouteReuse.PreparationTheorem | mfx50_realtime.cpp:1454-1464 | in every run frames are prepared in turn, each at most once with a control kept; skipped steps are those of frames whose preprocessing failed with a control, lost decisions are the leaked controls |
| RouteReuse.RouteAgeTheorem | mfx50_realtime.cpp:1454-1464 | in every run a replaced frame shows a picture at most 11 frames older, plus 12 per missed refresh and 1 per preparation without a decision, and misses are bounded by the failed Unmaps |
| RouteReuse.EveryFateOccurs | mfx50_realtime.cpp:1457-1464 | every sequence of applied, skipped, lost and missing decisions is that of some run |
| RouteReuse.RouteBoundIff | mfx50_realtime.cpp:1457-1464 | in all runs of the route the picture is at most 11 frames old within one static run, iff decisions are not cached, no refresh may be missed, and not all of the counts 0, 1, 2 |
| RouteReuse.TrackedStep | mfx50_realtime.cpp:1444-1491 | every step keeps track of which frame was prepared last and whether it keeps a control |
| DecoderModel.OccupancyTheorem | mfx50_codec_api.cpp:644-683 | queued surfaces + active operations <= max_output_surfaces + async_depth - 1 in every reachable state |
| DecoderModel.OnePlaceTheorem | mfx50_codec_api.cpp:522-642 | each delivered surface is in exactly one place: active, queued, handed out or released |
| DecoderModel.FinishedForever | mfx50_codec_api.cpp:1113-1117 | once the end of stream holds it holds for ever and nothing more is delivered |
| DecoderModel.FinishedAccounts | mfx50_codec_api.cpp:1113-1117 | at the end each delivered surface was handed out or released, once |
| DecoderModel.EndOfInputTheorem | mfx50_codec_api.cpp:685-701 | in every run, while a ready decoder has input the drain is not complete and polling does not report the end of the stream |
| DecoderModel.OrderKeptIffSingleOp | mfx50_codec_api.cpp:547-579 | surfaces are handed out in decode order in all runs iff async_depth is 1 |
| DecoderModel.OvertakingSwaps | mfx50_codec_api.cpp:547-579 | a run with two operations that hands out the second surface first |
| DecoderModel.OrderlyRun | mfx50_codec_api.cpp:547-642 | with one operation, handed out, queued and active surfaces are in decode order |
| DecoderHistory.DeliveryTheorem | mfx50_codec_api.cpp:581-642 | in every run each surface in flight and each queued one is the one delivered under its number, with the time stamps and user pointer of the submission that delivered it; one in flight waits for the device iff it was delivered with a sync point |
| DecoderHistory.InputTheorem | mfx50_codec_api.cpp:611-671 | in every run the input left is what was appended less what was consumed, and the drain is complete iff a draining submission ran dry or a flush found a decoder that never got ready |
| DecoderHistory.OperationLeaves | mfx50_codec_api.cpp:552-576 | an operation in flight changes only when it is asked about and is not in execution any more, or has no sync point; a finished one is queued with its metadata, any other is released |
| DecoderCalls.DriveBound | mfx50_codec_api.cpp:644-683 | a drive that is still going has done at most twice the capacity in rounds and one more per warning |
| DecoderCalls.DriveUnboundedIff | mfx50_codec_api.cpp:568-576 | from an idle decoder with room, drives of every length exist iff the drive blocks or there is a second operation |
| DecoderCalls.FlushCanGoOn | mfx50_codec_api.cpp:1152-1161 | after one packet a flush can be kept busy for any number of rounds |
| DecoderCalls.CallsOvertake | mfx50_codec_api.cpp:1031-1150 | with at least two operations, two pushes and two polls hand out the second surface first |
| DecoderCalls.RoundProgress | mfx50_codec_api.cpp:651-682 | a round after which the loop goes on raises the measure by one, less one for a warning |
| DecoderCalls.PassProgress | mfx50_codec_api.cpp:547-579 | a pass that queues something raises the measure, less one when it ends early |
| DecoderCalls.WholePass | mfx50_codec_api.cpp:547-579 | a pass that meets no warning and no error queues the surfaces of exactly the finished operations, in order, and leaves the others alone; it progresses iff there is one |
| DecoderCalls.TroubledPass | mfx50_codec_api.cpp:568-576 | a pass ends at the first operation with a warning or an error, as a success or a failure, and releases its surface |
| DecoderCalls.RoundGoesIff | mfx50_codec_api.cpp:651-682 | the loop goes on iff the pass did not fail, the queue has room, and the submission leaves work or the pass finished something |
| DecoderCalls.RefillKeeps | mfx50_codec_api.cpp:1090-1112 | before a poll looks at the queue, queued surfaces keep their places and nothing is handed out |
| DecoderCalls.FinishedRefill | mfx50_codec_api.cpp:1090-1117 | at the end of the stream a poll changes nothing |
| DecoderCalls.FlushDrainsIff | mfx50_codec_api.cpp:1152-1161 | with input pending a flush completes the drain, whatever the device answers, iff the decoder never got ready |
| DecoderCalls.FlushFinishes | mfx50_codec_api.cpp:685-701 | without input and with nothing in flight, a flush whose draining submission runs dry ends the stream |
| DecoderCalls.StuckForEver | mfx50_codec_api.cpp:685-701 | a packet, a flush and any number of polls, with a device that leaves bytes behind, never reach the end of the stream |
| SplitDecoder.Decoder.constructor | mfx50_codec_api.cpp:1009-1026 | the configuration is normalised and the decoder starts empty |
| SplitDecoder.Decoder.QueueSurface | mfx50_codec_api.cpp:522-545 | the surface moves to the end of the output queue with its metadata |
| SplitDecoder.Decoder.SyncOne | mfx50_codec_api.cpp:552-576 | an operation with a sync point is asked about, and queued, left alone, or released after a warning or an error |
| SplitDecoder.Decoder.SyncDecoderOps | mfx50_codec_api.cpp:547-579 | the pass the device's answers determine; it ends early at a warning, which counts as success, or at an error |
| SplitDecoder.Decoder.SubmitOne | mfx50_codec_api.cpp:581-642 | nothing without an idle operation; else the device is asked once, and its answer is entered with the arguments of the call |
| SplitDecoder.Decoder.Settle | mfx50_codec_api.cpp:611-640 | the model's effect of the device's answer |
| SplitDecoder.Decoder.DriveRound | mfx50_codec_api.cpp:651-682 | one round of the loop, and whether it goes on |
| SplitDecoder.Decoder.DriveDecoder | mfx50_codec_api.cpp:644-683 | the rounds the device's answers determine, up to the first that ends the loop; with an idle operation and room in the queue the device is asked for a frame; all submissions carry the arguments of the call; it fails iff the device failed; for any finite number of warnings it ends, within the bound |
| SplitDecoder.Decoder.AdvanceFlush | mfx50_codec_api.cpp:685-701 | pending input first, then draining without time stamps; nothing after the drain; without a device decoder the drain is complete |
| SplitDecoder.Decoder.PushPacket | mfx50_codec_api.cpp:1031-1085 | rejected without effect after flush, drain or for bad packets; an accepted packet is appended and drives the decoder, every submission with its own time stamps; the device is asked to start at most once |
| SplitDecoder.Decoder.DrivePending | mfx50_codec_api.cpp:1096-1111 | a drive on input or flush, then a pass |
| SplitDecoder.Decoder.RefillQueue | mfx50_codec_api.cpp:1087-1112 | exactly the passes and drives before a poll looks at the queue |
| SplitDecoder.Decoder.TakeFront | mfx50_codec_api.cpp:1119-1149 | the front is handed out, or released when no wrapper can be made |
| SplitDecoder.Decoder.PollSurface | mfx50_codec_api.cpp:1087-1150 | hands out the front surface with the metadata of the submission that delivered it; EOS iff nothing is queued or active after the drain, and then a ready decoder has no input left; with something in flight it asks about that first, and "again" with input or a flush pending and an operation idle means that the device was asked for a frame |
| SplitDecoder.Decoder.Flush | mfx50_codec_api.cpp:1152-1161 | starts the flush and advances it, blocking: pending input with the last time stamps, else draining without; nothing after the drain |
| QpMap.SmoothedIsBounded | src/algo/hybridtsrq/qp_map.cpp:445-463 | after smoothing all horizontal and vertical neighbours differ by at most delta |
| QpMap.PullKeepsRowBound | src/algo/hybridtsrq/qp_map.cpp:455-462 | the column pass keeps the row bound and establishes the column bound |
| QpMap.SmoothedStaysWithin | src/algo/hybridtsrq/qp_map.cpp:445-463 | smoothing stays between the least and greatest input value |
| QpMap.FixedIffBounded | src/algo/hybridtsrq/qp_map.cpp:445-463 | smoothing changes a map iff the map breaks a bound |
| QpMap.SmoothingIsIdempotent | src/algo/hybridtsrq/qp_map.cpp:445-463 | smoothing twice is smoothing once |
| QpMap.ClampKeepsBound | src/algo/hybridtsrq/qp_map.cpp:465-469 | the clamp keeps the bounds and stays within its limits |
| QpMap.ClampCellByCell | src/algo/hybridtsrq/qp_map.cpp:465-469 | a value within the limits is kept, a smaller one becomes the lower limit, a larger one the upper |
| QpMap.RowsCellByCell | src/algo/hybridtsrq/qp_map.cpp:447-454 | the first block of a row is kept, every other is moved into delta of its left neighbour, as little as possible |
| QpMap.ColumnsCellByCell | src/algo/hybridtsrq/qp_map.cpp:455-462 | the first row is kept, every other block is moved into delta of the block above it, as little as possible |
| QpMap.RawFromUnits | src/algo/hybridtsrq/qp_map.cpp:321-340 | each block takes the quantiser of the unit that covers its corner, or of the last unit |
| QpMap.CeilDiv | src/algo/hybridtsrq/qp_map.cpp:13-15 | the least number of blocks that covers the length |
| QpMap.QpMap16x16.SmoothRowInPlace | src/algo/hybridtsrq/qp_map.cpp:448-453 | one row is smoothed and no other byte changes |
| QpMap.QpMap16x16.PullRowInPlace | src/algo/hybridtsrq/qp_map.cpp:456-461 | one row is pulled towards the row above and no other byte changes |
| QpMap.QpMap16x16.RowPass | src/algo/hybridtsrq/qp_map.cpp:447-454 | every row is smoothed |
| QpMap.QpMap16x16.ColumnPass | src/algo/hybridtsrq/qp_map.cpp:455-462 | completes the smoothing |
| QpMap.QpMap16x16.SmoothQpMap | src/algo/hybridtsrq/qp_map.cpp:445-463 | the map becomes its smoothing, block by block what both passes make of it, and bounded; a delta that is not positive changes nothing |
| QpMap.QpMap16x16.ClampQpMap | src/algo/hybridtsrq/qp_map.cpp:465-469 | block by block: a value within the limits is kept, a smaller one becomes the lower limit, a larger one the upper |
| QpMap.CtuQpTo16x16 | src/algo/hybridtsrq/qp_map.cpp:307-360 | the map of a frame, block by block: the quantiser of the covering unit, smoothed, kept if in 1..51 and else moved to the nearer limit; bounded after the clamp |
| Regions.Flood | src/algo/hybridtsrq/heavy_roi_analyzer.cpp:296-319 | collects exactly the foreground pixels 4-connected to the seed, once each, with the exact box, and terminates |
| Regions.Expand | src/algo/hybridtsrq/heavy_roi_analyzer.cpp:309-318 | the unvisited foreground neighbours are marked and queued once |
| Regions.CollectFront | src/algo/hybridtsrq/heavy_roi_analyzer.cpp:301-319 | one round keeps the fill's invariant and lowers its measure |
| Regions.ScanPixel | src/algo/hybridtsrq/heavy_roi_analyzer.cpp:292-319 | a scan position adds one region, seeded there, iff its pixel is unvisited foreground, and otherwise changes nothing |
| Regions.ExtractRegions | src/algo/hybridtsrq/heavy_roi_analyzer.cpp:288-319 | the regions are connected components and partition the foreground |
| Regions.SameRegionIffConnected | src/algo/hybridtsrq/heavy_roi_analyzer.cpp:288-319 | two pixels share a region iff they are connected |
| Regions.RegionComplete | src/algo/hybridtsrq/heavy_roi_analyzer.cpp:301-319 | a fill with nothing left to expand holds all connected pixels |
| Regions.ClosedHoldsConnected | src/algo/hybridtsrq/heavy_roi_analyzer.cpp:309-318 | a set no neighbour leaves holds everything connected to it |
| Regions.FreshRegionApart | src/algo/hybridtsrq/heavy_roi_analyzer.cpp:295-295 | a region with an unvisited seed shares no pixel with earlier ones |
| SummedArea.FourCorners | src/algo/hybridtsrq/heavy_roi_analyzer.cpp:529-542 | four corner areas give the naive double sum of the rectangle |
| SummedArea.FillRow | src/algo/hybridtsrq/heavy_roi_analyzer.cpp:487-527 | one row of the table from the row above and a running sum |
| SummedArea.BuildTable | src/algo/hybridtsrq/heavy_roi_analyzer.cpp:477-527 | every entry is the sum above and to the left, for any pixel value |
| SummedArea.RectSum | src/algo/hybridtsrq/heavy_roi_analyzer.cpp:529-556 | the lookup of a clamped rectangle with ordered corners is its exact sum; a count lies between 0 and the size of the rectangle |
| SummedArea.CountWithinSize | src/algo/hybridtsrq/heavy_roi_analyzer.cpp:505-509 | a count lies between 0 and the size of the rectangle |
| Opening.OpenedIff | src/algo/hybridtsrq/heavy_roi_analyzer.cpp:255-286 | a pixel is set after opening iff it is interior and in a fully set 3x3 square around an interior centre |
| Opening.OpenedIsSubset | src/algo/hybridtsrq/heavy_roi_analyzer.cpp:255-286 | opening only removes pixels |
| Opening.OpenedIsMonotone | src/algo/hybridtsrq/heavy_roi_analyzer.cpp:255-286 | opening is monotone |
| Opening.OpenTwice | src/algo/hybridtsrq/heavy_roi_analyzer.cpp:255-286 | opening twice is opening with the border cleared first |
| Opening.IdempotentIff | src/algo/hybridtsrq/heavy_roi_analyzer.cpp:255-286 | opening is idempotent on a mask iff every interior pixel in a set square around an interior centre lies in a set square whose centre is two pixels off the border |
| Opening.ClearedSquare | src/algo/hybridtsrq/heavy_roi_analyzer.cpp:255-286 | a square is set after clearing the border iff it was set and its centre is two pixels off the border |
| Opening.OpenThrice | src/algo/hybridtsrq/heavy_roi_analyzer.cpp:255-286 | the third opening changes nothing |
| Opening.FullSquareIsNotIdempotent | src/algo/hybridtsrq/heavy_roi_analyzer.cpp:255-286 | a full 4x4 mask is emptied by the second opening |
| Opening.Erode | src/algo/hybridtsrq/heavy_roi_analyzer.cpp:256-270 | the first pass computes the erosion |
| Opening.Dilate | src/algo/hybridtsrq/heavy_roi_analyzer.cpp:271-285 | the second pass computes the dilation |
| Opening.MorphOpen | src/algo/hybridtsrq/heavy_roi_analyzer.cpp:255-286 | both passes in place compute the opening |
| RoiSelection.SelectionTheorem | src/algo/hybridtsrq/heavy_roi_analyzer.cpp:857-1069 | all boxes lie in the frame, at most 64, at most 8 text boxes of at least 24x28 pixels within the area budget, each with IoU at most 0.28 with every other box |
| RoiSelection.MaximalTheorem | src/algo/hybridtsrq/heavy_roi_analyzer.cpp:857-1069 | after all passes each sign and each text region has its box among the objects, or does not fit, or is blocked: 64 objects, enough text boxes, the area budget, or an overlap with an object or text box beyond its limit |
| RoiSelection.TurnTheorem | src/algo/hybridtsrq/heavy_roi_analyzer.cpp:378-1069 | the objects are exactly what the passes take in turn: movers with their plates, signs, texts, each iff it fits and nothing chosen before blocks it, with all limits written out |
| RoiSelection.BoxesCover | src/algo/hybridtsrq/heavy_roi_analyzer.cpp:866-871 | mover and text boxes cover exactly the cells of their extent; a sign box one cell more to the sides and two more above and below |
| RoiSelection.PlateGeometry | src/algo/hybridtsrq/heavy_roi_analyzer.cpp:399-406 | size and place of the plate box within its mover |
| RoiSelection.OverlapIsShared | src/algo/hybridtsrq/heavy_roi_analyzer.cpp:28-44 | the overlap test compares the pixels two boxes share with those of their union |
| RoiSelection.MoversGood | src/algo/hybridtsrq/heavy_roi_analyzer.cpp:378-410 | mover and plate boxes lie in the frame and are at most 64 |
| RoiTrim.CountHits | src/algo/hybridtsrq/heavy_roi_analyzer.cpp:325-330 | the number of pixels of a region per column or row |
| RoiTrim.TrimAxis | src/algo/hybridtsrq/heavy_roi_analyzer.cpp:332-354 | the least and greatest column or row with enough pixels; they cross iff there is none |
| RoiTrim.TrimRegion | src/algo/hybridtsrq/heavy_roi_analyzer.cpp:321-354 | both axes trimmed with the thresholds of the region's box |
| RoiTrim.MoverExtents | src/algo/hybridtsrq/heavy_roi_analyzer.cpp:288-367 | the candidates are the trimmed regions of the mask that are not empty, in order, and lie on the grid |
| RoiTrim.AnalyseFrame | src/algo/hybridtsrq/heavy_roi_analyzer.cpp:288-413 | from any mask, signs, text regions and verdicts to the boxes the passes take in turn, which meet all limits |
| RoiSelection.MoverInFrame | src/algo/hybridtsrq/heavy_roi_analyzer.cpp:390-394 | a region on the reduced grid scales to a box inside the frame |
| RoiSelection.PlateInFrame | src/algo/hybridtsrq/heavy_roi_analyzer.cpp:399-406 | the plate box lies in the frame and within the width of its mover |
| RoiSelection.SignsGood | src/algo/hybridtsrq/heavy_roi_analyzer.cpp:862-901 | the sign pass keeps all limits, adds at most 4 boxes, and no two of them overlap by more than 0.18 |
| RoiSelection.TextsGood | src/algo/hybridtsrq/heavy_roi_analyzer.cpp:921-1069 | the text pass keeps all limits |
| RoiSelection.AddTextGood | src/algo/hybridtsrq/heavy_roi_analyzer.cpp:896-899 | adding a box within the limits keeps them |
| RoiSelection.OverlapSymmetric | src/algo/hybridtsrq/heavy_roi_analyzer.cpp:28-44 | the overlap test is symmetric |
| RoiSelection.OverlapsExisting | src/algo/hybridtsrq/heavy_roi_analyzer.cpp:426-437 | reports exactly whether some box overlaps by more than 0.28 |
| RoiSelection.IsDuplicate | src/algo/hybridtsrq/heavy_roi_analyzer.cpp:884-892 | reports exactly whether some text box overlaps by more than 0.18 |
| RoiSelection.SignsStayFull | src/algo/hybridtsrq/heavy_roi_analyzer.cpp:863-864 | stopping early gives the same result as going on |
| RoiSelection.PickMovers | src/algo/hybridtsrq/heavy_roi_analyzer.cpp:378-410 | the loop computes the mover pass |
| RoiSelection.PickSigns | src/algo/hybridtsrq/heavy_roi_analyzer.cpp:862-901 | the loop with its early exits computes the sign pass, which `TurnTheorem` and `MaximalTheorem` describe |
| RoiSelection.PickTexts | src/algo/hybridtsrq/heavy_roi_analyzer.cpp:921-1069 | the loop with its early exit computes the text pass |
| RoiSelection.SelectBoxes | src/algo/hybridtsrq/heavy_roi_analyzer.cpp:857-1069 | the objects are exactly what all passes take in turn, and meet the limits |
| AccessUnits.StartCode | tools/mfx50rt_stream_probe.cpp:393-404 | a start code has 3 or 4 bytes and lies inside the data |
| AccessUnits.StartCodeIff | tools/mfx50rt_stream_probe.cpp:393-404 | a start code of length 3 or 4 is found iff the bytes are two or three zeros and a one |
| AccessUnits.ClassifyReads | tools/mfx50rt_stream_probe.cpp:425-441 | the kind of a unit is the low five bits of the header, or bits one to six of it for H.265; which kinds are coded video and which are key |
| AccessUnits.PayloadEnd | tools/mfx50rt_stream_probe.cpp:418-424 | the first later start code, or where too little data is left |
| AccessUnits.FindNals | tools/mfx50rt_stream_probe.cpp:406-444 | listed units are exact, ordered and disjoint, and one is listed at a position iff there is a start code that is not the tail of a longer one, with a payload byte before the next start code and the last three bytes |
| AccessUnits.GroupNals | tools/mfx50rt_stream_probe.cpp:451-472 | packets tile the stream, carry the right key flag, and split exactly at access units: no packet holds a coded-video unit before another one or before a delimiter |
| AccessUnits.TakeNal | tools/mfx50rt_stream_probe.cpp:457-466 | one unit closes the packet iff it is coded video or a delimiter behind a coded-video unit, and joins the flags of its packet |
| AccessUnits.MakeAccessUnits | tools/mfx50rt_stream_probe.cpp:446-473 | the whole splitter, from bytes to packets that hold one access unit each |
| AccessUnits.TilesConcatenate | tools/mfx50rt_stream_probe.cpp:446-473 | packets that tile a range concatenate to exactly its bytes |
| AccessUnits.ClosePacket | tools/mfx50rt_stream_probe.cpp:459-464 | a closed packet contains exactly the collected units |
| AccessUnits.MakeChunkPackets | tools/mfx50rt_stream_probe.cpp:475-482 | chunks tile the data; all but the last have the full size |
| TemporalQp.ForcedIff | src/algo/hybridtsrq/temporal_qp_controller.cpp:47-53 | a frame forces an IDR iff it is a scene cut and none of the 29 frames before it forced one |
| TemporalQp.IdrSpacing | src/algo/hybridtsrq/temporal_qp_controller.cpp:47-53 | forced IDRs are at least 30 frames apart; another scene cut comes at most 29 frames after one |
| TemporalQp.WindowIff | src/algo/hybridtsrq/temporal_qp_controller.cpp:57-63 | the conservative window is open exactly on a forced IDR and the four frames after it, and then the quality quantisers apply |
| TemporalQp.DecisionTheorem | src/algo/hybridtsrq/temporal_qp_controller.cpp:32-95 | the base quantiser, the three quantisers of the mode and scene, the choice of anchor with its guard offset, the IDR and the recommended group, as conditions on the frame and its history |
| TemporalQp.CountsHold | src/algo/hybridtsrq/temporal_qp_controller.cpp:47-53 | cooldown and window count the frames since the last forced IDR |
| TemporalQp.TemporalQpController.OpenWindow | src/algo/hybridtsrq/temporal_qp_controller.cpp:47-53 | cooldown and window as the frame arrives |
| TemporalQp.TemporalQpController.ChooseQps | src/algo/hybridtsrq/temporal_qp_controller.cpp:55-72 | the three quantisers of the frame |
| TemporalQp.TemporalQpController.DecideFrame | src/algo/hybridtsrq/temporal_qp_controller.cpp:32-95 | the decision and the next state; all quantisers lie in 1..51 |

## Left out

- The oneVPL and VA-API calls themselves: their outcomes are arbitrary answers of the model; a surface comes only with success, and the decoder consumes no more than it was offered.
- A device that answers busy for ever (mfx50_codec_api.cpp:601-610, mfx50_realtime.cpp:1639-1662), or that warns for ever within one drive of the split decoder: the methods allow any finite number, and `DecoderCalls.DriveUnboundedIff` says when there is no bound.
- What the scene analyser, the preprocessing filters and the decision callback compute, whether an attempt to preprocess changes the picture (filters off, mapping fails), and how often the analyser sees a frame whose analysis failed.
- The slice and budget variants of the pipeline loop (mfx50_realtime.cpp:1567-1609): they perform the same steps, and the theorems hold of all sequences of steps.
- Pointers from pipeline slots to control slots are indices into the pool, and vectors of slots, queues and packets are sequence-valued fields; reallocation shows as growth of the pool.
- Wrap-around of the 64-bit counters, and 32-bit integer overflow for absurd smoothing deltas and areas.
- Floating-point scores, ratios and confidences are verdicts per candidate (regions of interest, static risk) or reals (scene features); the IoU tests are cross-multiplied integers.
- The quantiser of a coding-tree unit (`qp_for_class`, `qp_from_importance`) is a function parameter of the map builder, and the smoothing statistics are not computed.
- The eight integral tables filled by one loop are modelled one at a time, and the tables of doubles hold exact integers.
- Corridor tests, the search and sorting of sign candidates and the dilation and trimming of text regions: the selection takes any list of these candidates.
- A decision callback that refuses a frame, or a route without static reuse, counts as a preparation without a decision; `ReuseBounds.MissesWithin` speaks of runs in which every preparation decides.
- Wake-up and liveness of the asynchronous scheduler, its shutdown, and the order of callbacks with several workers.
- Callback delivery appears as taking the whole queue.
- Detection of the codec of a pushed packet is one verdict; destruction of the decoder, its error texts, its different error codes for device failures and its null-pointer checks are not modelled.
- Configuration, tuning profiles, logging, statistics and the command line: they would add only easy members.
