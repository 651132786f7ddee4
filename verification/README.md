# PiCDPlayer data path: verified model

This project models the CD-audio data path of PiCDPlayer and proves what it promises, for all inputs and all runs:

* the **stack of readers**: the direct reader that splits a call into chunks and falls back from C2 reads, the offset
  reader that shifts by samples, and the repeated reader that hands out only PCM that won a vote;
* the **complete-PCM capture**: the input model that checks evidence and feeds a consumer, the local SHA-256
  fingerprint, and the two-threaded worker that runs a capture;
* **playback**: the PCM worker with its generations, the engine that feeds a sink and recovers from underruns, and the
  controller behind them;
* the **bounded interval sets** that record what was read;
* the **recognisers**: PNG and JPEG admission, UTF-8 validation and truncation.

## How it is built

Code that changes fields in place is a `class` whose methods change the same fields; loops stay loops. Where lemmas
have to talk about the state, a value-level function gives it and the methods are proved to compute that function.

The two worker threads are step systems: one step for every mutex critical section, one for "the device action begins"
and one for "it ends". `CaptureProtocol` and `PcmProtocol` interleave any control calls, any answers of the device and
any clock; `CaptureSafety` and `PcmSafety` hold the invariants; `CaptureTheorems` and the end of `PcmSafety` state what is
safe over every run, `CaptureProgress` and `PcmProgress` what every undisturbed run comes to. The classes `CompletePcmWorkers.CompletePcmWorker` and `PcmWorkers.PcmWorker` hold the same
sections over real fields, and `PlaybackEngines.PlaybackEngine` calls the second one while the worker's thread takes
any number of steps in between.

Drives, sinks, clocks, readers below a reader and consumers may answer anything, throw, or call back; they keep a ghost
record of what they were given and what they answered, and the methods above them are specified against that record.
SHA-256 is an arbitrary function of the bytes absorbed.

| file | what it holds |
|---|---|
| `Basics`, `DiscToc`, `CompletePcm`, `CddaReader` | shared types, the table of contents, what a reader answers |
| `CaptureWorker`, `CaptureProtocol`, `CaptureSafety`, `CaptureTheorems`, `CaptureProgress`, `CaptureResult`, `CompletePcmWorker` | the capture worker |
| `PcmInput`, `PcmInputFault`, `PcmFeed`, `Sha256`, `Sha256Consumer` | the capture's input model and its consumer |
| `Voting`, `RepeatedRead`, `LowerReader`, `ReadOffset`, `DirectReader`, `MmcRead` | the readers |
| `ReaderStack`, `CaptureDrive`, `Fingerprint` | readers, input model and consumer composed over a whole capture |
| `PcmMonitor`, `PcmProtocol`, `PcmSafety`, `PcmBuffer`, `PcmProgress`, `PcmReconfigure`, `PcmWorker` | the PCM worker |
| `PlayerModel`, `PlayerController`, `PlaybackLog`, `PlaybackEngine` | playback |
| `ReadCoverage`, `DiscReadMap` | interval sets |
| `Crc32`, `PngAdmission`, `JpegScript`, `JpegTables`, `JpegAdmission`, `Utf8` | recognisers |

`dafny verify dfyconfig.toml` checks all of it.

## Findings

* An input used again after its clock threw may hand the same samples to its consumer twice, and finalize it twice:
  `append` checks the clock between two chunks and `prepare` behind the finalization, both outside any handler, and the
  exception leaves a collecting input whose cursor has not moved. The log is exact exactly if no append was left by such
  an exception with part of its block fed (`PcmInputs.CompletePcmInput.ExactIff`), and finalized once exactly if no
  prepare was left so behind its finalization (`FinalizedOnceIff`). The caller gets the exception; an
  input that never threw one at it is exact. `PcmInputFaults.RetryRepeats` is the general case on a disc of one track, `FedTwice`
  and `FinalizedTwice` are two such captures. The capture worker never tries again (src/complete_pcm_worker.cpp:319-322).
* The evidence for what is being heard can be lost: a run is dropped once it is played out by the sink's delay, and a
  delay that grows afterwards moves the played position back before it. Evidence is there exactly if something submitted
  is unheard and the runs kept reach back to the played position (`PlaybackEngines.AudibleIff`, and `UpdateAudible` for
  the loop itself), which holds as long as the position does not fall behind the furthest one reached;
  `GrownDelayLosesEvidence` is a case where it does.
* `PcmWorker::reconfigure` in the middle of a stream can repeat the stream's first block under the same generation. It
  is harmless exactly when the worker is not in the middle of a stream (`PcmReconfigure.ReconfigureSafeIff`): when none
  is active, when no block of it has been read, when its last block is in hand or queued, or when it has failed. A fresh
  worker reaches such a state (`MidStreamIsReached`), and a caller can recognise it (`ActiveWithBlocksIsMidStream`).
* After a failed C2 read a chunk may be retried up to twice the configured number of times. The retries of every chunk,
  delivered or failed, stay within the setting exactly if `requestC2` is off, or `requireC2` is on, or no retries are
  allowed (`DirectReaders.RetriesWithinIff`); otherwise `DirectReaders.WorstCase` makes the reader spend the double.
* `bounded_text` is not always the longest valid cut: it is exactly when byte 255 is ASCII or byte 256 continues a
  character (`Utf8s.CutIsLongestIff`); `Utf8s.CutMayDropFittingCharacter` is a text cut to 254 bytes where 256 were valid.
* The 8 MiB limit on a capture's reservation never refuses a plan (`PcmInputs.MemoryLimitNeverBinds`), and the 16 KiB
  limit on a fingerprint's manifest never refuses one (`Sha256Consumers.ManifestFits`).

## Model

| member | source | states |
|---|---|---|
| CaptureTheorems.DeliveredResultIsGood | src/complete_pcm_worker.cpp:186-202 | over every run, `result` returns bytes only for a ticket that matched the first TOC, appended every frame to the lead-out, matched the final TOC, released its reader and was never revoked before `confirm`: no cancel, foreign identity, lost drive, bad clock or observed job or call deadline |
| CaptureProgress.UndisturbedDelivers | src/complete_pcm_worker.cpp:260-352 | from any admission of a job with a sound plan: a run in which device, core and allocator do their part, nothing revokes the job and no reservation comes in its last millisecond takes at most 16 worker steps a frame and 51 besides; once the worker waits again the core's bytes are parked or published, and a confirmation publishes exactly them |
| CaptureProgress.Completes | src/complete_pcm_worker.cpp:204-352 | wherever an undisturbed job stands, it can be brought to parked bytes; only another user of the drive can make it wait |
| CaptureProgress.UndisturbedRunExists | src/complete_pcm_worker.cpp:260-352 | such a run exists from every such admission, for every plan and block size |
| CaptureProgress.DeliveringRunExists | src/complete_pcm_worker.cpp:73-202 | some run of a fresh worker, from `start` to `confirm`, ends with `result` returning the core's bytes |
| CaptureResults.ResultIsDisc | src/complete_pcm_worker.cpp:293-352 | over every run whose core takes blocks of the disc and hands back its consumer's manifest, the bytes `result` returns are the manifest of the disc's own samples from the first track to the lead-out |
| CaptureTheorems.ResultSurvivesExactly | src/complete_pcm_worker.cpp:151-202 | a delivered result survives a step exactly when the step is not an invalidation, a foreign identity or a newer admission; otherwise it is gone |
| CaptureTheorems.ActionsReservedWhilePermitted | src/complete_pcm_worker.cpp:213-230 | every device action but the release is reserved while its ticket is permitted, before the job deadline, under the access lock and with a call deadline no later than the job's |
| CaptureTheorems.OnlyReserveActs | src/complete_pcm_worker.cpp:228-231 | the reservation is the only way into a device action |
| CaptureTheorems.ActionsHoldTheDrive | src/complete_pcm_worker.cpp:213-242 | while an action runs the worker alone holds the drive, and the status says a call is in flight and the reader not released |
| CaptureTheorems.ReleasedMeansReleased | src/complete_pcm_worker.cpp:323-353 | in every reachable state the reader counts as released exactly when no job is queued or running; a waiting worker has no call in flight; `busy` is exactly "neither idle nor finished" |
| CaptureTheorems.ExecutionEndsReleased | src/complete_pcm_worker.cpp:320-339 | over every run, an execution at its last section holds no reader, no access lock and no call in flight, however it got there |
| CaptureTheorems.FinishedTicketClosedReader | src/complete_pcm_worker.cpp:337-353 | once the worker waits again, the ticket it last executed has closed its reader |
| CaptureTheorems.StateOnlyAdvances | src/complete_pcm_worker.cpp:113-124 | over any stretch of a run with one ticket, the input state only goes forward, or down to incomplete and then invalid |
| CaptureTheorems.CompletesOncePrepared | src/complete_pcm_worker.cpp:186-196 | a job that goes from collecting to complete was prepared in between |
| CaptureTheorems.StepOneWay | src/complete_pcm_worker.cpp:93-99 | epochs and tickets never fall, and a new ticket is newer than every epoch before |
| CaptureTheorems.DeadTicketStaysDead | src/complete_pcm_worker.cpp:141-149 | a ticket that is no longer permitted is never permitted again |
| CaptureTheorems.CancelKillsPreflight | src/complete_pcm_worker.cpp:90-92 | a cancel, invalidate or close refuses every `start` whose preflight is still running, whatever happens later |
| CaptureTheorems.NextKeepsInv | src/complete_pcm_worker.cpp:260-353 | every step of every interleaving keeps the protocol's invariant |
| CompletePcmWorkers.CompletePcmWorker.StopSection | src/complete_pcm_worker.cpp:113-124 | the stop section leaves the whole monitor as the protocol says |
| CompletePcmWorkers.CompletePcmWorker.RefreshSection | src/complete_pcm_worker.cpp:126-139 | clock failure, regression and both deadlines stop the job; otherwise only the clock moves |
| CompletePcmWorkers.CompletePcmWorker.EndStart | src/complete_pcm_worker.cpp:90-108 | the second section of `start` admits a job only if no epoch passed since the first |
| CompletePcmWorkers.CompletePcmWorker.ConfirmJob | src/complete_pcm_worker.cpp:186-196 | `confirm` publishes the pending bytes exactly when the job is prepared, released and undisturbed |
| CompletePcmWorkers.CompletePcmWorker.ReserveSection | src/complete_pcm_worker.cpp:214-230 | the reservation section with its budget and its early returns |
| CompletePcmWorkers.CompletePcmWorker.FinishSection | src/complete_pcm_worker.cpp:337-352 | the last section either parks the bytes for `confirm` or finishes without them |
| PcmInputs.MakeInput | src/complete_pcm_input.cpp:31-57 | an input exists exactly for eligible plans; the table must rebuild from its own starts |
| PcmInputs.MemoryLimitNeverBinds | src/complete_pcm_input.cpp:17-29 | the reservation is refused exactly by the consumer and policy limits, never by the 8 MiB one |
| PcmInputs.Refusal | src/complete_pcm_input.cpp:115-146 | a block is refused for the first check it fails, and accepted exactly when all hold |
| PcmInputs.CompletePcmInput.Append | src/complete_pcm_input.cpp:112-180 | a successful append was admissible, fed exactly its samples and moved the cursor by its frames; a refused one takes nothing and leaves no collecting or prepared input; an exception of the clock leaves state and cursor alone, with a prefix of the block fed |
| PcmInputs.CompletePcmInput.FeedBlock | src/complete_pcm_input.cpp:151-176 | the block is cut at track ends and 16 KiB, in order and whole, even with callbacks that cancel or re-enter; an exception of the clock ends it behind a chunk, with everything up to there fed |
| PcmInputs.CompletePcmInput.FillScratch | src/complete_pcm_input.cpp:158-162 | the scratch buffer holds the little-endian bytes of the run of samples |
| PcmInputs.CompletePcmInput.Check | src/complete_pcm_input.cpp:87-104 | passes exactly for the job's identity and profile, a clock that did not go back and a deadline not reached unless complete; otherwise the first of the checks that fails names the reason and the state; a re-entrant call invalidates; an exception of the clock goes through and changes nothing |
| PcmInputs.CompletePcmInput.CallBudget | src/complete_pcm_input.cpp:106-110 | the most whole milliseconds within the policy's budget that end by the deadline, and none for an input that does not collect |
| PcmInputs.CompletePcmInput.Prepare | src/complete_pcm_input.cpp:182-206 | seals only at the lead-out, with one finalization as its last call to the consumer, and keeps exactly the bytes that finalization returned; an exception of the clock leaves the state, before or behind that finalization |
| PcmInputs.CompletePcmInput.Confirm | src/complete_pcm_input.cpp:208-216 | behind the checks: completes exactly a prepared or complete capture with the same TOC and a released reader, with the bytes unchanged; another TOC invalidates, anything else leaves the state; an exception of the clock changes nothing |
| PcmInputs.CompletePcmInput.Destroy | src/complete_pcm_input.cpp:59-69 | whatever happened, the consumer is discarded once and last |
| PcmInputs.CompletePcmInput.TrackIsExact | src/complete_pcm_input.cpp:222-226 | unless a capture fails or an exception of the clock left an append with part of its block fed, each track's bytes in the consumer's log are exactly its accepted frames, 2352 bytes each |
| PcmInputs.CompletePcmInput.ExactIff | src/complete_pcm_input.cpp:151-179 | until a capture fails, the consumer's log holds per track exactly the accepted samples if and only if no append was left by an exception of the clock with part of its block fed |
| PcmInputs.CompletePcmInput.FinalizedOnceIff | src/complete_pcm_input.cpp:182-206 | a prepared or complete capture was finalized once if and only if no prepare was left by an exception of the clock behind its finalization |
| PcmInputFaults.RetryRepeats | src/complete_pcm_input.cpp:151-179 | on any disc of one track: a clock that throws behind a block of one chunk leaves the input collecting, the block appended again is taken, and the consumer got its samples twice |
| PcmInputFaults.FedTwice | src/complete_pcm_input.cpp:174-179 | a capture, made by the constructor, whose consumer was handed its one frame twice |
| PcmInputFaults.FinalizedTwice | src/complete_pcm_input.cpp:187-205 | a capture that is prepared after two finalizations |
| PcmFeeds.FeedPerTrack | src/complete_pcm_input.cpp:151-176 | per track number, the bytes of any proper feed are the encoding of that track's samples |
| PcmFeeds.TracksInOrder | src/complete_pcm_input.cpp:154-164 | track numbers never fall from one call to a later one |
| PcmFeeds.DiscardIsLast | src/complete_pcm_input.cpp:63-69 | in the consumer's log a discard comes at most once and after everything else |
| PcmFeeds.EncodeRoundTrip | src/complete_pcm_input.cpp:159-161 | decoding the little-endian bytes gives the samples back |
| Sha256.AbsorbFeed | src/complete_pcm_sha256.cpp:60-78 | a proper feed passes all the consumer's argument checks, and what is absorbed per track is that track's encoding |
| Sha256.FingerprintIsExact | src/complete_pcm_sha256.cpp:79-99 | after a whole capture the rows are the table's tracks in order, each with the length and hash of exactly its samples, and the disc digest covers them all |
| Sha256Consumers.ManifestFits | src/complete_pcm_sha256.cpp:27-45 | a manifest of up to 99 tracks and any 64-bit byte counts fits the buffer |
| Sha256Consumers.NumberFits | src/complete_pcm_sha256.cpp:33-38 | twenty characters hold every 64-bit count |
| Sha256Consumers.DecimalRoundTrip | src/complete_pcm_sha256.cpp:33-38 | a number's text reads back as the number, in digits without a leading zero |
| Sha256Consumers.HexRoundTrip | src/complete_pcm_sha256.cpp:39-45 | a digest's text reads back as the digest |
| Sha256Consumers.Sha256Consumer.Consume | src/complete_pcm_sha256.cpp:60-78 | takes exactly the acceptable chunks and absorbs them as the specification says |
| Sha256Consumers.Sha256Consumer.Finalize | src/complete_pcm_sha256.cpp:79-99 | once, and then with the manifest of everything absorbed |
| Votings.MergeDependsOnSet | src/repeated_read_verifier.cpp:27-32 | the merged C2 status depends only on which statuses occur |
| Votings.MergeIsJoin | src/repeated_read_verifier.cpp:27-32 | merging is associative, commutative and idempotent |
| Votings.VoteIsCount | src/repeated_read_verifier.cpp:107-121 | every candidate carries the number of complete reads that returned its PCM and the merge of their C2 statuses |
| Votings.VotesCover | src/repeated_read_verifier.cpp:108-118 | the candidates are exactly the values some complete read returned |
| Votings.VotesAddUp | src/repeated_read_verifier.cpp:107-118 | the candidates' votes add up to the complete reads |
| RepeatedReads.Collect | src/repeated_read_verifier.cpp:71-147 | stops at the first value with enough votes, or with every attempt made, or at the first reading of the clock in front of a further attempt that is the budget or more after the first reading, or when the reader below or the clock throws, and for no other reason |
| RepeatedReads.Judge | src/repeated_read_verifier.cpp:122-151 | the result of a call is what its attempts amount to, on success and on failure |
| RepeatedReads.SucceedsIff | src/repeated_read_verifier.cpp:122-151 | a value with enough votes is the only one; the call succeeds exactly when it begins with the previous block's tail |
| RepeatedReads.SucceedsExactly | src/repeated_read_verifier.cpp:122-151 | a call hands out a block exactly when some value has the required votes and begins with the previous block's tail |
| RepeatedReads.GivesUpLate | src/repeated_read_verifier.cpp:71-151 | without enough votes for any value, fewer than all allowed attempts were made exactly if the clock, in front of the next one and not before, had run past the budget; the evidence says so |
| RepeatedReads.PromptAgreementDelivers | src/repeated_read_verifier.cpp:71-146 | if the first k answers that come are complete and agree, no reading in front of them is late and they begin with the previous block's tail, the block is handed out after exactly k attempts |
| RepeatedReads.AcceptedIsTrue | src/repeated_read_verifier.cpp:107-146 | with fewer than k corrupt complete reads the accepted block is the true one |
| RepeatedReads.EvidenceConsistent | src/repeated_read_verifier.cpp:107-135 | complete reads are the sum of the votes, and the accepted attempt and candidate lie within the counts |
| RepeatedReads.RepeatedReadVerifier.Read | src/repeated_read_verifier.cpp:51-152 | nothing is returned exactly for refused arguments and exceptions below or of the clock, and then nothing changes; success delivers the winner without its overlap and keeps its tail; failure leaves the buffer and needs a seek; the budget counts as exhausted exactly as the clock's record says |
| RepeatedReads.RepeatedReadVerifier.Seek | src/repeated_read_verifier.cpp:43-49 | a negative position is refused; any other takes effect even if the reader below throws |
| ReadOffsets.WindowIsExact | include/read_offset.hpp:15-29 | for every disc and offset the window holds exactly the frames whose shifted samples all lie on the disc |
| ReadOffsets.PhysicalRange | src/read_offset.cpp:29-36 | a shifted read inside the window stays on the disc and needs at most one more frame |
| ReadOffsets.ShiftIsExact | src/read_offset.cpp:51-52 | over a faithful drive logical sample s is physical sample s + offset |
| ReadOffsets.OffsetReader.Read | src/read_offset.cpp:20-59 | past the window an error, otherwise one physical read of the exact range; anything but a full answer fails and unpositions |
| ReadOffsets.OffsetReader.Seek | src/read_offset.cpp:13-19 | refused exactly outside the window |
| ReadOffsets.SplitDisc | src/daemon_snapshot_json.cpp:246-270 | unavailable, alignment-excluded and playable samples partition the disc, and the reason says which case it is |
| DirectReaders.LinuxIoctlReader.Read | src/cdda_reader.cpp:111-183 | success is the whole range in consecutive chunks, with the join of their C2 statuses and the sum of their retries; failure keeps the complete chunks and reports the failing chunk's error, C2 status and retries |
| DirectReaders.LinuxIoctlReader.ReadChunk | src/cdda_reader.cpp:122-172 | for a chunk delivered or failed, exactly which transport calls it made, in which order, what the drive answered, and which of the answers it took |
| DirectReaders.RetryBound | src/cdda_reader.cpp:145-166 | no chunk, delivered or failed, retries more than twice the configured number |
| DirectReaders.RetriesWithinIff | src/cdda_reader.cpp:145-166 | the retries of every chunk, delivered or failed and whatever the drive answers, stay within the setting exactly if C2 is not asked for, or is required, or no retries are allowed |
| DirectReaders.WorstCase | src/cdda_reader.cpp:122-166 | for every other setting a drive exists with which the reader itself spends twice the setting on one frame |
| DirectReaders.ChunksMakeOneRead | src/cdda_reader.cpp:121-181 | faithful chunks make one faithful read of the whole range |
| MmcReads.C2AudioRead | src/cdda_reader.cpp:42-79 | a range that can be asked for is one packet to the drive that asks for exactly it; the answer to that packet is decoded exactly if the drive reported no error and transferred all of it; a set pointer in any frame is reported; any other range sends nothing |
| MmcReads.CommandRoundTrip | src/cdda_reader.cpp:50-55 | the packet that is sent asks for audio and C2 pointers of exactly the range asked for |
| ReaderStack.RepeatedBlockAdmissible | src/complete_pcm_input.cpp:119-146 | every block of the repeated reader over the offset reader with offset 0, driven in lockstep with the input model, passes all of `append`'s checks |
| ReaderStack.SingleBlockAdmissible | src/complete_pcm_input.cpp:119-137 | so does every block of the plain stack in single-read mode |
| ReaderStack.RangeStaysOnDisc | src/repeated_read_verifier.cpp:59-64 | the overlap never takes the verifier off the disc, so the seek below is not refused |
| LowerReaders.LowerReader.Read | src/complete_pcm_worker.cpp:275-278 | inside the window, every answer of the reader below the repeated one, when that is an offset reader, is a shifted physical answer |
| CaptureDrives.Capture | src/complete_pcm_worker.cpp:282-312 | from the seek to the first track on, the repeated reader over the offset reader and the input model stay together block by block up to the lead-out; it stops short only for an exception below, a verdict that hands nothing out or, with a calm consumer, a bad reading of the input's clock; the consumer's bytes are what the blocks delivered |
| CaptureDrives.CaptureBlock | src/complete_pcm_worker.cpp:297-311 | a taken block moves both cursors alike; one that is not taken has such a cause, and only a failed read makes the input refuse it for what it is |
| CaptureDrives.ConsumedIsDisc | src/complete_pcm_input.cpp:151-178 | the bytes handed over for each track by a whole capture decode to the disc's own samples, if in each block fewer than k complete reads were corrupt |
| ReaderStack.DeliveredIsDisc | src/repeated_read_verifier.cpp:122-146 | with fewer than k corrupt reads the delivered block is the disc's own, sample for sample |
| ReaderStack.CaptureIsDisc | src/repeated_read_verifier.cpp:122-152 | so any run of blocks delivered one behind the other is the disc from the first track on |
| ReaderStack.TrackIsDisc | src/complete_pcm_input.cpp:151-178 | and every track cut from a whole run is that track of the disc |
| Fingerprints.Digest | src/complete_pcm_sha256.cpp:60-99 | over a whole capture's feed the consumer refuses nothing, and its manifest is that of the samples fed |
| Fingerprints.ManifestIsDisc | src/complete_pcm_sha256.cpp:79-99 | so the manifest of a capture is that of the disc itself |
| PcmSafety.RunKeepsInv | src/pcm_worker.cpp:161-338 | every run of the worker keeps the invariant |
| PcmSafety.ReleasedMeansReleased | src/pcm_worker.cpp:122-125 | while the factory, a seek, a read or a close runs, or a reader is held, `device_released` is false |
| PcmSafety.RestingReportIsExact | src/pcm_worker.cpp:122-125 | in every reachable state between the thread's turns, release is reported exactly when no stream is active, no discard is due and no reader is held |
| PcmSafety.StreamIsContiguous | src/pcm_worker.cpp:229-316 | popped and queued blocks of the current generation tile the stream without gap, within capacity, and `done` means the end was reached |
| PcmBuffers.QueueFitsBuffer | src/pcm_worker.cpp:229-233 | in every run the frames of the queued blocks fit the configured buffer |
| PcmBuffers.WaitsExactlyWhenFull | src/pcm_worker.cpp:231-234 | in front of a read of its stream the thread waits exactly while one more read block would not fit the configured buffer |
| PcmBuffers.StartupIsLeast | src/pcm_worker.cpp:30-32 | the startup threshold is the least number of blocks that hold the configured startup frames, as far as the queue goes |
| PcmProgress.StreamFinishes | src/pcm_worker.cpp:161-338 | a stream started from any reachable state, over a drive that answers and with a caller that only pops, takes at most 8 thread steps a frame and 44 besides; until all of it is read, the thread can go on or the caller can pop |
| PcmProgress.StreamRunExists | src/pcm_worker.cpp:161-338 | from every reachable state some such run reads the stream to its end and the caller takes all of it |
| PcmSafety.HistoryIsNewestReads | src/pcm_worker.cpp:275-280 | the ring is the last min(n, 128) reads, and kept plus evicted is every read call |
| PcmSafety.InterferenceIsProgress | src/pcm_worker.cpp:161-338 | between two calls of its user the thread only appends, finishes or fails the user's own stream |
| PcmSafety.ReachableReconfigure | src/pcm_worker.cpp:64-81 | reconfiguring a stopped worker keeps it in a reachable state |
| PcmReconfigure.ReconfigureSafeIff | src/pcm_worker.cpp:64-81 | from any reachable state and for any block size, every run after a reconfiguration stays contiguous exactly if the worker is not in the middle of a stream |
| PcmReconfigure.ReconfigureMidStreamRepeats | src/pcm_worker.cpp:64-81 | in the middle of a stream some run queues its first block again under the same generation |
| PcmReconfigure.ActiveWithBlocksIsMidStream | src/pcm_worker.cpp:64-81 | what a caller can tell: an active stream with a block queued and more than a read block left is such a state, unless a read just failed |
| PcmReconfigure.MidStreamIsReached | src/pcm_worker.cpp:229-316 | a fresh worker reaches such a state with one start |
| PcmWorkers.ReadHistory.Observe | src/pcm_worker.cpp:275-280 | the ring over a fixed array holds what the specification's history holds |
| PcmWorkers.PcmWorker.StartStream | src/pcm_worker.cpp:46-63 | starts a new generation and leaves the whole shared state as specified |
| PcmWorkers.PcmWorker.PopLater | src/pcm_worker.cpp:126-131 | a later pop yields the next contiguous block of the caller's own stream |
| PcmWorkers.PcmWorker.StatusLater | src/pcm_worker.cpp:146-160 | `done` with an empty queue means everything was popped |
| PcmWorkers.PcmWorker.DeviceReleased | src/pcm_worker.cpp:122-125 | true only when no device call runs and no reader is held |
| PlaybackEngines.PlaybackEngine.Synchronize | src/playback_engine.cpp:26-53 | drops the old stream and, when playing, starts one at the position with a fresh record at the sink and a fresh budget; fails exactly if the sink's reset does or the position is past the disc end |
| PlaybackEngines.PlaybackEngine.NextBlock | src/playback_engine.cpp:104-108 | a pop puts the worker's next block in hand; it finds none only when the queue is empty |
| PlaybackEngines.PlaybackEngine.FillSink | src/playback_engine.cpp:103-125 | offers the sink all twelve times, or up to the offer it failed or took nothing of, or until nothing is left; the log has one more entry for every offer of which the sink took some |
| PlaybackEngines.PlaybackEngine.TickBody | src/playback_engine.cpp:86-138 | a draining stream asks the sink once; otherwise, once primed, prebuffered or finished, whatever is in hand or queued is offered, unless the worker is found to have failed; before that nothing is |
| PlaybackEngines.PlaybackEngine.Tick | src/playback_engine.cpp:57-182 | a tick only extends what the sink has on record, whether the stream goes on or ends; the record stays in order with at most three recoveries and grows with every offer taken; a tick due to write offers what there is; it completes only when the sink took every frame to the disc end and has drained |
| PlaybackEngines.PlaybackEngine.TryTick | src/playback_engine.cpp:57-138 | the same of the tick's `try` block, for every way it ends |
| PlaybackEngines.PlaybackEngine.PlayThrough | src/playback_engine.cpp:26-182 | from `synchronize` to the end of a stream, over any number of ticks, the sink's record is one pass over the disc from the starting position with at most three rewinds of less than a CD frame |
| PlaybackEngines.PlaybackEngine.HeardInOrder | src/playback_engine.cpp:103-182 | of such a log: no frame is skipped, none is given more than four times |
| PlaybackEngines.PlaybackEngine.WriteBlock | src/playback_engine.cpp:109-124 | offers the rest of the block in hand to the sink; whatever it takes, the sink's own record grows by exactly that run and the engine counts and remembers exactly that; a claim of more than was offered counts for nothing |
| PlaybackEngines.PlaybackEngine.UpdateAudible | src/playback_engine.cpp:126-133 | the played position is what was submitted less the sink's delay; evidence is there exactly if something submitted is unheard and the runs kept reach back to it, and so whenever the position has not fallen behind the furthest reached; it covers the position, and the controller never runs ahead of what was submitted |
| PlaybackEngines.AudibleIff | src/playback_engine.cpp:126-132 | for any runs and any played position: dropping what is heard leaves evidence exactly if something is unheard and the runs began at or before it, and that evidence covers it |
| PlaybackEngines.GrownDelayLosesEvidence | src/playback_engine.cpp:126-132 | two runs, played to the second and then reported as playing the first again, leave no evidence |
| PlaybackEngines.PlaybackEngine.Recover | src/playback_engine.cpp:148-194 | an underrun is recovered from exactly if the stream is not draining, some of it is not yet submitted, the budget is not spent and the sink's reset succeeds; it resumes at the last whole frame submitted, counts, and waits for five more blocks; otherwise it stops |
| PlaybackEngines.PlaybackEngine.DrainAtEnd | src/playback_engine.cpp:134-138 | draining begins, and the sink is asked, exactly once the worker has finished, its queue is empty and the block in hand is used up, and then every stereo frame is submitted |
| PlaybackEngines.PlaybackEngine.Drain | src/playback_engine.cpp:86-89 | the sink is asked once: an underrun or failure goes on as such, a sink not yet drained keeps the stream, and a drained one completes it unless its reset fails |
| PlaybackLog.NothingSkipped | src/playback_engine.cpp:103-125 | no stereo frame between the origin and the log's position is skipped |
| PlaybackLog.RepeatsAreRecoveries | src/playback_engine.cpp:148-182 | no frame is repeated more often than there were recoveries |
| PlayerModel.PositionIsInNamedTrack | src/player_controller.cpp:5-104 | after any commands the named track is the only one holding the position, and playing or paused stays in range |
| PlayerModel.NextReaches | src/player_controller.cpp:69-72 | next leads to the first playable LBA of the following track, and stays where there is none |
| PlayerModel.PreviousReaches | src/player_controller.cpp:73-78 | previous leads to the track before within three seconds of a track's start, and else back to the start |
| PlayerModel.SelectTrackReaches | src/player_controller.cpp:62-68 | a number on the disc leads to the first playable LBA of that track, any other nowhere |
| PlayerModel.SnapshotNeverThrows | src/daemon_snapshot.cpp:17-34 | no command sequence leads to a state the snapshot refuses |
| PlayerModel.MakeDaemonSnapshot | src/daemon_snapshot.cpp:17-34 | exactly which player states a snapshot refuses, and the position in the track otherwise |
| PlayerModel.SeekIsUnboundedClamp | src/player_controller.cpp:79-93 | a seek lands where unbounded arithmetic would clamp it |
| PlayerModel.SeekNeverOverflows | src/player_controller.cpp:84-86 | for every 64-bit delta no intermediate value leaves 64 bits |
| PlayerModel.ReportsNeverGoBack | src/player_controller.cpp:95-99 | progress reports never move the position backwards |
| PlayerControllers.PlayerController.LoadDisc | src/player_controller.cpp:5-20 | accepts exactly the well-formed tables |
| PlayerControllers.PlayerController.SeekRelative | src/player_controller.cpp:79-93 | the clamped seek and its track search leave the specified state |
| PlayerControllers.UpperBoundIsHolder | src/player_controller.cpp:87-90 | the binary search finds the track that holds the position |
| DiscTocs.MakeAudioToc | src/disc_toc.cpp:8-23 | accepts exactly increasing starts below the lead-out and builds a well-formed table |
| DiscTocs.TracksTile | src/disc_toc.cpp:8-23 | every LBA of the program area lies in exactly one track |
| DiscTocs.SpanIsTotalLength | src/disc_toc.cpp:4-6 | the span is the sum of the track lengths |
| ReadCoverages.ReadCoverage.Observe | src/integrity_state.cpp:134-167 | the kept regions are the union of all accepted intervals while complete; an accepted read freezes them exactly when its range does not fit, or the array is full and no region touches it |
| ReadCoverages.ReadCoverage.CountIsLowerBound | src/integrity_state.cpp:155-166 | the count is the size of that union while complete, and a lower bound for ever |
| ReadCoverages.ReplacedPoints | src/integrity_state.cpp:142-165 | merging adds exactly the new interval |
| ReadCoverages.ReplacedIsApart | src/integrity_state.cpp:143-165 | the regions stay sorted, disjoint and not touching |
| ReadCoverages.TotalIsSize | src/integrity_state.cpp:155-166 | regions that are apart count every LBA once |
| DiscReadMaps.DiscReadMap.Observe | src/integrity_state.cpp:169-201 | per set of facts exactly the observed LBAs are kept; freezing for lack of room happens only when nothing merged and forgets nothing |
| DiscReadMaps.DiscReadMap.Absorb | src/integrity_state.cpp:190-198 | the restarting search ends, and joins everything the new region touches and nothing else |
| DiscReadMaps.JoinMarks | src/integrity_state.cpp:192-196 | joining touching regions marks what the two marked |
| DiscReadMaps.FactsConsistent | src/integrity_state.cpp:11-26 | the facts of one read never contradict each other |
| Utf8s.ValidUtf8 | src/ui_bundle.cpp:47-69 | accepts exactly the texts that encode some sequence of Unicode scalar values |
| Utf8s.EncodingUnique | src/ui_bundle.cpp:47-69 | no text has two readings |
| Utf8s.BoundedText | src/presentation_model.cpp:16-26 | valid text is cut to a valid prefix of at most 256 bytes and, when cut, at least 252; the result is what is left of the first 256 bytes without trailing continuation bytes and their lead |
| Utf8s.CutIsLongestIff | src/presentation_model.cpp:20-25 | the cut is the longest valid one exactly when byte 255 is ASCII or byte 256 continues a character |
| Utf8s.CutMayDropFittingCharacter | src/presentation_model.cpp:20-25 | a text cut to 254 bytes whose first 256 were valid |
| Crc32.CrcSeesOneByte | src/artist_background_image.cpp:206-214 | texts that differ in one byte have different checksums |
| Crc32.ComputeCrc | src/artist_background_image.cpp:206-214 | the register loop computes the checksum |
| Crc32.CrcOfEnd | src/artist_background_image.cpp:206-214 | the checksum of the empty IEND chunk is the one every PNG image ends with |
| PngAdmission.AdmittedPng | src/artist_background_image.cpp:217-267 | accepts exactly the signature followed by encodings of chunks that obey the declared rules |
| PngAdmission.FollowsIffLegal | src/artist_background_image.cpp:234-264 | the flags decide exactly the declared order and field rules |
| PngAdmission.ImageUnique | src/artist_background_image.cpp:222-233 | an image has one reading as chunks |
| PngAdmission.CrcTamperRejected | src/artist_background_image.cpp:231-232 | changing any one byte of a chunk's type or data loses admission |
| JpegScript.CheckCounts | src/artist_background_image.cpp:140-148 | the `available` loop accepts exactly counts with a Kraft sum strictly below 1 and 1 to 256 symbols |
| JpegScript.ChainFalls | src/artist_background_image.cpp:184-187 | every coefficient is refined by a chain that starts fresh and falls by exactly 1 |
| JpegScript.ScanBound | src/artist_background_image.cpp:155-198 | a legal script has at most 3584 scans |
| JpegTables.ReadFrame | src/artist_background_image.cpp:103-118 | a frame header is taken once, exactly when its sizes, sampling factors and identifiers are legal |
| JpegTables.ReadQuantizers | src/artist_background_image.cpp:119-133 | a quantizer segment is taken exactly when it is whole 8-bit tables without zeros that keep what a progressive scan has used |
| JpegTables.ReadHuffman | src/artist_background_image.cpp:134-151 | a Huffman segment is taken exactly when it is whole tables with usable counts |
| JpegTables.ReadScan | src/artist_background_image.cpp:155-198 | a scan header is taken exactly when it is legal after the script so far, and then extends it |
| JpegAdmission.ReadSegment | src/artist_background_image.cpp:96-201 | a segment is taken exactly when it is legal behind the items before it |
| JpegAdmission.ReadRestart | src/artist_background_image.cpp:81-86 | a restart marker is taken exactly when an interval is set, data came before it and its number is next |
| JpegAdmission.AdmittedJpeg | src/artist_background_image.cpp:50-204 | admits exactly the images whose bytes fall into legal items (segments, restart intervals) and reach every component's DC; their scans form a legal script of at most 3584 |

## Left out

- CaptureResults.ResultIsDisc: the step system does not hold the input model and the consumer as objects; that they
  take a disc's blocks and hand back its manifest is shown of the classes, by `CaptureDrives.Capture`,
  `CaptureDrives.ConsumedIsDisc`, `Fingerprints.Digest` and `PcmInputs.CompletePcmInput.Prepare`.
- CaptureDrives.Capture: repeat mode; in single-read mode `ReaderStack.SingleBlockAdmissible` says the same of one block.
- PlaybackEngines.PlaybackEngine.Tick: the wall clock is a parameter (`stalled`); wait times and log lines are not
  modelled, and a sink reset that fails while stopping a stalled stream is not reported as a further error.
- PcmWorkers.PcmWorker: the thread's own part of the state is ghost and moves in `Interfere`; the access coordinator
  around its device calls, the event queue and diagnostics other than the history ring are not modelled.
- CompletePcmWorkers.CompletePcmWorker: memory statistics and copied counters of the status are not modelled, epochs
  and tickets do not wrap at 64 bits, and the waiting flag is cleared together with the refresh of its section.
- PcmInputs.CompletePcmInput: read statistics (`observe_read` and the recovered and uncertain counters) are not kept;
  a callback may do nothing but call this object or throw.
- Sha256Consumers.Sha256Consumer: the digest functions never fail.
- LowerReaders.LowerReader: the repeated reader sits on a drive, or on an offset reader over one, as the worker stacks
  them; the guard between them is a drive that may throw at any call.
- WebP admission: a third parser of the same kind, which would only add easy members.
- `make_read_evidence`: only the status and the facts derived from it.
- ioctl, SG_IO, ALSA, CEC, sysfs, libcurl, libwebsockets, libcdio, libdiscid, OpenSSL: foreign calls, answered arbitrarily.
- HTTP and WebSocket server, JSON beyond the offset window, user interfaces, `main.cpp`: plumbing.
- Metadata, artwork, enrichment, caches and settings: network and file system behaviour.
- `MediaWorker`, the C2 assessment session, the metadata and artwork workers, the diagnostics publisher: the same
  pattern of generations as the PCM worker, and easier.
- Wall-clock accuracy, scheduling and weak memory: an arbitrary clock, and steps that are atomic at lock boundaries.
