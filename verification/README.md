# Verified model of the mkvcodec native core

This project models the parts of mkvcodec that are hardest to get right by inspection, and proves what
they promise: the asynchronous encoder session, buffer leases and recycling on the CPU and the GPU,
decoder prefetch, the EBML header rewrite, the exclusive timer stack, frame processing and packed pixel
conversion, the packet reader, and two build-time graph algorithms. Codecs, drivers, libwebm, libyuv and
files are oracles: they may answer anything, and the proofs hold for every answer.

`dafny verify dfyconfig.toml` checks everything.

## How it is built

Where the source updates objects step by step, the model has a class whose methods do the same to the
same fields, and each method is proved equal to a function on the object's abstract state. A concurrent
protocol is then a state machine over those functions: one event is one critical section (from taking
the lock, or waking up in a wait, to releasing it or going back to sleep), any number of threads run in
any order, and the backend may succeed, fail or throw. An event that is not possible changes nothing, so
a theorem about every sequence of events is a theorem about every run. Loops and in-place algorithms are
methods proved against a specification, and what the source promises is proved about the specification.

| file | part of the program |
|---|---|
| `EncoderSections.dfy`, `EncoderSession.dfy` | the encoder session: its critical sections as functions, and as methods on its fields |
| `EncoderMachine.dfy`, `EncoderInvariant.dfy` | producers, flushers, closers and the worker running together; what every step keeps |
| `EncoderCalls.dfy`, `EncoderAnswers.dfy` | which way a call can go from its start, and what it is told in every state of the session |
| `EncoderSafety.dfy`, `EncoderProgress.dfy`, `EncoderReturns.dfy` | what every run guarantees; no deadlock, the exit of the worker, and when calls return |
| `SlotTable.dfy`, `CpuFramePool.dfy`, `LeaseMachine.dfy`, `PoolWaiters.dfy` | native CPU buffers, their leases and borrowed submissions, and the acquirers that wait for a slot |
| `BorrowedSlots.dfy` | the encoder session and the CPU pool running together |
| `GpuFrame.dfy`, `GpuFramePool.dfy`, `GpuMachine.dfy` | GPU frames, handles, the pool and external imports |
| `DecoderPrefetch.dfy`, `PrefetchMachine.dfy`, `PrefetchReturns.dfy` | the prefetching decoder against the synchronous one, and when reads and stops return |
| `Ebml.dfy`, `ContainerHeader.dfy` | variable-size integers, the header parser and the WebM-to-Matroska rewrite |
| `TimerStack.dfy` | exclusive component timers |
| `FitGeometry.dfy`, `FrameTransform.dfy`, `FrameCopy.dfy`, `FrameProcessor.dfy`, `FrameResults.dfy` | crop, turn, flip and fit of one frame, and what the configuration alone says of the result |
| `PackedConversion.dfy` | striped and vector-packed pixel conversion |
| `PacketCursor.dfy` | the resumable packet reader and the frame counter |
| `StructOrder.dfy`, `PeClosure.dfy` | struct dependency ordering and PE import closure |
| `Results.dfy` | result codes and options |

## What the proofs found

Several promises hold only under a condition. What follows says which, and "if and only if" means that
both directions are proved for all inputs; each comes with an input or a run where the promise fails.

* Prefetched reads return what synchronous reads return if and only if the backend repeats its first
  answer that is not a frame, as it does at the end of a stream (`RefinesSyncIff`). The prefetch worker
  stops at that answer and repeats it; a synchronous read asks the backend again, which after a damaged
  packet goes on with the next one (`StumblingDiffers`). In every case the k-th delivered result is
  fixed by the backend's answers alone (`PrefetchDelivers`).
* From a reachable state every started call of a session returns, whatever the scheduler and the backend
  do, if and only if, while the worker can be joined, at most one of the calls is a close that has not
  passed its join; and so for reads and stops of a prefetching decoder (`EncoderReturns.EveryCallReturns`,
  `PrefetchReturns.EveryReadReturns`). Nothing in the code excludes two such closes or stops
  (`TwoClosersOverlap`, `TwoStopsOverlap`), and two joins of one thread at the same time have no meaning.
  Where calls keep starting, the worker still exits after a close or a cancel, and then every call
  returns, each after a number of its own moves that is known beforehand (`EncoderProgress.WorkerExits`,
  `CallExits`, `PrefetchReturns.WorkerExits`, `CallEnds`).
* The start of a row in a frame copy is a product of two unsigned 32-bit numbers. A crop, a contained
  frame and a covering frame are each copied as intended if and only if the offset of the first row is
  below 2^32 (`CopyExactIff`, `CropExactIff`, `ContainExactIff`, `CoverExactIff`). A frame of 2 by 32
  covering an output of 32768 by 2 shows row 131070 of the scaled frame instead of row 262142
  (`CoverShowsWrongRow`).
* In cover mode the side computed from the aspect ratio is cut to 32 bits. The scaled size is the
  intended one if and only if the uncut side is below 2^32 (`ScaledIsIdealIff`); `CoverMayFail` is an
  input where the scaled frame is smaller than the output. With sides up to 32768 the uncut side stays
  below 2^32 (`SmallSidesFit`), although the row offset above may not.
* The starts of the stripes of a packed conversion are products of two `int` numbers. A conversion has a
  result if and only if those products, and the counts they come from, fit in 32 bits, which picture,
  stride and parallelism decide before it starts: with several workers the start of the last stripe does
  (`ConvertPacked`, `LastStripeStarts`, `LastStripeDecides`). BGRA of 1280 by 4096 into rows of one mebibyte
  is converted by one worker, and overflows with two (`WideRowsOverflow`).
* A size field of width 8 is guarded against 64-bit overflow only, while it carries 56 bits, so a larger
  value is written over the marker. A written size reads back if and only if it is below 2^(7 * width)
  (`SizeReadsBack`, `TooWide`, `TooWideReadsZero`). The reader gives no special meaning to the all-ones
  size that section 6 of RFC 8794 reserves; the guard keeps the writer from it below width 8, and at
  width 8 the value 2^56 - 1 is written as it (`ReservedAtEight`).
* Finalizing a Matroska file grows its header by four bytes and then checks it within a prefix of 4096
  bytes. The installed file reads as Matroska if and only if the grown header ends within that prefix
  (`InstalledReads`); a header that fills the prefix with padding is rewritten and installed, and only
  then reported as failed (`PaddedIsInstalledAndRejected`).
* A GPU frame queries its completions one after another before it is recycled. Each was seen done, and
  if none of them went back to pending since, all are done at once (`RecycledOnlyWhenSeen`). A callback
  completion may go back, and then a frame is recycled while its producer is pending
  (`SlippingRecycles`).
* A destroyed GPU frame has been recycled if and only if its destructor met none of the frame's own
  completions pending, and one it met had gone back to pending after the destructor waited for it
  (`DestroyedIsRecycledIff`). Otherwise the frame, and the pool slot it occupies, is unrecyclable for
  good (`LeakIsForever`, `WaveringLeaks`).

## Model

| member | source | states |
|---|---|---|
| EncoderSession.Impl.constructor | src/encoder_session.cpp:59-61 | A new session is idle and accepting, with one pooled frame for each queue place. |
| EncoderSession.Impl.ReserveFrame | src/encoder/encoder_queue_submission.cpp:36-60 | The second region: takes the front pooled frame, sleeps, rejects or returns an error, with the notifications of each case. |
| EncoderSession.Impl.PushOwned | src/encoder/encoder_queue_submission.cpp:70-100 | The third region: queues the frame and counts it, or hands it back, in the source's order of tests. |
| EncoderSession.Impl.EnqueueBorrowed | src/encoder/encoder_queue_submission.cpp:111-140 | Queues a borrowed frame with a new pending submission, or refuses it, in the source's order of tests. |
| EncoderSession.Impl.BeginFlush | src/encoder/encoder_queue_control.cpp:16-30 | Queues a barrier with the next token once there is a place for it. |
| EncoderSession.Impl.RecycleQueue | src/encoder/encoder_queue_control.cpp:55-60 | The cancellation loop completes every queued submission as cancelled and frees every queued frame, front to back. |
| EncoderSession.Impl.CancelAll | src/encoder/encoder_queue_control.cpp:45-66 | The whole new state of a cancellation, and that it wakes every waiter. |
| EncoderSession.Impl.FailQueuedSubmissions | src/encoder/encoder_worker.cpp:13-18 | Completes every queued submission with one code. |
| EncoderSession.Impl.TakeItem | src/encoder/encoder_worker.cpp:29-41 | The worker's wait: sleep, leave the loop, or take the front entry and wake producers. |
| EncoderSession.Impl.RecordFailure | src/encoder/encoder_worker.cpp:86-96 | A backend error completes the entry and all queued ones, empties the queue and ends acceptance, and nothing else changes. |
| EncoderSession.Impl.CommitItem | src/encoder/encoder_worker.cpp:68-113 | What the worker books for an entry, whether it succeeded or failed, and whom it wakes. |
| EncoderSession.Impl.FinishBackend | src/encoder/encoder_worker.cpp:121-134 | The worker's last region; a close error counts only if nothing failed before. |
| EncoderSession.Impl.HandleThrow | src/encoder/encoder_worker.cpp:135-162 | After a throw the active and all queued submissions fail as internal errors and the session is closed. |
| EncoderInvariant.InvNext | src/encoder/encoder_worker.cpp:22-163 | Every event, of any thread, with any backend answer, keeps the whole session invariant. |
| EncoderInvariant.InvFinal | src/encoder/encoder_worker.cpp:22-163 | The invariant holds after every run. |
| EncoderInvariant.LedgerCallStep | src/encoder/encoder_queue_submission.cpp:34-100 | No section of a call forgets, repeats or reorders an accepted entry, and the counters keep counting. |
| EncoderInvariant.PooledAdvanced | src/encoder/encoder_queue_submission.cpp:58-92 | Every section of a call keeps each pooled frame in exactly one place. |
| EncoderInvariant.OthersParked | src/encoder/encoder_queue_control.cpp:45-76 | Whatever wait predicate a section makes true for another sleeping call, it notifies that call. |
| EncoderInvariant.NotQueued | src/encoder/encoder_worker.cpp:33-35 | The submission the worker is on is not among the entries behind it. |
| EncoderInvariant.CompleteAllStatus | src/encoder/encoder_worker.cpp:13-18 | Completing a queue gives the code to exactly its pending submissions and changes no earlier result. |
| EncoderCalls.StartDecides | src/encoder/encoder_queue_submission.cpp:19-141 | In every run each call is on the way its start allows: what it was asked, whether its frame has the dimensions and layout, and whether it waits. |
| EncoderCalls.WrongFramesRefused | src/encoder/encoder_queue_submission.cpp:29-32 | Over every run a frame of the wrong dimensions, or a borrowed one of an invalid layout, is never queued and never takes a pooled frame, and its call returns only an error. |
| EncoderCalls.RecordIsCalls | src/encoder/encoder_queue_submission.cpp:70-140 | Over every run the record of accepted entries holds as many owned frames as owned submissions returned OK, as many borrowed ones as submissions were given out, and as many barriers as flushes began. |
| EncoderAnswers.FreshTakes | src/encoder_session.cpp:59-61 | A new session takes work, has a place for every frame and as many frames, each once. |
| EncoderAnswers.OwnedAlone | src/encoder/encoder_queue_submission.cpp:19-101 | An owned submission run alone from any state: its answer for every state of the session, and what becomes of the frame; it is accepted, as the last entry, exactly if the session takes work, the dimensions match, there are a place and a frame, and the copy succeeds. |
| EncoderAnswers.PushTells | src/encoder/encoder_queue_submission.cpp:70-100 | The same for a submission whose frame is already copied, with the session in whatever state it is by then. |
| EncoderAnswers.BorrowedAlone | src/encoder/encoder_queue_submission.cpp:103-141 | A borrowed submission run alone: its answer for every state; it is accepted exactly if dimensions and layout are right, the copy policy allows it, the session takes work and there is a place. |
| EncoderAnswers.FlushTells | src/encoder/encoder_queue_control.cpp:15-30 | A flush queues a barrier with the next token exactly if the session takes work and there is a place, and then waits for it. |
| EncoderAnswers.FlushEndTells | src/encoder/encoder_queue_control.cpp:31-42 | A waiting flush returns the failure, else the cancellation, else OK once its token is completed, and otherwise sleeps again. |
| EncoderAnswers.CancelTells | src/encoder/encoder_queue_control.cpp:45-66 | A cancellation in time returns OK, gives exactly the queued pending submissions the code, empties the queue and loses no frame. |
| EncoderAnswers.LateCancelTells | src/encoder/encoder_queue_control.cpp:45-53 | A cancellation that comes too late changes nothing, and returns OK after a close or a cancellation, else the failure. |
| EncoderAnswers.CloseAlone | src/encoder/encoder_queue_control.cpp:78-84 | A close that joins alone after the worker has exited returns the failure if there is one, else OK, and changes nothing else. |
| EncoderAnswers.SuccessTells | src/encoder/encoder_worker.cpp:97-112 | After the backend took an entry its frame is free again, or its submission is OK, or its barrier completed, and nothing else has changed but the count. |
| EncoderAnswers.FailureTells | src/encoder/encoder_worker.cpp:84-96 | After the backend refused one exactly that entry's and the queued pending submissions have its code, the queue is empty, and the session reports that code. |
| EncoderAnswers.ShutTells | src/encoder/encoder_worker.cpp:121-134 | The code of the backend's close is reported only if nothing failed before. |
| EncoderAnswers.ThrowTells | src/encoder/encoder_worker.cpp:135-162 | After a throw the entry the worker was on and all queued ones have failed as internal errors, and no earlier result has changed. |
| EncoderAnswers.FailedByBackend | src/encoder/encoder_worker.cpp:84-134 | Over every run the session has failed exactly if the backend once answered other than OK, and it reports the first such answer, or an internal error if the last was a throw. |
| EncoderAnswers.PeakIsHighWater | src/encoder/encoder_queue_submission.cpp:97-98 | Over every run the reported peak is the longest the queue was just after a frame was accepted. |
| EncoderSafety.BackendOrder | src/encoder/encoder_worker.cpp:29-112 | Over every run the backend is asked for accepted entries only, each once and in acceptance order, and for at most one after the last success. |
| EncoderSafety.FlushBarrier | src/encoder/encoder_queue_control.cpp:15-43 | When a flush returns OK, everything accepted before it began was written successfully, and its own barrier was flushed after that. |
| EncoderSafety.SubmissionResult | src/encoder/encoder_worker.cpp:86-111 | A submission is pending exactly while its entry is queued or with the backend, is OK exactly if its write succeeded, and never pending once the worker has exited. |
| EncoderSafety.FirstResultKept | src/encoder/cpu_submission.cpp:9-17 | The first result of a submission is its result in every continuation of the run. |
| EncoderSafety.Conservation | src/encoder/encoder_worker.cpp:82-111 | Free, queued, held and active frames add up to the capacity until a failure and never exceed it; accepted is completed plus queued plus active plus discarded; the queue stays bounded. |
| EncoderSafety.FrameExclusive | src/encoder/encoder_queue_submission.cpp:58-94 | A frame one call is filling is not free, queued, with the worker, or held by another call. |
| EncoderSafety.NoLostWakeup | src/encoder/encoder_queue_submission.cpp:43-46 | After every run, whoever sleeps waits for a condition that does not hold. |
| EncoderSafety.OrderlyClose | src/encoder/encoder_queue_control.cpp:68-85 | If the worker has exited without failure or cancellation, everything accepted was handled successfully, in order. |
| EncoderSafety.RefusedForGood | src/encoder/encoder_queue_submission.cpp:12-28 | Once a call would be refused, it and every later one is refused in every continuation of the run, and nothing more is accepted. |
| EncoderSafety.CloseTells | src/encoder/encoder_queue_control.cpp:68-85 | When a close returns the worker is gone and no submission is pending; it returns OK only if everything accepted was handled, in order, or the session was cancelled. |
| EncoderSafety.OwnedAccepted | src/encoder/encoder_queue_submission.cpp:70-100 | An owned submission returns OK exactly if its frame was queued, and otherwise its frame is free again. |
| EncoderSafety.PatienceKept | src/encoder/encoder_queue_submission.cpp:36-92 | A blocking submission is never counted as rejected, a non-blocking one never sleeps, and a rejection reports that it would block. |
| EncoderProgress.HolderReady | src/encoder/encoder_queue_submission.cpp:43-46 | When producers wait for frames and the queue is empty, some call holds a frame and can go on. |
| EncoderProgress.NoDeadlock | src/encoder/encoder_queue_submission.cpp:34-100 | In every reachable state with a call that has not returned, some thread can move, unless two closes are joining the worker at once. |
| EncoderProgress.SectionDescends | src/encoder/encoder_queue_submission.cpp:43-76 | A section either finds its wait not over and changes nothing, or uses up part of a measure. |
| EncoderProgress.ProgressDescends | src/encoder/encoder_worker.cpp:25-134 | Every move of any thread lowers a well-founded measure. |
| EncoderProgress.SettlesIffAlone | src/encoder/encoder_queue_control.cpp:68-85 | A run without further calls settles, with all calls returned, every submission decided and the worker gone after a close, cancel or failure, if and only if no two closes ever join the worker at once. |
| EncoderReturns.EveryCallReturns | src/encoder/encoder_queue_control.cpp:68-85 | From every reachable state: under every scheduler and backend the run settles, if and only if, while the worker can be joined, at most one call is a close that has not passed its join. |
| EncoderReturns.CallExits | src/encoder/encoder_queue_submission.cpp:21-100 | After the worker has exited every call, old or new and however many others start, never sleeps, can move unless its join overlaps another, and returns after at most six of its own moves. |
| EncoderProgress.TwoClosersOverlap | src/encoder/encoder_queue_control.cpp:78-78 | A run in which two closes join the worker at once. |
| EncoderProgress.WorkerExits | src/encoder/encoder_worker.cpp:25-134 | After a close or a cancel the worker never sleeps again and exits within a number of its own moves known beforehand, even while further calls keep starting. |
| SlotTable.FirstFree | src/cpu_frame_pool.cpp:130-134 | The first slot that is not in use, or none exactly if all are. |
| CpuFramePool.NativePool.constructor | src/cpu_frame_pool.cpp:105-123 | A new pool has every slot free at generation zero and the geometry asked for. |
| CpuFramePool.NativePool.HasFreeSlot | src/cpu_frame_pool.cpp:130-134 | The wait predicate: true exactly if some slot is free. |
| CpuFramePool.NativePool.AcquireSlot | src/cpu_frame_pool.cpp:126-166 | Leases the first free slot under its next generation, waits, or is turned away with the code that fits the timeout; slots and counters before and after. |
| CpuFramePool.NativePool.ViewSlot | src/cpu_frame_pool.cpp:168-192 | A view is given exactly for the current generation of a slot in use, and shows all planes of that slot with their strides; anything else is an invalid state. |
| CpuFramePool.StridesExact | src/cpu_frame_pool.cpp:91-94 | For every geometry the factory accepts, the strides of a view are those of its format, byte for byte, not shortened by 32 bits, one for each plane. |
| CpuFramePool.ViewsApart | src/cpu_frame_pool.cpp:186-189 | The views of two slots have a plane in common if and only if it is the same slot. |
| CpuFramePool.NativePool.RecycleSlot | src/cpu_frame_pool.cpp:194-209 | Frees the slot only for its current generation and keeps that generation; anything stale changes nothing. |
| CpuFramePool.CpuSubmission.Complete | src/encoder/cpu_submission.cpp:9-17 | Only the first completion counts, and it gives up the owner's reference. |
| CpuFramePool.CpuSubmission.Query | src/encoder/cpu_submission.cpp:24-35 | Pending exactly without a result; complete exactly for OK; cancelled exactly for that code; failed for every other. |
| LeaseMachine.InvNext | src/c_api_cpu_submission.cpp:49-82 | Acquisition, submission, completion, handing over and release, in any interleaving, keep reference counts, slots and counters in agreement. |
| LeaseMachine.LeaseEnded | src/cpu_frame_pool.cpp:55-57 | The end of a lease frees its slot and no other lease's. |
| LeaseMachine.PendingPinsSlot | src/c_api_cpu_submission.cpp:74-81 | In every reachable state the slot of a pending submission is leased to it, under its generation, and no other live lease has that slot. |
| LeaseMachine.NeverReacquired | src/cpu_frame_pool.cpp:145-161 | No acquisition in any reachable state hands out the slot of a pending submission. |
| LeaseMachine.RecycledOnce | src/cpu_frame_pool.cpp:194-209 | A lease is recycled at most once, and exactly when neither the caller nor a submission refers to it; the pool's counter is the number of busy slots and of live leases. |
| LeaseMachine.AllReturned | src/encoder/cpu_submission.cpp:9-17 | Once every submission has its result and the caller has dropped its handles, no slot is in use. |
| BorrowedSlots.OpenEntryPinsSlot | src/c_api_cpu_submission.cpp:49-82 | In every run of session and pool together, the slot behind a borrowed entry that is queued or with the backend is leased under the generation it was submitted with, and no other live lease has it. |
| BorrowedSlots.OpenPlanesUnshared | src/c_api_cpu_submission.cpp:59-75 | So no other live lease shows its holder a plane that the backend may still read. |
| BorrowedSlots.SlotsComeBack | src/encoder/encoder_worker.cpp:86-162 | When the worker has exited, however it did, all results are delivered and all handles dropped, no slot is in use. |
| BorrowedSlots.QueryTells | src/encoder/cpu_submission.cpp:24-35 | In every run of session and pool together a query reports a submission complete exactly if its result has reached it and the backend wrote its frame successfully, and pending as long as its entry is queued or with the backend. |
| PoolWaiters.NoLostSlot | src/cpu_frame_pool.cpp:126-209 | After every run of acquirers and givers, while some acquirer sleeps there are at least as many awake ones as free slots, and an awake one that tests the pool gets a slot if there is one; so no one sleeps beside a free slot for good. |
| PoolWaiters.GiveBackWakes | src/cpu_frame_pool.cpp:194-209 | In every reachable state giving a slot back frees one slot and wakes one sleeper if there is any. |
| DecoderPrefetch.Decoder.constructor | src/decoder/decoder_prefetch.cpp:79-81 | A decoder starts with an empty queue and no result. |
| DecoderPrefetch.Decoder.StoreResult | src/decoder/decoder_prefetch.cpp:38-60 | The worker's second region: queue the frame, or record the final result, or drop either after a stop. |
| DecoderPrefetch.Decoder.ReadPrefetched | src/decoder/decoder_prefetch.cpp:96-117 | A read returns the closing error, the front frame or the final result, in that order, or sleeps. |
| PrefetchMachine.InvFinal | src/decoder/decoder_prefetch.cpp:21-117 | The invariant of readers, stoppers and the worker holds after every run. |
| PrefetchMachine.PrefetchDelivers | src/decoder/decoder_prefetch.cpp:21-117 | In every interleaving the k-th delivered result is the k-th answer of the backend, or its first answer that is not a frame if that came before; the queue stays within capacity; accepted is completed plus queued until a stop. |
| PrefetchMachine.RefinesSyncIff | src/decoder/decoder_sync_read.cpp:21-40 | For every backend: all runs deliver what synchronous reads return if and only if the backend repeats its first answer that is not a frame. |
| PrefetchMachine.StumblingDiffers | src/decoder/decoder_sync_read.cpp:21-40 | A backend and a run with the answers of that backend, where the third prefetched read repeats an old failure and the third synchronous read returns a frame. |
| PrefetchMachine.StopTells | src/decoder/decoder_prefetch.cpp:83-107 | From the join of a stop on every read is refused, and after the stop the worker is gone and the queue empty. |
| PrefetchReturns.ReadTells | src/decoder/decoder_prefetch.cpp:96-117 | A read is refused after a stop, else gets the oldest queued frame, else the final result, else sleeps. |
| PrefetchReturns.PeakIsLongest | src/decoder/decoder_prefetch.cpp:38-60 | Over every run the reported peak is the longest the queue has been. |
| PrefetchMachine.NoDeadlock | src/decoder/decoder_prefetch.cpp:24-103 | In every reachable state with a read or stop that has not returned, some thread can move, unless two stops are joining the worker at once. |
| PrefetchMachine.OverIffAlone | src/decoder/decoder_prefetch.cpp:83-117 | A run without further calls ends with all calls returned if and only if no two stops ever join the worker at once. |
| PrefetchReturns.EveryReadReturns | src/decoder/decoder_prefetch.cpp:83-117 | From every reachable state: under every scheduler and backend every started read and stop returns, if and only if, while the worker can be joined, at most one of them is a stop that has not passed its join. |
| PrefetchReturns.CallEnds | src/decoder/decoder_prefetch.cpp:83-117 | Once a stop was requested or the final result is there, no read sleeps, and every read and stop, however many others start, returns after at most four of its own moves; only a join waits for the worker. |
| PrefetchReturns.WorkerExits | src/decoder/decoder_prefetch.cpp:21-60 | After a stop the worker exits after at most two of its own moves, whatever else starts. |
| PrefetchMachine.TwoStopsOverlap | src/decoder/decoder_prefetch.cpp:91-91 | A run in which two stops join the worker at once. |
| GpuFrame.GpuFrameCore.CompletionsDone | src/gpu/gpu_frame.cpp:130-137 | Whatever the queries answer in turn: true exactly if there is a producer and none of the queries is answered with pending, and nothing is asked after the first that is. |
| GpuFrame.GpuFrameCore.MaybeRecycle | src/gpu/gpu_frame.cpp:139-149 | Recycles, and runs the callback, exactly when not recycled, unleased, and no query of the loop is answered with pending. |
| GpuFrame.GpuFrameCore.AcquireExternal | src/gpu/gpu_frame.cpp:104-108 | A lease is added unless the core is recycled. |
| GpuFrame.GpuFrameCore.ReleaseExternal | src/gpu/gpu_frame.cpp:110-114 | Recycles, and has the callback run, exactly if the core was not recycled, this was its last lease if it had one, and no query is answered with pending; the lease is returned in any case. |
| GpuFrame.GpuFrameCore.AddConsumer | src/gpu/gpu_frame.cpp:116-128 | A null consumer and a recycled core are refused with their codes; otherwise the consumer is added at the end. |
| GpuFramePool.FramePool.constructor | src/gpu/gpu_frame_pool.cpp:8-8 | A new pool has every slot free at generation zero. |
| GpuFramePool.FramePool.AcquireSlot | src/gpu/gpu_frame_pool.cpp:10-36 | Takes the first free slot under its next generation, or reports a full or invalid pool. |
| GpuFramePool.FramePool.RecycleSlot | src/gpu/gpu_frame_pool.cpp:57-64 | Frees the slot only for its current generation. |
| GpuMachine.InvNext | src/gpu/gpu_frame.cpp:87-193 | Acquisition, import, handles, consumers, completions, single queries of the loop, callbacks and destruction keep the invariant in any order. |
| GpuMachine.InvFinal | src/gpu/gpu_frame.cpp:87-193 | The invariant holds after every run. |
| GpuMachine.LeasesAreHandles | src/gpu/gpu_frame_c_api.cpp:28-39 | Leases are exactly the live handles, those being made and those whose lease is being returned; a frame with a live handle is never recycled or destroyed; the pool counts the frames that occupy a slot. |
| GpuMachine.RecycledOnlyWhenSeen | src/gpu/gpu_frame.cpp:130-149 | A step recycles a frame only with no lease left and after every completion was seen done in turn; each still is unless it has gone back to pending since it was seen, and if none has, none is pending. |
| GpuMachine.RecycledByQuery | src/gpu/gpu_frame.cpp:130-149 | No step but the last query of a loop recycles a frame. |
| GpuMachine.LoopAlone | src/gpu/gpu_frame.cpp:130-149 | A query loop that nothing interrupts ends, and recycles the frame exactly if no completion is pending. |
| GpuMachine.LastLeaseRecycles | src/gpu/gpu_frame.cpp:110-149 | In every reachable state, the return of a frame's last lease with nothing in between recycles it and makes its callback due exactly if none of its completions is pending, and that callback frees its slot. |
| GpuMachine.PollRecycles | src/gpu/gpu_frame.cpp:139-149 | So does asking an unleased frame again. |
| GpuMachine.ConsumerAwaited | src/gpu/gpu_frame.cpp:116-128 | An accepted consumer is queried and waited for, after all others. |
| GpuMachine.ReferencesCount | src/gpu/gpu_frame_c_api.cpp:28-39 | Over every run the references of a handle are one for its making and one for each retain, less its releases. |
| GpuMachine.AcceptTells | src/gpu/gpu_external_import.cpp:98-119 | An accepted import publishes its handle and arms its release. |
| GpuMachine.SlippingRecycles | src/gpu/gpu_frame.cpp:130-137 | A run in which a frame is recycled while its producer is pending, having gone back after it was queried. |
| GpuMachine.StageStep | src/gpu/gpu_frame.cpp:139-149 | The callback of a frame goes from not due to due to run, one stage a step, and runs only in its own step. |
| GpuMachine.CallbackOnce | src/gpu/gpu_frame.cpp:139-149 | Over every run the stages never go back, so the callback runs at most once. |
| GpuMachine.SlotFreedByOwner | src/gpu/gpu_frame_pool.cpp:43-47 | A slot in use under a generation is freed only by the callback of the frame that has that generation. |
| GpuMachine.ReleasedOnce | src/gpu/gpu_external_import.cpp:98-119 | An external release runs once if the import was accepted and its frame's callback ran, not before, and never if the import was refused. |
| GpuMachine.DestroyedIsRecycledIff | src/gpu/gpu_frame.cpp:87-102 | Over every run a destroyed frame has been recycled if and only if the destructor met none of its completions pending; one it met is a completion of this frame that had gone back after the destructor waited for it, so without that the frame is recycled. |
| GpuMachine.DestroyRecyclesIff | src/gpu/gpu_frame.cpp:95-101 | The query that ends a destructor recycles the frame exactly if the completion it asks is done. |
| GpuMachine.LeakIsForever | src/gpu/gpu_frame.cpp:95-101 | A frame destroyed without being recycled stays so, and a slot it occupies is never free again. |
| GpuMachine.WaveringLeaks | src/gpu/gpu_frame.cpp:55-60 | A run in which a completion goes back to pending ends with such a leaked slot. |
| Ebml.VintWidth | src/container_ebml.cpp:19-25 | The announced width is the one whose marker is the highest set bit of the first byte. |
| Ebml.ReadVint | src/container_ebml.cpp:17-31 | The reader loop computes the variable-size integer of section 4 of RFC 8794, and fails exactly where there is none. |
| Ebml.HeaderBuffer.WriteSize | src/container_ebml.cpp:86-96 | Stores the size field in place and changes no other byte, or refuses by the source's guard. |
| Ebml.SizeBytesValue | src/container_ebml.cpp:90-93 | The stored bytes, read as a big-endian number, are the value. |
| Ebml.SizeReadsBack | src/container_ebml.cpp:17-31 | An accepted size reads back with its width if and only if it is below 2^(7 * width), which the guard ensures for widths below 8. |
| Ebml.TooWide | src/container_ebml.cpp:87-94 | At width 8 every larger value is read back as something else. |
| Ebml.TooWideReadsZero | src/container_ebml.cpp:86-96 | An accepted width-8 value of 2^56 is read back as zero. |
| Ebml.AcceptedSizes | src/container_ebml.cpp:87-89 | The values the writer accepts, as a number for each width. |
| Ebml.ReservedAtEight | src/container_ebml.cpp:87-94 | An accepted size that fits its field is read back as the reserved all-ones size only at width 8, and there for 2^56 - 1. |
| ContainerHeader.Parse | src/container_ebml.cpp:35-67 | What is found lies in order inside the bytes. |
| ContainerHeader.ParseHeaderBytes | src/container_ebml.cpp:35-67 | The parser loop finds the first DocType element or fails, exactly as specified. |
| ContainerHeader.FindsFirst | src/container_ebml.cpp:45-65 | The element found is the first DocType: every whole element before it was none. |
| ContainerHeader.RewriteHeader | src/container_format.cpp:55-67 | Erase, insert and the two patches produce the rewritten header, and fail exactly if a size does not fit its field. |
| ContainerHeader.RewrittenBytes | src/container_format.cpp:55-67 | Every byte of the result: the two size fields and the value are new, everything before, between and after is old. |
| ContainerHeader.VintLocal | src/container_ebml.cpp:17-31 | Reading an integer depends only on the bytes it covers. |
| ContainerHeader.FindMoved | src/container_ebml.cpp:45-65 | Growing the DocType value by four moves nothing the search looks at before it. |
| ContainerHeader.RewriteParses | src/container_format.cpp:50-67 | The rewritten header followed by any tail parses as Matroska with the same field positions and sizes grown by four, exactly if the grown payload fits. |
| ContainerHeader.FinalizeSucceeds | src/container_format.cpp:46-97 | For both formats and every outcome of the file operations: when finalization succeeds, and which file it leaves. |
| ContainerHeader.InstalledReads | src/container_format.cpp:50-96 | A rewritten file reads as Matroska if and only if its grown header ends within the prefix the reader looks at. |
| ContainerHeader.PaddedIsInstalledAndRejected | src/container_format.cpp:90-96 | A valid WebM header padded to the prefix is installed in its rewritten form and then reported as failed. |
| ContainerHeader.ShortFinalized | src/container_format.cpp:46-97 | Byte for byte: the shortest WebM header, with any tail, becomes these sixteen bytes with the same tail. |
| TimerStack.ComponentTimerStack.PauseTop | src/pipeline_component_metrics.hpp:87-92 | A running entry stores its time and stops; a paused one is left alone. |
| TimerStack.ComponentTimerStack.OpenTimer | src/pipeline_component_metrics.hpp:118-128 | Opening pauses the enclosing timer and starts a new entry, or stays inactive without an accumulator or a free entry. |
| TimerStack.ComponentTimerStack.CloseTimer | src/pipeline_component_metrics.hpp:130-142 | Closing charges the entry, removes it and resumes the one below. |
| TimerStack.Run | src/pipeline_component_metrics.hpp:118-142 | After every run of opens and closes the active timers occupy the entries in order, at most 32, and only the innermost runs. |
| TimerStack.StepConserves | src/pipeline_component_metrics.hpp:87-142 | No open or close, at any depth, makes or loses measured time. |
| TimerStack.RunIsExclusive | src/pipeline_component_metrics.hpp:115-142 | For every nest of scopes each active one is charged its wall time less that of the active scopes inside it, in closing order. |
| TimerStack.ChargesAddUp | src/pipeline_component_metrics.hpp:115-142 | The charges of a nest add up to the wall time of its outermost active scopes. |
| TimerStack.OutermostConserved | src/pipeline_component_metrics.hpp:115-142 | All that one outermost scope and the scopes in it charge is exactly its wall time. |
| TimerStack.ActiveBelow32 | src/pipeline_component_metrics.hpp:118-121 | A timer with an accumulator is active exactly if fewer than 32 are. |
| TimerStack.BeyondCapacity | src/pipeline_component_metrics.hpp:120-120 | Scopes opened with all 32 entries taken charge nothing and leave their time to the last entry. |
| TimerStack.ChargesBounded | src/pipeline_component_metrics.hpp:82-92 | With a clock that never goes back every charge is between zero and the length of the run, so 64-bit durations do not wrap in shorter runs. |
| FitGeometry.ContainFits | src/frame_processor.cpp:82-99 | A contained frame has even sides, lies inside the output and touches two opposite sides; no bits are lost. |
| FitGeometry.CoverCovers | src/frame_processor.cpp:82-99 | A covering frame is at least as large as the output and shares one side with it, if the free side is below 2^32. |
| FitGeometry.ScaledIsIdealIff | src/frame_processor_i420.cpp:134-134 | The scaled size is the intended one if and only if the free side is below 2^32. |
| FitGeometry.SmallSidesFit | src/input_video_limits.hpp:12-12 | With sides up to 32768 the free side is always below 2^32. |
| FitGeometry.CoverMayFail | src/frame_processor.cpp:88-95 | A covering frame that comes out smaller than the output. |
| FitGeometry.AspectKept | src/frame_processor.cpp:88-95 | The free side differs from the exact aspect ratio by less than two, at every size, and is longer than the exact one only where it was raised to two. |
| FitGeometry.OffsetCentres | src/frame_processor.cpp:109-115 | The offset is even, keeps the smaller extent inside, and centres it to within two, without wrap-around. |
| FrameTransform.SpotsCorrespond | src/frame_processor.cpp:44-70 | Result positions and cropped source positions correspond one to one, each map undoing the other. |
| FrameTransform.VerticalFlip | src/frame_processor.cpp:63-70 | A half turn followed by a mirror reverses the rows and nothing else. |
| FrameTransform.QuarterTurns | src/frame_processor_i420.cpp:73-79 | Turns by 180 and 270 degrees are repeated quarter turns, and four of those change nothing. |
| FrameTransform.ChromaAligned | src/frame_processor_i420.cpp:51-64 | For even plans halving a position commutes with the map, so chroma stays with its luma. |
| FrameTransform.TurnPictures | src/frame_processor_i420.cpp:73-93 | A turned plane shows the source through the plan with that turn. |
| FrameTransform.FlipPictures | src/frame_processor.cpp:63-70 | A vertically flipped plane shows the source through the plan with that flip. |
| FrameCopy.CopyExactIff | src/frame_processor_i420.cpp:51-64 | A copy between planes moves the intended rectangle, for all contents, if and only if the row offsets of source and destination are below 2^32. |
| FrameCopy.CopyInside | src/frame_processor_i420.cpp:51-64 | No copy reads or writes beyond its planes, whether or not an offset wraps. |
| FrameProcessor.CheckCrop | src/frame_processor.cpp:32-42 | The guard, with wrapping 32-bit subtraction, accepts exactly the even nonempty rectangles inside the frame. |
| FrameProcessor.Transform | src/frame_processor.cpp:44-70 | There is no result exactly if the pixel library fails on a step of the plan; otherwise turning and flipping show the cropped frame, and with a crop offset below 2^32 the source, through one map, chroma through the halved one. |
| FrameProcessor.CropExactIff | src/frame_processor_i420.cpp:66-71 | For every frame and crop: the crop shows the named rectangle for all contents if and only if the offset of its first row is below 2^32. |
| FrameProcessor.FitFrame | src/frame_processor.cpp:72-123 | Every output sample: stretched, or copied onto the background or from the scaled frame, and so placed or cut as intended if the row offset is below 2^32; or the error, also where the pixel library fails; or a copy outside the scaled frame. |
| FrameProcessor.ContainExactIff | src/frame_processor.cpp:107-111 | A contained frame is placed where it belongs, for all contents, if and only if the offset of its first row in the output is below 2^32. |
| FrameProcessor.CoverExactIff | src/frame_processor.cpp:112-116 | A covering frame is cut where it should be, for all contents, if and only if the offset of the first row shown is below 2^32. |
| FrameProcessor.CoverShowsWrongRow | src/frame_processor.cpp:112-116 | A frame and output, with all sides at most 32768 and the free side below 2^32, for which the wrong row is shown. |
| FrameProcessor.StraysOnlyBeyond32Bits | src/frame_processor.cpp:112-116 | The rectangle to be copied leaves the scaled frame only in cover mode with a free side of 2^32 or more. |
| FrameResults.ProcessFrame | src/frame_processor.cpp:10-124 | Each kind of bad request, and each failure of the pixel library, gets its error. Every produced frame shows, from the configuration alone and in every plane, the crop turned clockwise, mirrored, turned upside down, and then stretched, framed in the middle of the background or cut from the middle, if the crop offset is below 2^32. |
| FrameResults.FittedAs | src/frame_processor.cpp:72-123 | For each fit: size, ratio, place and samples of the result in terms of the scaled frame, with an output side of zero standing for the frame's. |
| FrameResults.LibraryCounts | src/frame_processor.cpp:44-70 | If an operation that the configuration asks for never works nothing is produced, and if all work no step fails. |
| FrameResults.FitCounts | src/frame_processor.cpp:72-123 | Without scaling, or without copying, there is an internal error wherever they are needed. |
| FrameResults.OnlyCropped | src/frame_processor.cpp:44-49 | With only a crop the result is the rectangle from the crop's corner on. |
| FrameResults.OnlyTurned | src/frame_processor_i420.cpp:73-93 | With only a turn by 90 degrees the left column, from the bottom up, becomes the top row; by 270 degrees the right column, from the top down. |
| FrameResults.OnlyMirrored | src/frame_processor.cpp:56-62 | With only a horizontal flip every row is reversed. |
| FrameResults.OnlyUpsideDown | src/frame_processor.cpp:63-70 | With only a vertical flip the rows come in reverse order. |
| PackedConversion.PackRow | src/packed_pixel_conversion.cpp:27-41 | Vectors of any lane count and the scalar tail store three of every four bytes and touch nothing beyond the row. |
| PackedConversion.PackFourToThree | src/packed_pixel_conversion.cpp:20-43 | Every row is packed and no byte of the padding changes. |
| PackedConversion.StripeAligned | src/frame_conversion.cpp:86-91 | A stripe that starts on an even row finds the chroma row of the whole picture. |
| PackedConversion.PlainSamples | src/frame_conversion.cpp:86-92 | Which byte of a packed row is which channel of which pixel, and from which luma, u and v sample it is computed. |
| PackedConversion.PackingKeepsColors | src/frame_conversion.cpp:33-49 | Packing four-channel rows gives the rows of a direct three-channel conversion, for any pixel function. |
| PackedConversion.FillStripe | src/frame_conversion.cpp:33-61 | A stripe that succeeds holds its rows, with or without the packer; one that fails may have spoiled them, and no byte outside them changes. |
| PackedConversion.ConvertStripe | src/frame_conversion.cpp:33-62 | A successful stripe writes exactly its rows of the plain conversion; any stripe leaves the bytes outside its rows alone. |
| PackedConversion.PlanStripes | src/frame_conversion.cpp:83-95 | Stripes start at the multiples of the share of one worker, an even number of rows, follow one another without gap or overlap to the last row, and number at most the workers. |
| PackedConversion.PlannedOnce | src/frame_conversion.cpp:83-98 | Height and workers determine the stripes: any two plans are equal. |
| PackedConversion.LastStripeStarts | src/frame_conversion.cpp:86-87 | The last stripe starts at the last multiple of a share below the height. |
| PackedConversion.PaintedBoth | src/frame_conversion.cpp:88-97 | Writes to different rows of a strided buffer add up in any order. |
| PackedConversion.ConvertPicture | src/frame_conversion.cpp:83-100 | If every stripe offset fits in 32 bits, stripes finishing in any order combine to zero exactly if none failed, and then the destination is what one plain pass writes; in any case nothing outside the rows changes. |
| PackedConversion.ConvertPacked | src/frame_conversion.cpp:71-101 | The same for the whole operation at every size and worker count, with the one plan there is; it has no result if and only if a count, the four-channel row, or the offset of the last stripe does not fit in 32 bits. |
| PackedConversion.LastStripeDecides | src/frame_conversion.cpp:88-92 | All offsets of a plan fit in 32 bits if and only if those of its last stripe do. |
| PackedConversion.WideRowsOverflow | src/frame_conversion.cpp:86-92 | A picture and a stride whose conversion fits in 32 bits with one worker and not with two. |
| PackedConversion.SmallAlone | src/frame_conversion.cpp:74-81 | Below 1280 by 720 pixels one worker converts, whatever the stride; from there on more do. |
| PacketCursor.WebmPacketReader.ReadEntries | src/webm_packet_reader.cpp:111-139 | Within a cluster the reader takes the next item of its stream, fails where the parser does, or finds the cluster used up. |
| PacketCursor.WebmPacketReader.Read | src/webm_packet_reader.cpp:102-145 | A call returns the first item of what is left and leaves the rest; with nothing left it returns the end of the stream, or the parser's failure, every time. |
| PacketCursor.WebmPacketReader.ReadAll | src/webm_packet_reader.cpp:102-145 | Repeated calls return the items in order up to the first that is not a packet. |
| PacketCursor.StreamIsTrack | src/webm_packet_reader.cpp:102-145 | The stream is the selected track's frames flattened in order: all of them if the parser never fails, else a prefix. |
| PacketCursor.TrackMatches | src/webm_packet_reader.cpp:113-131 | The track's reads are, position by position, the stored frames of its blocks with the bytes they store and the time of their own block, and failures exactly for those that are empty, over 256 MiB or unreadable. |
| PacketCursor.ReadsToEndIff | src/webm_packet_reader.cpp:102-145 | Reading ends at the end of the stream exactly if the parser never fails and no frame is refused. |
| PacketCursor.CountEntries | src/input_video_probe.cpp:49-73 | Counts the entries of one cluster, or fails exactly on a parser failure, a negative count or an overflow. |
| PacketCursor.CountFrames | src/input_video_probe.cpp:46-75 | Succeeds exactly if the parser never fails, no count is negative and the total fits 64 bits, and then counts the stored frames of the track. |
| PacketCursor.ReadWhole | src/webm_packet_reader.cpp:102-145 | Reading from the start returns the stored frames of the track in order, each with its bytes and its block's time, up to the first refused one or a parser failure; at the end of the stream it has returned as many as are counted. |
| StructOrder.Pass | tools/generate_bindings.py:432-442 | One pass moves what uses nothing pending, or finds every pending structure blocked. |
| StructOrder.Order | tools/generate_bindings.py:427-446 | Returns all structures, each after those it names, or fails exactly if the uses have a cycle, a self-reference included. |
| StructOrder.CycleAmong | tools/generate_bindings.py:443-446 | Where every structure of a group uses one of the group there is a cycle. |
| StructOrder.SortedIsAcyclic | tools/generate_bindings.py:427-446 | A sorted order of all structures excludes every cycle. |
| PeClosure.Collect | tools/pe_dependencies.py:198-203 | The dictionary of files, or the first duplicate exactly if two names compare equal. |
| PeClosure.Visit | tools/pe_dependencies.py:212-217 | Queues exactly the packaged imports of a file and blames it for exactly the missing ones. |
| PeClosure.Explore | tools/pe_dependencies.py:204-217 | The worklist ends with exactly the files reachable from the roots, and the misses of exactly those. |
| PeClosure.Sorted | tools/pe_dependencies.py:227-227 | Lists a set of names once each, in ascending order. |
| PeClosure.BeforeIs | tools/pe_dependencies.py:227-227 | A name is before another exactly if it is a proper prefix, or has the smaller character at the first difference. |
| PeClosure.Assess | tools/pe_dependencies.py:204-227 | With distinct names: the missing imports of everything reachable, else the unreachable dependencies, else the names of the reachable files in the order of their folded names, each listed exactly. |
| PeClosure.VerifyClosure | tools/pe_dependencies.py:196-227 | Which of the five outcomes is returned, and exactly what it lists, the reached files in order and under their own names. |
| PeClosure.PassesIff | tools/pe_dependencies.py:218-227 | The check passes exactly if nothing reachable misses an import and every dependency is reachable. |

## Left out

- Codecs, hardware backends, libwebm, libyuv and Highway kernels: oracles that return any result; scaling returns any frame of the size asked for or fails, the other frame operations work or fail, and colour conversion is any function of one luma and two chroma samples.
- Files: headers and files are byte sequences; each file operation of a finalization succeeds or fails, but a partly written file is not modelled.
- Allocation failure, other than of a GPU handle, and C++ exceptions outside the backend calls.
- Spurious wakeups are modelled for safety, and excluded from `EveryCallReturns` and `EveryReadReturns`, where a thread that keeps waking up for nothing would otherwise count as a move. Those two start from any reachable state and exclude calls that start later: while the session is open such calls can take every free queue place before one that waits. `WorkerExits`, `CallExits` and `CallEnds` admit both.
- What two joins of one thread at the same time do: the source gives them no meaning, and in the model neither returns.
- The encoder session keeps its submissions in a table by number instead of in shared objects; their owners are the subject of the lease model, and the model of both delivers a result to its submission in a step after the one that decides it. The checks of copy policy before an owned submission are left out, and the check of a borrowed frame's layout may answer anything. A session with a queue size of zero, which works synchronously without a worker, is not part of the run theorems.
- 64-bit counters and generations of the session and the pools do not wrap in the model.
- Error texts, queue and backend time metrics, copy-edge metrics and test hooks.
- GPU completions have no class of their own: they are what the queries of a frame answer, and in the run model statuses that change at any time and may go back to pending.
- The failure of a GPU pool acquisition after its slot was taken, which gives the slot back at once.
- Bit operations of the EBML code are written as arithmetic.
- A stripe runs as one step, which is enough because stripes write different rows. What a conversion does whose offsets do not fit in 32 bits is undefined in the source, and has no result in the model.
- Frame planes are tightly packed, as the allocation in the frame processor makes them; other strides of a decoded source are not modelled.
- The conversion of the background colour to I420 samples is a parameter.
- FrameProcessor.FitFrame: a rectangle that leaves the scaled frame is an outcome of its own, because the source gives it no meaning.
- Packet reading starts from a parsed segment; the choice of the track and the opening checks are left out, and a null and an end-of-stream block entry are one case.
- Extraction of type names from C declarations, and the PE parser: both graph algorithms start from the extracted names.
- src/gpu/gpu_resource_pool.cpp repeats the slot and generation scheme of the CPU pool.
- The C ABI validation layer, language wrappers, probes, the backend registry, benchmarks and compliance tools.
