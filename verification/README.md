# peri-studio: the instance's delivery core and the voice client's audio path

Dafny model of the parts of peri-studio that carry state from event to event, with proofs of
what they keep. `dafny verify dfyconfig.toml` checks everything (Dafny 4.11).

## What is modelled

**The disconnect buffer** (`Frames`, `Sessions`, `SessionBuffer`, `Budget`, `BufferSpec`, `Buffer`
and the `Buffer*` theorem files). Each chat has frames in flight, a memory queue and an
append-only disk segment; one byte and frame budget is shared by all chats. `BufferSpec` says what
every operation does to the queues, without counters. The classes `SessionBuffer` and `Buffer` hold
the program's redundant counters and loops, and every method is proved to produce exactly the
specified state; their `Valid()` makes every counter equal to the sum it stands for, so no
subtraction is cut off. The theorems are about single operations: what each does to stores, limits and
frames (`BufferEffects`), to the queues (`BufferQueue`) and to the budgets (`BufferBudget`); about
eviction order (`BufferFairness`) and arbitrary operation sequences (`BufferRuns`).
Whether opening, appending to or reading a disk segment works is an input of every operation.
`DiskSegment` models one segment down to its bytes: length prefix, write buffer, skip cursor,
partial writes.

**The hub protocol** (`Hub`, `HubEffects`, `HubQueues`, `HubOrder`, `HubReconnect`, `HubEpochs`,
`HubRace`, `HubDaemon`, `ResyncTask`, `Watermark`). `Hub.dfy` is a machine with one step per stretch
of code between two awaits: stamping and forwarding a child frame, the live send that suspends the hub, process exit
and spawn, the transport's signals, one pass of the resync task, a batch send and its outcome,
crash and restart. Steps interleave freely; `HubEffects` says case by case what each one does. A send may be written and still reported as failed.
`HubDaemon` has the same steps as methods on mutable state, over the `Buffer` and `Watermark`
objects, each proved equal to its step; the resync loop as a whole is proved to be a run of the
machine (`ResyncTask.LoopIsRun`). Some state is history the program does not keep: which
epoch stamped a frame, what became of it (`Ledger`), what the current connection carries (`wire`)
and every number given out (`stamps`).

**The terminal host** (`TerminalHost`): the generation-guarded session table as a machine of lock
sections, and as a class. **The line reader** (`LineReader`): lines under a byte limit from any
pieces. **The audio path** (`Resample`, `Mic`, `Framing`): ring-buffer filter, integer and
fractional resampling, microphone pipeline and upload framing, in exact arithmetic.

## What the proofs found

These are places where the code does less than its comments suggest. The model follows
the code, and the exact condition under which the expected property holds is proved.

1. **A push can overtake older frames of its own chat.** `push` puts a frame into memory whenever
   memory has room, also while the chat still has records on disk, and `drain_batch` reads memory
   first. `BufferQueue.StoreAppendsIff` gives the exact guard, `BufferRuns.OverflowReorders` a run
   that pushes 1, 2, 3 and sends 1, 3, 2 with every file operation working.
2. **A frame between 512 KB and 1 MB is accepted and never replayed.** It exceeds the batch limit,
   so the chat stays in buffering mode (`ResyncTask.ResyncCompletesIff`,
   `ResyncTask.AcceptedFrameBlocksReplay`).
3. **The shared budget is not hard when disks cannot be read.** No eviction can touch a batch in
   flight or the records of an unreadable segment; call their sum the stuck share
   (`BufferBudget.Stuck`). A push from within the budget ends above it if and only if its frame is
   stored and the stuck share, with the frame if it goes to an unreadable segment, is above the
   budget (`BufferBudget.PushOverIff`). `BufferRuns.RunBoundedIff` and `HubQueues.TotalBudgetIff`
   carry the condition over every run. It holds whenever the chat's own segment can be read, whatever
   happens to the others (`BufferBudget.ReadableDiskIsHardBudget`).
4. **Numbers go down on the wire if a new connection is usable while the hub still uses the previous
   one.** A connection may come up exactly if the hub is not authenticated and no `Authenticated`
   waits for it (`HubReconnect.ConnectIsSafeIff`): then the wire stays sorted whatever follows, and
   otherwise some continuation of orderly steps breaks it. `HubRace.NewConnectionOvertakes` is a whole
   run in which 2 precedes 1.
5. **A failed watermark write is only logged.** If the daemon later dies before the record reaches
   the file, epochs and numbers are handed out twice. `HubEpochs.CrashIsSafeIff` is exact: a crash is
   harmless if and only if the file then covers every number given out. A file that does not
   parse counts as empty. `HubEpochs.FailedWriteReusesNumbers` is the shortest failing family.
6. **Deleting a segment file can fail silently.** A segment opened on a file that is not empty
   reads stale bytes: `DiskSegments.StaleFileMisreads`, an if-and-only-if.
7. **Limits of 0.** With a line limit of 0 a last line without a newline looks like the end of the
   stream (`LineReader.ReadLineBounded` says when). The framing loop ends if and only if the frame
   size is positive (`Framing.FramingEndsIff`); `PcmFramer::new` accepts sizes of 0, exactly when the
   wrapped product of rate and duration is below 1000 (`Framing.EmptyFramesIff`).
   `MicPipeline.PcmPipeline.PushInterleaved` and `Framing.Upload` report as `ended` whether they come
   to their end.

## Claims at await granularity

The runtime has several threads. The hub reads the `buffered` flag and pushes the frame in two
separate lock sections, and the machine treats the stretch between two awaits as one step. The
ordering and conservation claims about the hub are claims at that granularity.

## Model

| member | source | states |
|---|---|---|
| Sessions.VictimPriority | instance/src/buffer/session.rs:107-140 | memory gives up the oldest frame without a JSON-RPC envelope or without an id; only if every frame has both, the oldest of all |
| Sessions.EvictDeletesOne | instance/src/buffer/session.rs:147-167 | an eviction removes one frame of the combined queue outside the batch in flight, from memory by that priority, from disk the oldest and only if memory is empty; it keeps the order of the rest and lists what it dropped |
| Sessions.EvictConserves | instance/src/buffer/session.rs:107-167 | queue and drop list together hold the same frames before and after an eviction |
| Sessions.DropCounters | instance/src/buffer/session.rs:107-167 | one eviction counter counts exactly the dropped frames with a JSON-RPC envelope and an id, the other all others |
| SessionBuffers.SessionBuffer.EvictMemOne | instance/src/buffer/session.rs:107-140 | the in-place eviction with its counters drops exactly the specified frame and reports its size, or nothing if memory is empty |
| SessionBuffers.SessionBuffer.EvictAnyOne | instance/src/buffer/session.rs:147-167 | memory first, then a readable disk record; reports size and tier, and succeeds exactly if something can be given up |
| SessionBuffers.SessionBuffer.FrontSeq | instance/src/buffer/session.rs:80-97 | the start number: front of memory, else of the batch in flight, else of a readable disk |
| SessionBuffers.SessionBuffer.Admit | instance/src/buffer.rs:177-219 | memory if it fits, else disk; a failed open or append breaks the bucket for good and counts the frame as failed; all counters stay exact |
| SessionBuffers.SessionBuffer.Take | instance/src/buffer.rs:300-360 | the drain loop moves exactly the batch it returns behind the frames in flight and keeps every counter exact |
| SessionBuffers.SessionBuffer.ClearInFlight | instance/src/buffer.rs:365-374 | empties the batch in flight and reports its exact bytes and frames |
| SessionBuffers.SessionBuffer.PutBack | instance/src/buffer.rs:386-397 | the batch goes back in front of memory in its old order, with exact counters |
| Buffers.Buffer.EvictOne | instance/src/buffer.rs:238-266 | one round-robin eviction with exact global counters; reports false exactly when the specification finds no victim |
| Buffers.Buffer.Push | instance/src/buffer.rs:159-230 | the whole push on mutable buckets and counters is the specified push, whatever file operations fail |
| Buffers.Buffer.DrainBatch | instance/src/buffer.rs:289-361 | state and batch are the specified ones; a drain that yields nothing changes nothing |
| Buffers.Buffer.Commit | instance/src/buffer.rs:365-378 | releases exactly the batch in flight from bucket and budget |
| Buffers.Buffer.Rollback | instance/src/buffer.rs:386-404 | puts the batch back and trims memory; the eviction it asks for never fails |
| Buffers.Buffer.RollbackAll | instance/src/buffer.rs:408-418 | rolls back every bucket with a batch in flight exactly once, in some order |
| Buffers.Buffer.Remove | instance/src/buffer.rs:422-433 | a removed chat takes exactly its own share out of the global counters |
| Buffers.Buffer.HasPending | instance/src/buffer.rs:270-275 | true exactly if the chat's combined queue is not empty |
| Buffers.Buffer.HasAnyPending | instance/src/buffer.rs:278-280 | true exactly if some chat's combined queue is not empty |
| Buffers.EvictAtReleases | instance/src/buffer.rs:246-263 | no subtraction of an eviction is cut off: the dropped frame is within the totals, and the counters equal the sums afterwards |
| BufferEffects.TotalCountsAll | instance/src/buffer.rs:108-112 | the shared counters are the number of frames in all queues, batches in flight included, and the bytes of their bodies; the memory counters the same for memory |
| BufferEffects.PushAnswers | instance/src/buffer.rs:159-219 | too large exactly if the body exceeds the limit; refused exactly if the disk has failed before, or is needed and fails now; neither stores or evicts anything, and a failed disk stays failed |
| BufferEffects.PushStores | instance/src/buffer.rs:177-219 | any other frame goes behind memory exactly if both memory limits leave room, else behind the disk records; no other chat is touched |
| BufferEffects.NothingGivesIff | instance/src/buffer.rs:238-266 | an eviction finds nothing if and only if no chat has a frame in memory and, unless it is for memory only, none has a record that can be read |
| BufferEffects.EvictTakesOne | instance/src/buffer.rs:238-266 | an eviction takes one frame of one chat by the drop priority, counts it by its kind, and leaves every other chat as it was |
| BufferEffects.DrainYieldsIff | instance/src/buffer.rs:289-361 | whatever can be read: a drain yields a batch if and only if a start number can be had and the first frame it gets at fits |
| BufferEffects.DrainYields | instance/src/buffer.rs:289-361 | the batch is the longest prefix of memory and the records read before a failure, within both limits; the start number is of memory, else in flight, else disk |
| BufferEffects.RemoveForgets | instance/src/buffer.rs:422-433 | a removed chat is gone with all its frames; the others keep theirs, their order and the eviction cursor |
| BufferBudget.ScanFailsIff | instance/src/buffer.rs:238-266 | an eviction fails if and only if no bucket can give a frame |
| BufferFairness.RoundRobinIsFair | instance/src/buffer.rs:232-266 | between two evictions from one bucket, every other bucket that could give a frame all the while has given one |
| BufferQueue.StoreAppendsIff | instance/src/buffer.rs:183-215 | a stored frame newer than the queue goes to its end if and only if it is not put into memory in front of disk records |
| BufferQueue.AdmitConserves | instance/src/buffer.rs:177-215 | a stored frame joins the queue, a refused one the failed list and breaks the bucket; nothing else moves |
| BufferQueue.PushConserves | instance/src/buffer.rs:159-230 | after a push the pushed frame and every displaced one are queued or on a drop list, in every bucket; no batch in flight is touched |
| BufferQueue.PushAscending | instance/src/buffer.rs:159-230 | under the order guard the queue stays ascending and only the pushed frame can be new |
| BufferQueue.PushOthers | instance/src/buffer.rs:221-228 | a push only deletes frames of other chats, in order, and counts them |
| BufferQueue.BatchIsLongest | instance/src/buffer.rs:302-354 | a prefix is within the batch if and only if it is within both limits |
| BufferQueue.DrainKeepsView | instance/src/buffer.rs:289-361 | a drain leaves the combined queue as it is; the batch is a non-empty prefix of what was pending and moves behind the frames in flight |
| BufferQueue.DrainStartsAtFromSeq | instance/src/buffer.rs:299-360 | with nothing in flight the announced start is the first frame of the batch |
| BufferQueue.DrainIsLongestPrefix | instance/src/buffer.rs:289-361 | with readable disk and nothing in flight the batch is the longest prefix of memory ++ disk within both limits |
| BufferQueue.DrainStuckIff | instance/src/buffer.rs:302-357 | a non-empty queue yields no batch, with everything readable, if and only if its oldest frame exceeds the byte limit |
| BufferQueue.CommitDropsBatch | instance/src/buffer.rs:365-378 | a commit removes exactly the batch from the front of its queue and changes no other bucket |
| BufferQueue.RollbackThins | instance/src/buffer.rs:386-404 | a rollback changes queues only by counted evictions, in order, and clears only its own batch |
| BufferQueue.RollbackEachThins | instance/src/buffer.rs:408-418 | the same for rolling back many chats in any order |
| BufferQueue.RetryIsIdentical | instance/src/buffer.rs:289-404 | drain, rollback, drain gives the same start and batch if the restored batch fits the memory budget |
| BufferBudget.TrimMemFits | instance/src/buffer.rs:398-402 | the loop after a rollback always ends with memory bytes and frames within their limits |
| BufferBudget.RollbackLosslessIff | instance/src/buffer.rs:386-404 | a rollback loses no frame if and only if memory can take the restored batch |
| BufferBudget.RollbackKeepsBudgets | instance/src/buffer.rs:386-404 | a rollback ends within both memory limits and adds nothing to the shared usage |
| BufferBudget.PushKeepsMemBudget | instance/src/buffer.rs:159-230 | memory bytes and frames are within their limits after every push |
| BufferBudget.TrimTotalOverIff | instance/src/buffer.rs:221-228 | enforcing the shared budget ends within both limits, bytes and frames, if and only if what no eviction can touch (batches in flight, records of unreadable segments) is within them |
| BufferBudget.PushOverIff | instance/src/buffer.rs:159-230 | a push from within both shared limits ends above one if and only if it stores its frame and with it more is stuck than that limit allows; checkable before the call |
| BufferBudget.PushEvictsNeeded | instance/src/buffer.rs:221-228 | before each eviction of a push the buffer is above a shared limit, and it stops only within both or when nothing can be evicted |
| BufferBudget.PushWithinDropsNothing | instance/src/buffer.rs:221-228 | a push whose frame leaves the buffer within both shared limits drops no frame of any chat |
| BufferBudget.PushKeepsTotalBudget | instance/src/buffer.rs:221-228 | also when segments become unreadable during the call: a push ends above a shared limit only if memory is empty everywhere and a segment with records could not be read |
| BufferBudget.ReadableDiskIsHardBudget | instance/src/buffer.rs:221-228 | a push whose own segment can be read, or whose frame fits memory, ends within both shared limits, whatever the other segments do and even with batches in flight |
| BufferBudget.UnreadableDiskOverflows | instance/src/buffer.rs:221-228 | a smallest run that ends above the budget: two frames on one unreadable segment |
| BufferRuns.RunIsFifo | instance/src/buffer.rs:159-433 | over any run with the order guard, what a chat confirms as sent followed by what it holds is the initial queue and the pushes with some frames deleted and none reordered |
| BufferRuns.RunStaysAscending | instance/src/buffer.rs:159-433 | so frames pushed with growing numbers are sent with growing numbers |
| BufferRuns.RunConserves | instance/src/buffer.rs:159-433 | over any run, each pushed frame is in exactly one place: sent, queued, evicted or refused by a failed disk |
| BufferRuns.RunKeepsBudgets | instance/src/buffer.rs:159-446 | bytes and frames, shared and in memory, are within all four limits after any run in which each push can read its own chat's segment |
| BufferRuns.RunBoundedIff | instance/src/buffer.rs:159-446 | every state of a run is within the shared budget if and only if no push in it leaves more stuck than the budget allows |
| BufferRuns.OverflowReorders | instance/src/buffer.rs:183-215 | a run without the order guard that sends 1, 3, 2 |
| DiskSegments.ReadsBack | instance/src/buffer/disk.rs:96-120 | reading where record k starts gives body k, whatever follows, up to the record limit |
| DiskSegments.Be32Bytes | instance/src/buffer/disk.rs:57-66 | the four bytes of the length prefix, the most significant first |
| DiskSegments.DiskSegment.Append | instance/src/buffer/disk.rs:57-66 | appends to the live queue exactly if length and both writes are fine; a failure, even in mid-record, leaves the queue as it was |
| DiskSegments.DiskSegment.PeekOne | instance/src/buffer/disk.rs:96-120 | reads the oldest live body, flushing first; succeeds exactly if it is within the record limit and every call the read needs works |
| DiskSegments.DiskSegment.ConsumeOne | instance/src/buffer/disk.rs:125-135 | takes exactly the oldest live body and reports its length without the prefix, under the same condition; a failure moves nothing |
| DiskSegments.StaleFileMisreads | instance/src/buffer/disk.rs:34-52 | a fresh segment reads every first record back if and only if its file was empty |
| HubQueues.NothingIsLost | instance/src/hub/forward.rs:145-268 | in every run each replayable frame stamped for a running process is in exactly one place: acknowledged, committed, pending, evicted, failed, oversize or being sent |
| HubQueues.BatchCarriesItsEpoch | instance/src/hub/resync.rs:28-70 | in every run a batch on its way is not empty, starts at its announced number and holds only frames stamped under the epoch it names |
| HubQueues.LateEndTouchesNothing | instance/src/hub/resync.rs:71-97 | when a send ends after its process exited or was replaced, commit and rollback leave the whole buffer unchanged |
| HubQueues.GoesLiveDrained | instance/src/hub/resync.rs:32-39 | in every run, a step clears a chat's buffered flag only when its queue is empty |
| HubQueues.ReadyMeansNoneInFlight | instance/src/hub/resync.rs:26-98 | in every run, between two batches of the resync task no chat has frames in flight |
| HubQueues.PassEffect | instance/src/hub/resync.rs:28-48 | a pass changes only flags of drained chats, and drains at most one chat |
| HubQueues.NextKeeps | instance/src/hub.rs:241-310 | every step keeps: exact accounting, batch and bucket agree, no bucket outlives its process, memory within budget |
| HubQueues.MemBudgetAlways | instance/src/buffer.rs:386-404 | memory bytes and frames are within their limits in every run of the hub |
| HubQueues.TotalBudgetAlways | instance/src/buffer.rs:221-228 | bytes and frames are within the shared limits in every run of the hub in which each push can read its own chat's segment, also while a batch is in flight |
| HubQueues.TotalBudgetIff | instance/src/buffer.rs:221-228 | a run of the hub stays within the shared budget if and only if no push in it, live failure or child frame, leaves more stuck than the budget allows |
| HubEffects.FrameSentLive | instance/src/hub/forward.rs:153-268 | a line of a live chat on an authenticated connection whose event fits is sent, sensitive or not, under the next number; the buffer stays as it is |
| HubEffects.FrameTooLargeOnline | instance/src/hub/forward.rs:195-221 | one whose event is over the limit uses up its number and is only counted |
| HubEffects.FrameSensitiveOffline | instance/src/hub/forward.rs:223-242 | a sensitive line while offline or buffering reaches neither the wire nor the buffer |
| HubEffects.FrameBufferedOffline | instance/src/hub/forward.rs:195-268 | any other line while offline or buffering is pushed into the buffer, or counted if its record is over the limit |
| HubEffects.FrameIgnored | instance/src/hub/forward.rs:158-172 | a frame of an unknown or exited process changes nothing, nor can one come while the hub waits for a send |
| HubEffects.LiveEnds | instance/src/hub/forward.rs:223-255 | an acknowledged frame is done and never buffered; a sensitive one is done in any case |
| HubEffects.LiveFails | instance/src/hub/forward.rs:255-262 | a frame that was not sent is pushed into the buffer under its old number |
| HubEffects.ExitEnds | instance/src/hub/forward.rs:270-293 | an exit ends the process and records its epoch, in the file exactly if the write works |
| HubEffects.ExitForgets | instance/src/hub/forward.rs:293-300 | and deletes what the chat's buffer held, no other chat's |
| HubEffects.SpawnBegins | instance/src/hub/handlers.rs:220-279 | a running process is left alone; a new one has the epoch after the recorded one, number 1, no buffering, and its epoch on record |
| HubEffects.SignalTaken | instance/src/hub.rs:252-287 | signals are taken in order: authenticated starts a new resync task, disconnected ends it and makes exactly the running chats buffer |
| HubEffects.SignalPutsBack | instance/src/hub.rs:252-287 | both leave no batch in flight in any bucket and lose only counted frames |
| HubEffects.PassTaken | instance/src/hub/resync.rs:28-63 | a resync step takes the batch of the first chat that yields one and waits in its send; with none it ends if every chat is live, else tries again |
| HubEffects.BatchWrites | instance/src/hub/resync.rs:65-71 | a batch is on the wire once, frame by frame, under its chat and epoch |
| HubEffects.BatchEnds | instance/src/hub/resync.rs:72-96 | a confirmed batch leaves its queue and the task goes on; a broken one goes back and the task ends; other chats are not touched |
| HubEffects.ConnectionSignals | instance/src/transport/conn.rs:63-120 | a connection begins with an empty wire and queues its signal behind the earlier ones; so does its end, and a failed handshake |
| HubEffects.CrashForgets | instance/src/buffer/watermark.rs:74-96 | after a crash only the stored epochs are left, and none if the file does not parse |
| HubOrder.WireStrictlyGrows | instance/src/hub/forward.rs:158-268 | in every run with orderly pushes and connections that come up when the hub is done with the previous one, the numbers of a chat and epoch strictly grow on one connection, live events and batches together |
| HubOrder.NextOrder | instance/src/hub.rs:252-287 | every orderly step, failed handshakes and early reconnects included, keeps queues ascending and above the wire wherever they may still be replayed |
| HubReconnect.ConnectIsSafeIff | instance/src/transport/conn.rs:63-120 | after every orderly run, a connection may come up if and only if the wire stays sorted whatever orderly steps follow: the hub is not authenticated and no authentication waits in its queue |
| HubRace.NewConnectionOvertakes | instance/src/hub.rs:273-287 | a run in which a new connection is used before the old one was seen to end, and 2 precedes 1 on the wire |
| HubEpochs.NumbersAreUnique | instance/src/hub/handlers.rs:232-279 | over respawns and restarts no two child frames share chat, epoch and number, if at each crash the watermark file, empty if damaged, covers the numbers given out |
| HubEpochs.NextUnique | instance/src/buffer/watermark.rs:110-156 | every step keeps numbers unique and counted; a crash does if the file covers them |
| HubEpochs.FailedWriteReusesNumbers | instance/src/hub/handlers.rs:270-279 | from any covered run with an up-to-date file, starting a process, crashing and starting it again gives fresh numbers if and only if the first write worked |
| HubEpochs.CrashIsSafeIff | instance/src/buffer/watermark.rs:74-156 | a crash, with the file intact or damaged, is covered if and only if no number is ever repeated afterwards while later crashes are covered |
| HubEpochs.SafeWritesCover | instance/src/hub/handlers.rs:232-279 | if a failed write at a process start is the daemon's last step and the file is never damaged, every crash is covered and the file is up to date before it |
| ResyncTask.ResyncCompletesIff | instance/src/hub/resync.rs:26-98 | with working sends and reads the loop ends with every chat live if and only if every frame to replay fits a batch, whichever chat each pass picks |
| ResyncTask.ResyncReplaysAll | instance/src/hub/resync.rs:26-98 | then each buffered chat is replayed completely and in order, in at most as many batches as frames |
| ResyncTask.LoopSends | instance/src/hub/resync.rs:26-98 | whatever sends and reads do, what the loop sends of a chat followed by what is left is the chat's queue in order; frames are missing only after an interrupted send |
| ResyncTask.LoopIsRun | instance/src/hub/resync.rs:26-98 | the loop, whatever its sends and reads do, ends in the hub state that the steps pass, write, confirm (or a failed send) lead to |
| ResyncTask.HubResyncIff | instance/src/hub/resync.rs:26-98 | from any state the hub reaches between two batches, with working sends and reads, the resync steps make every chat live if and only if every frame to replay fits a batch |
| ResyncTask.PassDone | instance/src/hub/resync.rs:28-63 | with readable disks, a pass without a batch leaves each visited chat live and drained, or stuck at a frame over the batch limit |
| ResyncTask.PassPicksFirst | instance/src/hub/resync.rs:28-48 | whatever can be read: a pass goes past every chat that yields nothing, makes those with nothing pending live, and takes exactly the batch of the first that yields one |
| ResyncTask.PassEmptyIff | instance/src/hub/resync.rs:28-48 | a pass finds no batch if and only if no buffering chat with a queue yields one, whatever cannot be read |
| ResyncTask.LoopStopsWhenExhausted | instance/src/hub/resync.rs:26-98 | unless a send fails the loop goes on until no chat has a batch it could send, and is complete exactly if every chat is then live |
| ResyncTask.AcceptedFrameBlocksReplay | instance/src/hub/resync.rs:13-15 | a frame the buffer accepts under its default limit that leaves the loop sleeping with its chat still buffering |
| HubDaemon.ResyncLoop | instance/src/hub/resync.rs:21-99 | the loop on mutable state, with sends that may fail, ends with exactly the specified flags, buffer, batches and outcome: complete, interrupted, or asleep before a retry |
| HubDaemon.PassOver | instance/src/hub/resync.rs:28-48 | one pass over the chats on mutable state is the specified pass |
| HubDaemon.HubState.ForwardFrame | instance/src/hub/forward.rs:153-268 | stamps and routes a line exactly as the step does; hands out a frame to send exactly if the process runs, its chat is live on an authenticated connection and the event fits, and then under the chat's epoch and next number |
| HubDaemon.HubState.LiveSent | instance/src/hub/forward.rs:245-263 | an acknowledged frame is done, one not sent is buffered with its number, a sensitive one is only counted |
| HubDaemon.HubState.OnExit | instance/src/hub/forward.rs:270-300 | the process is gone, its epoch is recorded without a process group, its bucket removed |
| HubDaemon.HubState.OnSpawned | instance/src/hub/handlers.rs:220-279 | a running process is left alone; a new one gets watermark + 1, recorded with its process group and fingerprint before any of its frames |
| HubDaemon.HubState.OnAuthenticated | instance/src/hub.rs:252-272 | aborts the old resync, puts back every batch, starts a new one |
| HubDaemon.HubState.OnDisconnected | instance/src/hub.rs:273-287 | all terminals are closed, every running chat buffers, the resync is aborted, every batch is put back |
| HubDaemon.HubState.PickBatch | instance/src/hub/resync.rs:28-63 | one resync step; reports the end exactly when there is no batch and every chat is live |
| HubDaemon.HubState.BatchSent | instance/src/hub/resync.rs:72-85 | commits the batch and is ready for the next |
| HubDaemon.HubState.BatchInterrupted | instance/src/hub/resync.rs:86-96 | rolls the batch back and ends the task |
| Watermarks.Watermark.Record | instance/src/buffer/watermark.rs:138-156 | memory always has the new record; the file changes only if the write works, and then holds the whole map |
| Watermarks.Watermark.FinalizeStartup | instance/src/buffer/watermark.rs:110-117 | gives up authority over every process group and keeps every epoch |
| Watermarks.StartupCleanup | instance/src/hub/startup.rs:189-229 | fails exactly on an error of directory, owner lock, identity, load, removal or write; signals exactly the groups it can prove it owns, none before loading; else keeps every epoch and clears every process group |
| Watermarks.SignalledIff | instance/src/hub/startup.rs:200-222 | a group is signalled if and only if a record written in this very directory names it with a fingerprint that is still its leader's |
| TerminalHosts.OneExitPerGeneration | instance/src/terminal_host.rs:150-257 | in every run a generation has at most one exit event, and none if it was closed |
| TerminalHosts.InsertNeverOverwrites | instance/src/terminal_host.rs:259-349 | in every run an insert meets a free id and a free place; the host limit holds |
| TerminalHosts.LeavesOnlyBy | instance/src/terminal_host_util.rs:56-101 | a terminal leaves the table only when closed or failed by name, when all are closed, or by a thread of its own generation |
| TerminalHosts.ThreadEndRemoves | instance/src/terminal_host_util.rs:56-101 | the end of a reader or the failure of a writer removes the terminal and sends its exit event exactly if the thread's own generation is there |
| TerminalHosts.StartedIsWatched | instance/src/terminal_host.rs:150-218 | in every run, a terminal whose reader was started has it running, so that its end removes the terminal with an exit event; any other still has its process |
| TerminalHosts.ReaderStartsOnce | instance/src/terminal_host.rs:150-171 | in every run, a start begins a reader exactly if the terminal is there and has none |
| TerminalHosts.CloseRemoves | instance/src/terminal_host.rs:220-247 | a close removes the terminal without an exit event, a failure with one; an absent one is left alone |
| TerminalHosts.CloseAllRemoves | instance/src/terminal_host.rs:249-257 | closing all empties the table without an exit event |
| TerminalHosts.OpenChecks | instance/src/terminal_host.rs:262-270 | a request goes on to open exactly if none other is, there is room, and the id is free |
| TerminalHosts.OpenInserts | instance/src/terminal_host.rs:329-364 | an open that passed its checks inserts its terminal under the next generation, input 1 expected, its writer running |
| TerminalHosts.InputsAreContiguous | instance/src/terminal_host.rs:98-119 | the inputs accepted for a live terminal are 1, 2, 3, … whatever came in between |
| TerminalHosts.TerminalHost.CheckOpen | instance/src/terminal_host.rs:262-270 | an open may proceed exactly if there is room and the id is free, and is told which is missing |
| TerminalHosts.TerminalHost.InsertOpened | instance/src/terminal_host.rs:331-349 | enters under the next generation, which no exit or close has ever been about, at a free id, with input 1 expected |
| TerminalHosts.TerminalHost.TakeInput | instance/src/terminal_host.rs:98-119 | accepts exactly the next number for which the queue has room, and then expects the one after it; an input with the largest number is queued but answered as exhausted |
| TerminalHosts.TerminalHost.ReaderDone | instance/src/terminal_host_util.rs:56-72 | removes the terminal and sends an exit event exactly if it is of the reader's own generation |
| TerminalHosts.TerminalHost.WriterFailed | instance/src/terminal_host_util.rs:74-101 | the same for a writer that fails |
| TerminalHosts.TerminalHost.CloseTerminal | instance/src/terminal_host.rs:220-225 | the terminal leaves the table without an exit event |
| TerminalHosts.TerminalHost.FailTerminal | instance/src/terminal_host.rs:227-247 | the terminal leaves the table, with one exit event of its generation if it was there |
| LineReader.ReadLineBounded | instance/src/child.rs:212-241 | for any pieces consumes exactly the first line, keeps its first `limit` bytes, flags it exactly if it was longer; fails exactly if the stream breaks before the line ends; no line exactly at the end (or for limit 0 and no newline) |
| LineReader.AnsweredIs | instance/src/child.rs:212-241 | the consumed bytes end with the first newline or the stream; the kept ones are their first `limit`, flagged exactly if there are more |
| LineReader.ReadAll | instance/src/child.rs:256-284 | with a positive limit the caller sees exactly the newline-split lines, cut and flagged; of a stream that breaks, exactly those that end with a newline |
| LineReader.LinesAt | instance/src/child.rs:256-284 | each line the caller sees is the first `limit` bytes of its line, flagged exactly if that is not all |
| LineReader.SplitIsAll | instance/src/child.rs:206-211 | the lines put together are the stream; a newline ends each but perhaps the last and occurs nowhere else |
| LineReader.EndedIsSplit | instance/src/child.rs:256-284 | a broken stream loses at most its last line, one without a newline |
| Resampling.Fir.Push | realtime-voice/src/resample.rs:136-156 | the ring buffer answers the window's dot product, zero while it fills |
| Resampling.FilterIsSlidingDot | realtime-voice/src/resample.rs:136-156 | filtered sample k is zero for the first n-1 inputs, then the taps times the last n inputs |
| Resampling.DotImpulse | realtime-voice/src/resample.rs:146-155 | the answer to a single 1.0 in the window is the tap at its place |
| Resampling.DotIsLinear | realtime-voice/src/resample.rs:146-155 | the answer is linear in the window, so that it is the window weighted with the taps |
| Resampling.DecimatedSnoc | realtime-voice/src/resample.rs:79-92 | one more sample completes a group and yields its middle, or waits |
| Resampling.DecimatedAt | realtime-voice/src/resample.rs:79-92 | output k is sample k * factor + factor / 2, and is there if and only if its group is complete |
| Resampling.EmittedIffNeighbours | realtime-voice/src/resample.rs:103-114 | output k is the interpolation at k added ratios, and is there if and only if both neighbouring samples have arrived |
| Resampling.PosIs | realtime-voice/src/resample.rs:103-114 | the position of output k is k times the ratio |
| Resampling.InterpolateBetween | realtime-voice/src/resample.rs:108-113 | between two samples the output is on the straight line from one to the other |
| Resampling.ModeIs | realtime-voice/src/resample.rs:31-59 | the mode resamples by exactly the ratio of the rates, group by group if that is whole |
| Resampling.ResampledUnique | realtime-voice/src/resample.rs:94-122 | there is only one such output sequence |
| Resampling.StreamResampler.Push | realtime-voice/src/resample.rs:61-122 | after every call all outputs together are the answer to all inputs together, in every mode |
| Resampling.PiecesDoNotMatter | realtime-voice/src/resample.rs:61-122 | two resamplers fed the same samples in any pieces have given out the same |
| MicPipeline.DownmixAppend | realtime-voice/src/mic.rs:377-385 | mixing down callback by callback is mixing down the whole, if callbacks end on a channel group |
| MicPipeline.DownmixMono | realtime-voice/src/mic.rs:377-385 | the mean of each group; an incomplete last group is divided by the full channel count |
| MicPipeline.DownmixAt | realtime-voice/src/mic.rs:377-385 | output k is the sum of the k-th group of the input, divided by the full channel count, and is there if and only if the group has begun |
| MicPipeline.SumIs | realtime-voice/src/mic.rs:382-383 | the sum of a group is additive and that of one sample is the sample |
| MicPipeline.LeBytesReadBack | realtime-voice/src/mic.rs:387-393 | every sample can be read back from its two bytes, the less significant first |
| MicPipeline.QuantizeIsNearest | realtime-voice/src/resample.rs:203-206 | full scale outside [-1, 1], inside the nearest step of 32767 |
| MicPipeline.QuantizeIsOrderly | realtime-voice/src/resample.rs:203-206 | quantizing is monotone and odd |
| MicPipeline.PcmPipeline.PushInterleaved | realtime-voice/src/mic.rs:355-374 | the resampler is fed exactly the mix of the callback; after every callback the frames are the framing of all speech so far, and less than one frame is kept back; with frame size 0 it ends only for an empty callback |
| MicPipeline.CallbacksDoNotMatter | realtime-voice/src/mic.rs:355-374 | two pipelines fed the same samples in any aligned callbacks have given out the same frames and keep the same rest |
| MicPipeline.FramesAreTheSpeech | realtime-voice/src/mic.rs:355-374 | for a positive frame size, full frames and the rest kept back are the quantized, resampled, mixed stream after the skip: nothing lost or repeated |
| MicPipeline.FrameBytes | realtime-voice/src/mic.rs:355-374 | byte by byte: sample i of frame k is the little-endian step of resampled sample skip + k * n + i, and frame k is there if and only if all its samples are |
| Framing.WholeAppend | realtime-voice/src/client.rs:161-167 | framing the head and keeping the rest for later loses nothing |
| Framing.WholeAt | realtime-voice/src/client.rs:161-167 | frame k is the k-th block of the stream, and is there if and only if the block is complete |
| Framing.SplitPcmFrames | realtime-voice/src/audio.rs:44-59 | the offset loop cuts the specified frames; none for frame size 0 |
| Framing.SplitCarriesAll | realtime-voice/src/audio.rs:44-59 | the frames carry the recording followed by less than a frame of zeros, all full, none for an empty recording |
| Framing.Upload | realtime-voice/src/client.rs:155-177 | for any chunks the streaming loop sends exactly the frames of the whole recording; if the server ends the session, exactly the complete frames of the chunks before; with frame size 0 it ends exactly if it takes no chunk |
| Framing.FramingEndsIff | realtime-voice/src/client.rs:162-167 | from any buffer the framing loop reaches its end if and only if the frame size is positive |
| Framing.EmptyFramesIff | realtime-voice/src/audio.rs:16-41 | an accepted framer has empty frames if and only if rate times duration, in 32 bits, is below 1000 |
| Framing.FrameLasts | realtime-voice/src/audio.rs:34-41 | without 32-bit overflow a frame holds its duration of 16-bit samples of every channel, rounded down to a whole sample |

## Left out

- The segment inside a bucket: `SessionBuffers.SessionBuffer.disk` is the sequence of live records. The byte-level `DiskSegments.DiskSegment` is proved to be such a queue on its own; the two objects are not linked, and a segment is taken to be opened on an empty file.
- Counters of a bucket and of the buffer are grouped in one record each instead of separate fields.
- Integer widths: `usize` and `u64` are unbounded here; the largest terminal input number is modelled.
- JSON: a frame is its serialised body plus the two envelope facts the drop priority reads; decoding a body that was stored is taken to work, or counted as a failed read.
- `last_sent_seq`, the ring of recent frames, log rate limits, `water_level` and `dropped_stats` totals: diagnostics without influence on delivery.
- Thread races inside one stretch between two awaits, as said above.
- HubOrder.WireStrictlyGrows: assumes the order guard of finding 1 at each push and the guard of finding 4 at each connection; without them `BufferRuns.OverflowReorders` and `HubReconnect.ConnectIsSafeIff` break it.
- HubReconnect.ConnectIsSafeIff: about buffers that may hold at least one frame.
- HubQueues.NothingIsLost: about running processes; at exit the source deletes the chat's buffer, and what was pending is gone with it.
- HubEpochs.NumbersAreUnique: assumes each crash covered, which a damaged file or a failed write can break; `HubEpochs.CrashIsSafeIff` says that this is exact.
- Buffers.Buffer.Remove: the deletion of the chat's segment file, and its failure, are not in the state; what a left-over file does is finding 6.
- HubDaemon.HubState.BatchSent: the update of `last_sent_seq`, a diagnostic, is not in the state.
- HubDaemon.HubState.LiveSent: the same for a live event.
- A rejected terminal open whose reply cannot be sent closes the terminal of that id; the handler in `hub/handlers.rs` around the terminal host is not modelled.
- Transport internals (reconnect, backoff, queue capacities), WebSocket, process spawn and kill, PTY and devices: reduced to steps that may or may not happen and sends that end well only if they were written.
- A transport that stops for good, graceful shutdown and heartbeats: the daemon's end is the crash step.
- HubDaemon.ResyncLoop: the loop while nothing else happens, up to its end or its sleep; frames that arrive in between are steps of the machine.
- Floating-point rounding and the filter design: samples are exact reals, taps arbitrary.
- LineReader.ReadAll: collects lines; parsing them and forwarding to the hub is the hub's side.
- Cryptography, tokens, owner lock, HTTP, CLI and configuration; SSH, git and file-system resources: separate from the cores above.
