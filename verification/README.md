# Logateway: a verified model of the no-loss delivery engine

Logateway accepts log uploads over HTTP, runs them through a per-project pipeline, and hands a copy to every sink
(Redis, Kafka) of the project. Its promise is that an acknowledged upload is not lost: what a worker pool cannot
take or deliver goes to a segmented write-ahead log (WAL) and is replayed in the background. This project models that
engine and proves the promise, together with two self-contained parts: the nonce cache of the upload authentication
and the pipeline processors.

Run `dafny verify dfyconfig.toml` (Dafny 4.11).

## How the proof is built

| file | what it holds |
|---|---|
| `Bags` | sums of multisets over sequences, the arithmetic of conservation |
| `Framing`, `Codec` | lines and the scanner's limit; WAL entries, the laws of their encoding, what survives a torn file |
| `UnaryCodec`, `UnaryText` | a codec, payload texts and a gateway that satisfy the laws |
| `WalLog`, `WalRuns`, `WalSizes` | the log as a value and each operation against a queue; whole runs; segment sizes |
| `WalWriter` | the writer as an object with in-place updates and loops, tied to `WalLog` |
| `Replay`, `ReplayRuns`, `Recovery` | the replay loops; a replay pass interleaved with writers; what it hands over, in terms of the queue, also after a crash |
| `Breakers`, `Pools`, `WorkerPools` | circuit breaker and worker pool as step machines; the pool as an object, tied to the machine |
| `Messages`, `MessagePool` | messages as values and what a sink sees; pooled message objects with their buffers |
| `Dispatchers` | the fan-out over pool objects, strict or not, and the replay callback |
| `Engine` | everything together as one step machine |
| `AtLeastOnce`, `ExactlyOnce`, `Ownership` | the three theorems about every run of the engine |
| `Losses` | that the first of them needs its hypothesis |
| `Projection` | the engine refines the machine of log and replay pass |
| `Drains`, `Shutdowns`, `Replays` | progress: pools drain, the engine shuts down, sealed segments are replayed and go |
| `Nonces`, `Pipeline` | replay protection; the processor chain and its normal form |
| `EndToEnd` | processors on the text of a payload, and what a sink can parse out of a delivered message |

The engine machine interleaves freely: every submit to a pool, every action of a worker, every flush, every line a
replay pass reads and every deletion is a step of its own, and so are a clean restart and a crash that leaves any byte
prefix of the open segment. At-least-once follows from four counting invariants per project and pool: the pool's books
balance; what it spilt is in the log, or was deleted, or was torn; what was deleted or is being replayed the pool took
through `SubmitStrict`; what was acknowledged it took through `Submit`.

### Choices of granularity

- The active name and the directory listing at the start of a replay pass are one step, although the code reads them
  without a common lock. `ReplayRuns.SplitListing` and `ReplayRuns.SplitListingLoses` show exactly when the split
  version goes wrong and what it loses.
- The recovery probe's exit and the re-arming of `recoveryOnce` are one step. `Breakers.SplitExitStrands`,
  `Breakers.StrandedForever` and `Breakers.StrandedExactly` show what the split version does.
- The closed test of `Submit` and the channel send are one step; in block mode a full channel at the timeout is the
  refusal. The circuit check, each send, each wait, the recorded failure and the rejection are separate steps of a worker.
- The clock is read once per request, for the timestamp window and for the nonce.
- `Send` and `HealthCheck` succeed, fail or panic as they like; a removal may fail.

### What the proofs turned up

- Encoding an entry compacts its payload and turns a nil payload into `null`, so a message does not come back from the
  log byte for byte. It comes back equal up to compaction, and the sink's own encoding compacts as well: the detour is
  invisible to sinks (`Messages.DetourInvisible`), although headers are gone.
- A nonce lifetime of twice the timestamp window is not quite enough, because the window compares whole seconds and the
  lifetime does not. The lifetime must be at least the window plus the timestamp's lead plus one second, and that bound
  is exact (`Nonces.NonceSafety`, `Nonces.ShorterLifetimeFails`). The defaults, 300 s for both, miss it.
- A record of 64 MiB or more (or, for smaller segments, of 64 KiB and the segment limit) can be written but never
  replayed, and it stops every pass before the segments behind it (`WalSizes.TooLongOnlyAlone`,
  `ReplayRuns.DeletionsArePrefix`).
- Two pairs of app key and nonce share a cache key exactly if they are equal or an app key contains the NUL separator
  (`Nonces.KeyExactly`); without that, a new pair is never taken for a used one (`Nonces.UnusedIsAccepted`).
- `FieldAdd` with any field on a literal `null` panics; `Pipeline.PanicsExactlyOnNull` gives the exact chains.
- A failed pipeline run leaks its message object, so "always released" is false there. In every run each object of the
  process is in use once, put back once, or leaked so: nothing is released twice and nothing leaks otherwise
  (`Ownership.OwnedExactlyOnce`).
- A health check that panics ends the recovery probe and leaves the circuit open; no failure starts another one, because
  the circuit is open already. So an open circuit keeps its probe exactly as long as no check panicked
  (`Pools.BreakerAlwaysRecovers`), and without one it can be closed again if and only if a send is already under way
  (`Pools.PanicStrands`).
- `Submit` in fallback mode reports success even if the log write fails, so no-loss is stated for runs whose log writes
  succeed (`AtLeastOnce.DeliveredAtLeastOnce`), and for all other runs what is missing is on record
  (`AtLeastOnce.EveryMessageAccounted`). `AtLeastOnce.SubmitLoses` gives the exact condition of a quiet loss, and
  `Losses.FailingWritesLose` a run of every such gateway in which an acknowledged message is gone.
- "Acknowledged" here means that `Dispatch` returned nil. The upload handler answers 200 earlier, once its goroutine pool
  has taken the job, and it reads the message's fields for its log line after a failed `Dispatch` has released it.
- The product document (`doc/PRD.md`, section 8.2) lets old segments be purged; `purgeOldSegments` only logs, and the
  model follows the code.

## Model

| member | source | states |
|---|---|---|
| `AtLeastOnce.DeliveredAtLeastOnce` | internal/project/dispatcher.go:196-249 | In every state of every run in fallback mode with successful log writes, for every pool of a project: each message whose dispatch returned nil is queued, in flight or delivered there, or in an undeleted segment, counted with multiplicity |
| `AtLeastOnce.EveryMessageAccounted` | internal/sink/worker.go:151-209 | The same in any mode, with failing writes and crashes: whatever is missing is on record as lost by that pool or torn by a crash |
| `AtLeastOnce.OrderlyShutdown` | internal/server/server.go:173-188 | After an orderly shutdown everything acknowledged was delivered or is in the closed log on disk |
| `AtLeastOnce.GatewayDelivers` | internal/wal/wal.go:500-501 | At-least-once for the scanner the gateway configures |
| `AtLeastOnce.SubmitLoses` | internal/sink/worker.go:200-208 | A submit loses its copy while the dispatch goes on exactly in fallback mode, on a full channel, when the write to the log fails; no other submit adds to the losses |
| `AtLeastOnce.SubmitSpills` | internal/sink/worker.go:246-265 | In fallback mode, on a full channel, a copy that can be encoded, if the write succeeds, is the new last entry of the log and looks to a sink like the message; nothing is lost and the dispatch goes on |
| `AtLeastOnce.RejectSpills` | internal/sink/worker.go:194-209 | The same for a message that a worker rejects |
| `AtLeastOnce.LossyStep` | internal/sink/worker.go:194-209 | In fallback mode every submit or worker step with a failing write adds to the losses of its pool |
| `Losses.FailingWritesLose` | internal/sink/worker.go:200-208 | In every gateway in fallback mode, for every pool of every project and every upload its chain accepts, there is a run of dispatches alone, the log writes failing, in which the conclusion of at-least-once is false: a message whose dispatch returned nil is neither queued, in flight nor delivered there, nor in the log |
| `AtLeastOnce.StepKeeps` | internal/sink/worker.go:118-209 | Every step of the engine keeps the four counting invariants |
| `ExactlyOnce.PipelineExactlyOnce` | internal/project/dispatcher.go:222-231 | Whatever a pool hands to its sink, in a try that succeeds, fails or panics, after any number of trips through the log and any crashes, looks to the sink like some upload meant for that pool with its project's chain applied once |
| `ExactlyOnce.LineFrom` | internal/wal/wal.go:503-516 | Whatever a replay pass decodes from a sealed segment stems from a piped upload |
| `EndToEnd.SinkSeesFusedPass` | internal/project/dispatcher.go:182-249 | In every state of every run whatever a pool hands to its sink, in any try, carries request id, trace id, time, environment, project and router of an upload meant for that pool, and its payload parses to one fused pass of the project's chain over the uploaded payload |
| `EndToEnd.RunTextMeans` | internal/pipeline/pipeline.go:29-38 | Decoding and encoding at every processor, a chain fails exactly when it fails on the decoded payload, and otherwise its text decodes to what the chain makes of it |
| `EndToEnd.BytesKept` | internal/pipeline/processors.go:28-62 | A filter without a mode changes no byte; filter and redaction change none of a payload that is empty or not an object |
| `EndToEnd.WireParses` | internal/sink/redis_sink.go:175-187 | What a sink parses out of a piped upload is the fused pass, a missing payload showing as null |
| `Ownership.OwnedExactlyOnce` | internal/message/message.go:53-72 | In every state of every run each message object the process allocated is in exactly one place: in use by one holder, put back once, or leaked by a failed pipeline run; what the pool hands out next, anything put back or a new one, is in nobody's hands |
| `Ownership.StepUnique` | internal/sink/worker.go:234-322 | Every step of the engine keeps that |
| `Engine.StartExactly` | internal/project/dispatcher.go:196-231 | An upload for the empty name, an unknown project or one without pools is refused and its object put back; a failing chain drops it; any other is under way with all pools of its project to serve |
| `Shutdowns.AlwaysShutsDown` | internal/server/server.go:173-188 | Every run of a gateway, whatever is under way, queued or being retried, can be continued to the end of an orderly shutdown: no dispatch, callback, queued message, worker or probe left, the log closed |
| `Shutdowns.RestartIsFresh` | internal/sink/worker.go:65-95 | After a restart every pool is as new, circuit included; what a crash takes with it is on record |
| `Replays.SealedSegmentGoes` | internal/server/server.go:89-105 | When no pass is under way and the pools of the first sealed segment's entries have room, there is a run after which each pool has, behind what it had, exactly its copies of these entries in order, every pool of an entry's project among them, and exactly that segment is gone |
| `WalRuns.LogIsQueue` | internal/wal/wal.go:117-156 | After any run of writes, flushes, closes, restarts, crashes and deletions, the segments in number order with the buffer are exactly the written entries not torn or deleted, in write order; the active number is the largest and never that of a deleted segment |
| `WalRuns.SyncedNeverTorn` | internal/wal/wal.go:146-153 | With every write synced, over every run with any crashes that keep what reached the disk: no entry is torn, and the log is exactly every successful write, in order, outside deleted segments |
| `WalRuns.FreshNumber` | internal/wal/wal.go:203-219 | A rotation picks a number neither on disk nor ever deleted |
| `WalRuns.SealedForever` | internal/wal/wal.go:172-201 | Over any run a sealed segment never becomes active again and keeps its bytes until it is deleted |
| `WalLog.WriteRefines` | internal/wal/wal.go:117-156 | A write appends exactly one entry to the queue, whatever rotations it takes |
| `WalLog.PutShape` | internal/wal/wal.go:127-149 | A write extends by one record the active segment, exactly if it is open and the record fits, otherwise a new one numbered above all others |
| `WalLog.RestartShape` | internal/wal/wal.go:98-106 | A restart opens a new segment exactly if the latest holds anything, and changes no contents |
| `WalLog.FlushRefines` | internal/wal/wal.go:304-325 | Flushing any part of the buffer does not change the queue |
| `WalLog.CloseRefines` | internal/wal/wal.go:330-355 | Closing does not change the queue |
| `WalLog.ReopenRefines` | internal/wal/wal.go:78-106 | A clean restart is invisible, whether or not it seals the latest segment |
| `Recovery.CrashRecovery` | internal/wal/wal.go:78-106 | After a crash at any byte of the open segment, a restart and a replay pass, whatever writers do meanwhile: the callback is given a prefix of the entries whose whole encoding survived, in write order; all of them once the pass is through; with a line too long in segment n, those below n and those of n in front of it |
| `Recovery.GatewayRecovers` | internal/wal/wal.go:492-523 | The same for the scanner the gateway configures |
| `Recovery.ReplayYieldsQueue` | internal/wal/wal.go:455-523 | In every state of every run the calls of a pass are the queue as listed, below the segment it is at plus the lines done there |
| `WalLog.CrashRefines` | internal/wal/wal.go:98-106 | The queue after a crash at any byte: all sealed entries, then exactly the entries of the open segment whose whole encoding survived, in order |
| `WalLog.SyncedSurvives` | internal/wal/wal.go:146-153 | With an empty buffer, a crash that keeps what reached the file loses nothing of the queue |
| `WalLog.TornTailStaysApart` | internal/wal/wal.go:101-105 | A torn tail neither merges with nor hides what is written after the restart |
| `WalLog.RemoveRefines` | internal/wal/wal.go:476-488 | Deleting a sealed segment removes exactly its block of the queue |
| `Codecs.TornFrame` | internal/wal/wal.go:503-512 | A file of records cut at any byte decodes to exactly the entries whole in front of the cut |
| `Codecs.SurvivorsExact` | internal/wal/wal.go:503-512 | Entry i is whole in front of the cut if and only if its last byte is |
| `Codecs.CarriageReturnIgnored` | internal/wal/wal.go:503-512 | A record ended by CR LF reads like one ended by LF, and an empty line of either kind is skipped |
| `Framing.LinesAppend` | internal/wal/wal.go:500-504 | Line splitting distributes over concatenation when the left part is complete |
| `Framing.LinesAppendExactly` | internal/wal/wal.go:101-105 | It does so exactly then, or when nothing follows: a torn tail must not be appended to |
| `Framing.MaxReplayLineBytes` | internal/wal/wal.go:534-539 | The configured segment size up to 64 MiB, else 64 MiB; never zero |
| `Framing.Fitting` | internal/wal/wal.go:500-520 | The scanner delivers all lines, or those before the first that fills its buffer |
| `UnaryCodec.LawsAreConsistent` | internal/wal/wal.go:45-54 | A concrete codec satisfies every law assumed of the JSON encoding of entries and encodes every entry without an empty non-nil payload |
| `UnaryText.AllLawsAreConsistent` | internal/pipeline/processors.go:28-130 | Together with it concrete payload texts satisfy every law assumed of decoding and encoding payloads |
| `UnaryText.GatewayExists` | internal/wal/wal.go:500-501 | A concrete gateway satisfies everything the theorems about the engine assume |
| `WalSizes.RunSmall` | internal/wal/wal.go:127-144 | In every state of every run each segment is within the limit or holds a single record |
| `WalSizes.TooLongOnlyAlone` | internal/wal/wal.go:500-501 | Up to 64 MiB segments, replay meets a line too long exactly in single-line segments of at least 64 KiB and at least the segment limit |
| `WalSizes.LoneRecordReadable` | internal/wal/wal.go:534-539 | A record alone in its segment is too long to replay if and only if its encoding has at least 64 KiB and reaches the segment limit, or 64 MiB if that is larger or not positive |
| `WalSizes.ReplayCap` | internal/wal/wal.go:500-501 | The limit in numbers: the segment limit, but at least 64 KiB and at most 64 MiB, which also stands for one that is not positive |
| `WalWriter.Writer.constructor` | internal/wal/wal.go:78-114 | On any directory the latest segment is opened and sealed if it holds anything; on a directory without a segment 0 the new writer stands for the queue found there |
| `WalWriter.Writer.OpenLatest` | internal/wal/wal.go:221-267 | The segment with the largest number is opened at its size |
| `WalWriter.Writer.NextSegmentNum` | internal/wal/wal.go:203-219 | One more than the largest number |
| `WalWriter.Writer.RotateSegment` | internal/wal/wal.go:172-201 | The active file is complete on disk, the new number is above all others |
| `WalWriter.Writer.Append` | internal/wal/wal.go:139-143 | The 64 KiB buffered writer loses, doubles and reorders no byte, whatever the lengths |
| `WalWriter.Writer.Put` | internal/wal/wal.go:127-153 | One record written in place is the value-level write, up to how much of the buffer overflowed |
| `WalWriter.Writer.Write` | internal/wal/wal.go:117-156 | An entry that cannot be encoded changes nothing; any other is the new last entry of the queue, and on disk at once when every write is synced |
| `WalWriter.Writer.Sync` | internal/wal/wal.go:304-325 | The buffer is on disk, the queue unchanged |
| `WalWriter.Writer.CloseWriter` | internal/wal/wal.go:330-355 | All contents on disk, the queue unchanged |
| `WalWriter.Writer.ReplaySealedSegments` | internal/wal/wal.go:420-472 | A prefix of the sealed segments, each accepted to its end, is gone unless its removal failed, the rest untouched; after a whole cycle the callback was given exactly the sealed part of the queue, otherwise the queue below the failing segment and its part up to the refused call or overlong line |
| `WalWriter.ReadAll` | internal/wal/wal.go:552-603 | All entries in number order if every segment can be read to its end, else those up to the first that cannot |
| `WalWriter.ReadSegment` | internal/wal/wal.go:605-633 | The decodable entries in front of the first line of 64 MiB or more, and whether there is one |
| `WalWriter.ReadBack` | internal/wal/wal.go:549-603 | Reading the directory of a closed writer gives back the queue it stands for |
| `Replay.ReplaySegment` | internal/wal/wal.go:492-523 | Success if and only if every decodable entry was accepted and no line was too long; otherwise the calls are the entries up to the refused one, or up to the overlong line |
| `Replay.ListSealed` | internal/wal/wal.go:429-453 | The listing is exactly the non-active numbers, ascending |
| `Replay.ReplayCycle` | internal/wal/wal.go:455-472 | One cycle without interference: what passes, what is removed, where it stops, and what the callback is given |
| `Replay.CycleHandsQueue` | internal/wal/wal.go:455-472 | What a cycle gives to the callback is the queue below the segment it stopped at and that segment's part, or the whole queue below the active one |
| `ReplayRuns.OnePassAtATime` | internal/wal/wal.go:396-416 | A pass begins only when the last one was given up or is through its list, and at the first line of the first segment |
| `ReplayRuns.PassNeverTouchesActive` | internal/wal/wal.go:420-472 | Whatever writers and rotations happen during a pass, the segment it is at is on disk, not the active one, and has the bytes it had when listed |
| `ReplayRuns.DeletedOnlyAfterFullPass` | internal/wal/wal.go:455-472 | A segment disappears only at the end of an uninterrupted in-order pass in which the callback accepted each of its decodable entries and all those of the segments listed before it |
| `ReplayRuns.DeletionsArePrefix` | internal/wal/wal.go:455-472 | Whatever writers do meanwhile, of the files there were at the listing only segments the pass has finished are gone from the disk, and if no removal in the run failed exactly those, a prefix of the list; no pass gets beyond a segment with an overlong line |
| `Projection.EngineIsPassRun` | internal/server/server.go:89-105 | Every run of the engine, seen from log and pass, is a run of their machine: uploads, workers and callbacks are nothing to it but writes, lines accepted and lines refused, and a refusal ends the pass |
| `Projection.EnginePassesAreSafe` | internal/wal/wal.go:420-472 | So in every state of every run of the engine only segments a pass has finished are gone since its listing, and the one it is at is sealed and unchanged |
| `Projection.CrashAnytime` | internal/wal/wal.go:304-325 | In every state of every run the process may die at any byte, and any part of the buffer be flushed |
| `ReplayRuns.SplitListing` | internal/wal/wal.go:421-423 | Reading the name before the listing includes the active segment if and only if a rotation fell in between |
| `ReplayRuns.SplitListingLoses` | internal/wal/wal.go:421-423 | Then an entry can be deleted that the callback never saw |
| `Pools.PoolConservation` | internal/sink/worker.go:118-209 | In every state of every run, taken = queued + in flight + delivered + in the log + lost, as multisets, through retries, panics, open circuit and shutdown |
| `Pools.Drained` | internal/sink/worker.go:358-390 | Once all workers have left, the channel is closed and empty; in fallback mode with successful writes everything taken was delivered or is in the log |
| `Drains.AlwaysDrains` | internal/sink/worker.go:358-390 | Every run of a pool with workers can be continued to the end of its drain: channel closed and empty, all workers and the probe gone |
| `Pools.BreakerAlwaysRecovers` | internal/sink/worker.go:211-232 | Over every history the circuit is open exactly at the configured number of failures since the last reset; until shutdown an open circuit has a live probe, if and only if no health check panicked since; a tick closes the circuit exactly if the sink is healthy and keeps the probe exactly on an open circuit with an unhealthy sink |
| `Pools.PanicStrands` | internal/sink/worker.go:403-410 | An open circuit without a probe is closed by some run if and only if a send is under way now; otherwise it stays open without a probe in every run, whatever is submitted or taken later |
| `Pools.RecoversAnyNumberOfTimes` | internal/sink/worker.go:395-432 | For every n there is a run of the pool in which the circuit opens and recovers exactly n times, and a continuation that opens it again with a live probe |
| `Pools.ApplySane` | internal/sink/worker.go:118-192 | Every step keeps: at most three tries, exits only from a closed empty channel, shutdown in order, channel within capacity |
| `Pools.TriesExactly` | internal/sink/worker.go:151-192 | Until shutdown a message past the circuit check is tried until a send succeeds or panics or the third fails; no wait is cut short |
| `Pools.WorkedOwns` | internal/sink/worker.go:177-209 | A worker gives back exactly the object it no longer holds |
| `Pools.SubmittedOwns` | internal/sink/worker.go:234-322 | A submitted object is owned by the pool or given back, never both, never neither |
| `Pools.AdmittedIsTaken` | internal/sink/worker.go:302-356 | A pool that admits replay takes the message, and nothing else about it changes |
| `Pools.AdmittedExactly` | internal/sink/worker.go:327-342 | Replay is admitted if and only if the pool is open, its circuit closed and the channel below four fifths full |
| `Pools.DelayExactly` | internal/sink/worker.go:344-355 | The delay is a thousand times the usage less 500, in milliseconds rounded down, at least 10 from half full on, none below |
| `Pools.DelayRange` | internal/sink/worker.go:340-355 | The delay is 0 below half full, otherwise at least 10 and below 300 ms: the upper clamp never fires |
| `Pools.DelayMonotone` | internal/sink/worker.go:340-355 | A fuller channel never gets a shorter delay |
| `Pools.ProcessRun` | internal/sink/worker.go:151-192 | The whole treatment of one message is a run of the worker's steps |
| `Breakers.SplitExitStrands` | internal/sink/worker.go:403-427 | With the exit taken apart, a circuit that opens again before the re-arming, or whose probe panics, is left without a probe |
| `Breakers.StrandedForever` | internal/sink/worker.go:403-427 | It stays so under any further failures |
| `Breakers.StrandedExactly` | internal/sink/worker.go:403-427 | Only the re-arming with an open circuit does that |
| `WorkerPools.WorkerPool.constructor` | internal/sink/worker.go:65-95 | Sizes that are not positive are replaced by 16384 and 10; the pool starts empty with its circuit closed |
| `WorkerPools.WorkerPool.Submit` | internal/sink/worker.go:234-270 | Taken if and only if the pool is open and has room or spills; the channel, the log and the fate of the object agree with the machine's submit; the log gains exactly the spilt message |
| `WorkerPools.WorkerPool.SubmitStrict` | internal/sink/worker.go:302-322 | Into the channel if and only if the pool is open, its circuit closed and there is room, otherwise refused and released; the log is not touched |
| `WorkerPools.WorkerPool.HandleRejected` | internal/sink/worker.go:194-209 | In fallback mode an encodable message becomes the last entry of the log; in any case it is released blank |
| `WorkerPools.WorkerPool.Process` | internal/sink/worker.go:137-192 | Released exactly once on every path; at most three tries, none with an open circuit; delivered or written, never both; three errors in a row are one recorded failure |
| `WorkerPools.WorkerPool.ProcessAsRun` | internal/sink/worker.go:137-192 | What the method does is what some run of the machine's worker does |
| `WorkerPools.WorkerPool.RecordFailure` | internal/sink/worker.go:211-221 | In place, the breaker's failure step |
| `WorkerPools.WorkerPool.ResetFailures` | internal/sink/worker.go:223-232 | In place, the breaker's reset step |
| `WorkerPools.WorkerPool.Probe` | internal/sink/worker.go:415-430 | In place, a tick of the recovery loop: the probe goes on exactly if the circuit is open and the sink unhealthy, the circuit stays open unless the sink is healthy |
| `WorkerPools.WorkerPool.CanAcceptReplay` | internal/sink/worker.go:327-356 | Admitted if and only if the pool is open, its circuit closed and the channel below four fifths full; the delay as exact numbers |
| `MessagePool.Pool.Acquire` | internal/message/message.go:53-55 | What the pool hands out is blank and no longer in it |
| `MessagePool.Pool.Release` | internal/message/message.go:57-72 | The object is blank and back in the pool; nil is ignored |
| `MessagePool.Pool.Copy` | internal/project/dispatcher.go:251-267 | An exact copy in an object and a buffer of its own, an empty payload becoming nil |
| `MessagePool.Pool.FromEntry` | internal/server/server.go:387-397 | The message of an entry, headers blank |
| `Messages.DetourInvisible` | internal/sink/redis_sink.go:175-187 | Written behind any complete file, scanned, decoded and rebuilt, a message has the same envelope for the sink, although headers are dropped and the payload comes back compact |
| `Messages.WireOfNormal` | internal/wal/wal.go:159-170 | The entry of a message, after one trip through the encoding, still stands for the same envelope and project |
| `Dispatchers.Dispatcher.DispatchStrict` | internal/project/dispatcher.go:189-249 | Nil means each pool configured for the project gained exactly one equal copy, different objects in new buffers they do not share; an error that exactly a proper prefix did, up to the first refusing pool; the log is untouched, the message released, nothing queued is in the message pool; copies come from the message pool or are new, and nothing anyone else holds or has queued is put back or given away, so dispatches of any projects can follow one another |
| `Dispatchers.Dispatcher.Dispatch` | internal/project/dispatcher.go:182-249 | The chain runs once; nil means every pool configured for the project keeps an equal copy, different objects in new buffers they do not share, or spilt it, an error that a proper prefix did; the log gained exactly the spilt copies; nothing queued is in the message pool; nothing anyone else holds is put back or given away; a failed chain leaks the message |
| `Dispatchers.Dispatcher.ReplayBackoff` | internal/project/dispatcher.go:271-301 | Succeeds if and only if the project is configured with pools and each is open, its circuit closed, below four fifths full; with the largest delay, and then every pool would take a message |
| `Dispatchers.Dispatcher.OnReplay` | internal/server/server.go:89-105 | Undisturbed, the callback is all or nothing: once admission succeeds no pool refuses; nothing anyone else holds is put back or given away |
| `Dispatchers.Fan` | internal/project/dispatcher.go:233-248 | The loop, strict or not, serves exactly the pools in front of the first refusal, each through its channel, with an object and a new buffer of its own, or through the log |
| `Pipeline.ChainIsFusedPass` | internal/pipeline/processors.go:28-130 | Every chain equals one fused pass on every payload, errors and panics included |
| `Pipeline.ChainFuses` | internal/pipeline/processors.go:28-130 | On objects a chain of any length acts on each key as one of keep, remove, set, mask-if-present |
| `Pipeline.ChainIdempotent` | internal/pipeline/pipeline.go:29-38 | Every chain is idempotent on every payload it finishes on |
| `Pipeline.PanicsExactlyOnNull` | internal/pipeline/processors.go:77-95 | A chain panics exactly on a literal null whose first waking processor adds a field |
| `Pipeline.Then` | internal/pipeline/pipeline.go:29-38 | The four key actions are closed under composition |
| `Pipeline.IncludeFields` | internal/pipeline/processors.go:38-49 | The loop keeps exactly the named fields that are present |
| `Pipeline.ExcludeFields` | internal/pipeline/processors.go:50-58 | The loop removes exactly the named fields |
| `Pipeline.AddFields` | internal/pipeline/processors.go:86-88 | The loop is a right-biased merge in any order |
| `Pipeline.RedactFields` | internal/pipeline/processors.go:119-123 | The loop masks exactly the named fields that are present |
| `Pipeline.Chain.ProcessAll` | internal/pipeline/pipeline.go:29-38 | The loop with early exit is the chain's meaning |
| `Pipeline.Chain.Add` | internal/pipeline/pipeline.go:41-43 | The processor comes last |
| `Nonces.NonceSafety` | internal/auth/auth.go:83-127 | Over whole runs, an accepted (app key, timestamp, nonce) is accepted again only if at least the maximum of other keys was accepted no earlier, given a lifetime of window + lead + 1 s |
| `Nonces.ShorterLifetimeFails` | internal/auth/auth.go:83-127 | For every shorter lifetime two requests alone are both accepted |
| `Nonces.AheadWithinWindow` | internal/auth/auth.go:90-95 | The lead never exceeds the window, so twice the window plus 1 s always suffices |
| `Nonces.UnusedIsAccepted` | internal/auth/auth.go:143-177 | Over whole runs an admissible request whose app key and nonce were not accepted together before is accepted, whatever nonces other app keys have used |
| `Nonces.KeyExactly` | internal/auth/auth.go:143 | Two pairs share a cache key if and only if they are equal or one app key runs into the other pair's nonce across a NUL of its own |
| `Nonces.KeyInjective` | internal/auth/auth.go:143 | So for app keys without NUL only equal pairs share one |
| `Nonces.Middleware.ConsumeNonce` | internal/auth/auth.go:135-177 | A live key is refused; any other is remembered after oldest-first eviction; the cache is then within its maximum, whatever it held before; positive limits are in force as configured, others are 300 s and 100000 |
| `Nonces.Middleware.Oldest` | internal/auth/auth.go:161-171 | A minimum by time; the empty-key exit is unreachable |
| `Nonces.Middleware.Expire` | internal/auth/auth.go:150-154 | Exactly the expired keys are gone |
| `Nonces.Middleware.Handle` | internal/auth/auth.go:83-127 | Accepted if and only if the request is in order, within the window, and its app key and nonce are not cached within the lifetime; the nonce is consumed last, under the configured limits, or 300 s and 100000 |

## Left out

- The HTTP server, gin handlers, middleware plumbing, health endpoints, metrics, logging and configuration loading: glue
  without deep state. A YAML-configured gateway never syncs every write, because a zero interval becomes 100 ms.
- The Redis and Kafka clients: `Send` and `HealthCheck` are nondeterministic.
- The signature check: a request carries whether everything but window and nonce is in order.
- The rate limiter, sink configuration merging, and building a chain from configuration (a right-biased merge and a loop
  that skips unknown processors).
- `purgeOldSegments`, which removes nothing.
- Operating-system faults inside a rotation or a buffered write, files with odd names, and the retry delays of a removal.
- WalWriter.Writer.constructor: the queue it stands for is stated for directories without a segment 0, which no writer
  creates; with one, the log opened is the same, but segment 0 is outside the queue.
- A send on a channel closed at that very moment, and the waiting of block mode beyond its outcome.
- JSON itself: the encoding is a parameter with laws (non-empty, one line, round trip up to compaction, no strict prefix
  decodes), and so are decoding and encoding of payloads. Strings that are not valid Unicode and the zone of
  timestamps are outside those laws.
- Decoded JSON values are opaque; the loss of precision of large numbers is not modelled.
- Pools.CanAcceptReplay: exact ratios instead of floating point.
- Dispatchers.Dispatcher.Dispatch: takes a message, not nil, which the code refuses first.
- WalWriter.ReadAll: calls the segment reader as a function; `WalWriter.ReadSegment` proves the loop behind it.
- Dispatchers.Dispatcher.OnReplay: undisturbed by other steps; under interference the engine machine lets it fail anywhere.
