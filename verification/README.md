# Moxy in Dafny

Moxy is a leased task queue. A worker fetches a task under a lease with a
deadline; acking the lease completes the task, and a lease that passes its
deadline is reaped, which requeues the task or buries it as dead. Placement of
tasks is durable in a queue backend, lease transitions are durable in a
journal, and the lease map and the expiration heap live in process memory. A
restart folds the journal into the leases still open and reconciles them with
the backend by exact (task ID, lease ID) fences.

This project models that system and proves what it guarantees.

| file | what it holds |
|---|---|
| `Types.dfy` | tasks, leases, fences, journal records, fault outcomes |
| `Queue.dfy`, `MemoryQueue.dfy` | backend transitions as functions on a value; the in-memory backend as a class |
| `Journal.dfy` | the live fold and compaction |
| `Protocol.dfy` | the step system: one step per durable action or memory update, a crash between any two |
| `Conservation.dfy`, `Leasing.dfy`, `Delivery.dfy`, `Attained.dfy`, `Attempts.dfy`, `Exclusive.dfy`, `Schedule.dfy`, `Agreement.dfy`, `DoubtfulAppends.dfy`, `Recovery.dfy`, `Payloads.dfy`, `Fetching.dfy`, `AckOrder.dfy` | theorems about all runs |
| `Operations.dfy`, `Reaping.dfy`, `Calls.dfy`, `Answers.dfy` | the engine's operations as whole-state functions, each a run; whole call histories; what the answers mean |
| `ExpirationHeap.dfy`, `Engine.dfy` | the heap and the engine as classes |
| `Crc32.dfy`, `CrcPolynomial.dfy`, `Frames.dfy`, `Wal.dfy` | checksum, frames and replay, the open journal |
| `Redis.dfy` | the Lua scripts over lists and hashes |
| `Resp.dfy`, `RespWire.dfy`, `RespStream.dfy` | reading and printing RESP2 as functions; the grammar as a relation; reader and writer objects |

## How to read the protocol

A run is a list of actions, and an action carries every choice the environment
makes, so one step is a function. `Apply` has a step for each durable action of
internal/core/engine.go and for each memory update between two of them; `Crash`
is enabled everywhere. `Exec` is the state a run leads to. The `hist` part of a
state records what has happened (tasks taken in, tasks completed, the lease each
acquisition was made for, leases returned by Fetch, acks that returned success);
no operation reads it.

Hypotheses, stated once:

- Each public engine operation holds its mutex throughout, so other operations
  do not interleave with it; crashes fall inside it. One live engine per backend.
- Task and lease IDs drawn by the engine are fresh (`id !in accepted`,
  `FreshLease`).
- A backend call may fail before or after its transition applied (`Fault`, `Protocol.FaultMeans`).
- An append ends in one of four ways: on disk; error with nothing written; error
  with the whole frame written; crash with a torn frame. A torn frame is a
  `Crash`, because replay drops it (`Frames.TornTail`). An append that writes part
  of a frame, reports an error and is followed by more appends is excluded: the
  source does not seek back, and later frames would sit behind a torn one, where
  replay does not see them (`Frames.PartialFrameHidesLater`).
- `Tamper` replaces the journal while the process is down. `Intact` runs have no
  such step: records that reached the disk stay there. Theorems that need this
  say so; conservation, terminality, ack uniqueness, scheduling, agreement and
  recovery hold for any journal.
- Instants are integers. JSON is an abstract codec whose decoder undoes its encoder.
- RESP simple strings and errors are values of the format only without LF. Error
  texts joined with line breaks (internal/core/engine.go:112, 214) are outside it,
  and `Resp.RoundTripExactly` says exactly what is inside.

## Model

| member | source | states |
|---|---|---|
| Exclusive.ExclusiveLease | internal/core/engine.go:100-298 | after any run that publishes a lease, through any continuation with crashes and restarts in which that lease is not acked and no reap starts at or past its deadline: the task stays in processing under its fence, no other Fetch returns it, every serving process holds the lease with its original deadline |
| Exclusive.FencedOverRuns | internal/core/engine.go:229-322 | whatever is done for other leases, older generations of the same task included, a published lease keeps its task, its journal record and its place in memory |
| Exclusive.FenceProtects | internal/queue/memory.go:64-147 | a processing entry changes only by a transition carrying its own task ID and fence, or by a reconciliation that does not cover it |
| Exclusive.ProtectedIsAckable | internal/core/engine.go:229-259 | a lease that still holds its task can be acked between operations: one success, its task completed and taken out of processing, its lease dropped and closed in the journal, every other entry, lease and live record kept |
| Exclusive.StaleAckIsPrecise | internal/core/engine.go:241-249 | acking a lease that lost its task leaves the backend alone, drops and closes only that lease and reports no success |
| Answers.AckAnswerMeans | internal/core/engine.go:229-259 | success is answered if and only if the ack completed its task, took it out of processing, closed the record and dropped the lease; "lease not found" if and only if the lease was unknown or had lost its task, with the backend untouched and the lease not in memory; any other answer keeps the lease |
| Answers.FetchAnswerMeans | internal/core/engine.go:175-226 | a lease is answered if and only if it was granted: oldest ready task, deadline at the clock plus the timeout, journalled, in memory, scheduled; every other answer leaves no lease and no heap entry, and says why |
| Answers.OneSuccessPerTask | internal/core/engine.go:229-259 | over every history of calls, with deaths inside and between them, at most one ack per task answers success |
| Answers.BoundedLeaseAnswers | internal/core/engine.go:175-226 | over every such history at most MaxAttempts fetches answer a lease of one task |
| Delivery.DeliveryBound | internal/core/engine.go:300-326 | with MaxAttempts = M > 0, Fetch publishes any one task at most M times over a whole run, with crashes, ambiguous backend errors, failed appends and uncharged orphan recovery |
| Attained.BoundAttained | internal/core/engine.go:324-326 | the bound is exact: for every M > 0 some run publishes one task M times |
| Attempts.AttemptsStayBelow | internal/core/engine.go:206-217 | a step keeps every ready and processing task below MaxAttempts if and only if it is not a hand-back of a task that had no attempt to spare |
| Attempts.BelowExactly | internal/core/engine.go:206-217 | over a whole intact run: every state passed through keeps all ready and processing tasks below MaxAttempts if and only if no step is such a hand-back |
| Attempts.HandBackReachesLimit | internal/core/engine.go:206-217 | from any idle state whose oldest ready task is one attempt short, one failed fetch append puts it at the limit while ready |
| Attempts.LimitIsReached | internal/core/engine.go:206-217 | the exception is real: for every MaxAttempts M > 0 some run from the empty system leaves a ready task with M attempts |
| Attempts.UnlimitedNeverBuries | internal/core/engine.go:324-326 | with MaxAttempts <= 0 no run from the empty system, whatever the journal, has a dead task |
| Attempts.DeadHaveReachedLimit | internal/core/engine.go:300-326 | in every intact run every dead task has a limit set and has reached it |
| Conservation.OnePlace | internal/queue/memory.go:11-16 | an accepted task ID occurs exactly once among ready, processing, dead and completed; any other ID nowhere |
| Conservation.ConservationOverRuns | internal/core/engine.go:100-318 | every step of every run keeps that, for any journal handed to any restart; and at most one Ack per task returns success |
| Conservation.TerminalForever | internal/core/engine.go:241-258 | a completed or dead task is never ready or processing again in any continuation |
| Payloads.PayloadsSurvive | internal/core/engine.go:156-172 | in every run every ready, processing and dead task, and every task a Fetch handed out, carries the payload that an Enqueue of the run gave its ID |
| Fetching.EnqueuedIsFetched | internal/core/engine.go:156-226 | from any idle state, what was enqueued is handed out by fetches without faults: that payload, no attempt charged |
| Fetching.FetchesInOrder | internal/queue/memory.go:33-61 | fetches without faults hand out the ready tasks unchanged and in order |
| Fetching.FirstInFirstOut | internal/queue/memory.go:33-61 | of two enqueued tasks the earlier is handed out first, after those that were ready before |
| AckOrder.JournalFirstRedelivers | internal/core/ack_ordering_test.go:105-126 | if ack journalled first and died before the backend heard, every successful recovery would put the finished task back in ready with no attempt charged, and fetches after it would hand the task out again as it was |
| Fetching.FetchesReach | internal/core/engine.go:175-226 | from any idle state, fetches without faults hand out any given ready task unchanged |
| Leasing.SoundOverRuns | internal/core/engine.go:100-318 | over every intact run: processing entries, live records and leases in memory all carry the lease their acquisition created, and a published lease that holds its task has a live record |
| Leasing.PublishedNotOrphan | internal/queue/memory.go:103-123 | startup reconciliation never returns a task held by a published lease |
| Leasing.CloseKeepsGuard | internal/core/engine.go:241-258 | closing the record of a lease that holds no task cannot close the record of one that does |
| Schedule.SchedulingOverRuns | internal/core/engine.go:136-140 | in every run every active lease has exactly one heap entry, not earlier than its deadline, unless it is being expired right now |
| Schedule.SchedulingPop | internal/core/engine.go:276-283 | a popped due entry of an active lease is always due to expire: the branch that drops an entry for a lease not yet due is never taken |
| Schedule.BoundedRetry | internal/core/engine.go:262-298 | with reaps at least one retry delay apart, among any k+1 finished reaps with at most k failures one leaves no lease past its deadline |
| Agreement.JournalMatchesMemory | internal/core/engine.go:206-318 | at every idle point, for any journal found at startup, the journal folds to the leases in memory in IDs, tasks and deadlines, except for leases whose append failed after its frame reached the disk |
| DoubtfulAppends.MirrorExactly | internal/core/engine.go:206-318 | the exact condition: at every idle point of every intact run the journal folds to the lease map if and only if every lease with such an append is by now gone from both |
| DoubtfulAppends.UnsyncedFetchStays | internal/core/engine.go:206-217 | from any idle state with a ready task, one fetch with such an append leaves its lease in the journal and not in memory |
| DoubtfulAppends.JournalCanDiffer | internal/core/engine.go:206-217 | the condition can fail: a run from the empty system that ends idle with journal and memory apart |
| Recovery.RecoveryIsRestartable | internal/core/engine.go:100-142 | any list of recovery steps, with faults and crashes anywhere, that ends recovered gives the leases, processing entries, ready multiset and dead list fixed by the starting backend and journal, no attempt charged, tasks already ready still first and in order, leases one to one with fences, each scheduled once at its own deadline |
| Recovery.RecoveryCompletes | internal/core/engine.go:100-142 | a fault-free restart recovers from any backend and any journal |
| Recovery.ReconcileReaches | internal/queue/memory.go:103-123 | reconciliation leaves no orphan, keeps what matched, and does not change what recovery will end in |
| Recovery.CloseReaches | internal/core/engine.go:116-124 | journalling a stale record for an unmatched lease does not change what recovery will end in |
| Reaping.ReapEqualsScan | internal/core/engine.go:262-298 | a reap without error keeps exactly the leases scheduled after now, untouched with their processing entries; with no retry pending, exactly the leases not yet due; each reaped lease that held its task gives it up with one more attempt, to dead storage exactly when a limit is set and reached and else to ready, and nothing else leaves processing or enters ready or dead |
| Reaping.ReapSplitsByAttempts | internal/core/engine.go:300-326 | from a sound state, every task a reap puts in ready has charged attempts below the limit or there is no limit, and every task it buries has reached a limit |
| Reaping.UnlimitedReapRequeues | internal/core/engine.go:300-326 | without a limit every held task of a reaped lease is in ready with one more attempt and nothing is buried |
| Reaping.RecordTellsWhere | internal/core/engine.go:300-318 | the record that closes an expired lease is dead-letter if and only if dead storage grew, expire if and only if ready grew, stale if and only if the backend did not change |
| Reaping.CleanTurns | internal/core/engine.go:262-298 | turns that meet no fault never end a reap early |
| Reaping.ReapIsMarked | internal/core/engine.go:262-298 | the list of reaps that bounded retry speaks of records each reap as it was: its clock, whether it met an error, whether it left no due lease |
| Reaping.NothingStranded | internal/core/engine.go:100-318 | whatever backend and journal a dead process left, after any recovery one error-free reap at or past every recovered deadline leaves processing and the lease map empty, and every task that was processing is ready or dead |
| Operations.FetchIsRun | internal/core/engine.go:175-226 | the whole-state effect of Fetch is the run acquire, journal, publish or hand back |
| Protocol.FaultMeans | internal/core/engine_test.go:834-849 | a backend call that fails before leaves the backend as it was; one that fails after leaves it as the call without error would |
| Operations.AckIsRun | internal/core/engine.go:229-259 | the whole-state effect of Ack is the run complete, journal, forget |
| Operations.ReapIsRun | internal/core/engine.go:262-298 | the whole-state effect of ReapExpired is a run of pops and expiries |
| Operations.RestoreIsRun | internal/core/engine.go:100-142 | the whole-state effect of restore is a run of recovery steps |
| Calls.OperationIsRun | internal/core/engine.go:100-318 | the steps listed for each operation are a run from where it starts to where it returns |
| Calls.HistoryIsRun | internal/core/engine.go:75-318 | every list of public calls and restarts, with process deaths between calls and after any prefix of the steps of a call, is an intact run of the protocol |
| Calls.EveryHistory | internal/core/engine.go:75-318 | after every such list from the empty system: conservation, one ack per task, sound leases, scheduling, agreement, delivery bound |
| EngineModel.Engine.constructor | internal/core/engine.go:75-96 | a new engine over a backend and a journal is the state that recovery from them leads to, recovered if no fault was met; the retry delay defaults to one second |
| EngineModel.Engine.Restore | internal/core/engine.go:100-142 | restore computes exactly the recovery function, with the error cases; the appends meet the faults given, and without a fault on an open journal the engine ends recovered |
| EngineModel.Engine.CloseUnmatched | internal/core/engine.go:116-124 | stale records are written for unmatched leases until one append fails, each append meeting the fault given for its lease |
| EngineModel.Engine.ReinstateMatched | internal/core/engine.go:126-141 | matched leases return to memory, each scheduled at its journalled deadline |
| EngineModel.Engine.Enqueue | internal/core/engine.go:156-172 | new state and answer for every fault |
| EngineModel.Engine.Fetch | internal/core/engine.go:175-226 | new state and answer for every combination of timeout, recovery error, backend fault, append outcome and hand-back fault |
| EngineModel.Engine.Publish | internal/core/engine.go:206-225 | journal, then lease map and heap; a failed append hands the task back |
| EngineModel.Engine.Ack | internal/core/engine.go:229-259 | new state and answer for every combination of lease, fence, backend fault and append outcome |
| EngineModel.Engine.ExpireLease | internal/core/engine.go:285-294 | one expiry: backend, journal, forget; on error one retry entry and the lease kept |
| EngineModel.Engine.Transition | internal/core/engine.go:300-318 | requeue or bury by attempts, then the matching close record |
| EngineModel.Engine.ReapExpired | internal/core/engine.go:262-298 | the state after the turns it took, each meeting the fault given for it; without faults and with room in the journal it succeeds; on success tasks move as in the full scan, with no retry pending exactly the leases not yet due remain, and the number returned is that of the due leases |
| ExpirationHeap.RootIsLeast | internal/core/heap.go:16-41 | in an ordered heap the root is due no later than any item |
| ExpirationHeap.Heap.Push | internal/core/heap.go:24-26 | adds one item and keeps heap order |
| ExpirationHeap.Heap.Pop | internal/core/heap.go:28-34 | removes the root, keeps the other items and heap order |
| ExpirationHeap.Heap.Peek | internal/core/heap.go:36-41 | the earliest item, or none exactly when empty |
| ExpirationHeap.Heap.SiftUp | internal/core/heap.go:16-26 | restores order from one item that may be too early, keeping all items |
| ExpirationHeap.Heap.SiftDown | internal/core/heap.go:16-34 | restores order below the root, keeping all items |
| Queue.EnqueueMass | internal/queue/memory.go:33-39 | enqueue adds exactly the new task ID |
| Queue.AcquireMass | internal/queue/memory.go:42-61 | acquire moves an ID and drops or copies none, except that a task whose ID is already processing overwrites that entry |
| Queue.CompleteMass | internal/queue/memory.go:64-78 | complete removes exactly the completed ID, and only if the fence matched |
| Queue.RequeueMass | internal/queue/memory.go:81-98 | requeue moves an ID and drops or copies none |
| Queue.BuryMass | internal/queue/memory.go:126-147 | dead-lettering moves an ID and drops or copies none |
| Queue.ReconcileMass | internal/queue/memory.go:103-123 | reconciliation moves IDs and drops or copies none |
| MemoryBackend.MemoryQueue.Enqueue | internal/queue/memory.go:33-39 | the new contents |
| MemoryBackend.MemoryQueue.Acquire | internal/queue/memory.go:42-61 | the oldest ready task moves to processing under the lease, or nothing changes when empty |
| MemoryBackend.MemoryQueue.Complete | internal/queue/memory.go:64-78 | the new contents and the outcome for each fence case |
| MemoryBackend.MemoryQueue.Requeue | internal/queue/memory.go:81-98 | the new contents, attempts charged, and the outcome for each fence case |
| MemoryBackend.MemoryQueue.DeadLetter | internal/queue/memory.go:126-147 | the new contents, attempts charged, and the outcome for each fence case |
| MemoryBackend.MemoryQueue.RecoverOrphanedProcessing | internal/queue/memory.go:103-123 | exactly the uncovered entries return to ready, each once and uncharged, in some order; the matched lease IDs and the number moved |
| Queue.Check | internal/queue/memory.go:64-75 | accepted exactly when the fence holds the task, not processing exactly when the task is absent, else a fence mismatch |
| Journal.ComputeLive | internal/wal/wal.go:230-241 | the loop computes the live fold |
| Journal.LiveMeaning | internal/wal/wal.go:228-241 | a lease is live exactly when its last effective record is a fetch, and that record is the one kept |
| Journal.CompactLive | internal/wal/wal.go:158-185 | a compacted journal folds to the same live map |
| Journal.CompactionPreservesFuture | internal/wal/wal.go:148-185 | compaction followed by any later records folds as the original followed by them |
| Crc32.BurstDetected | internal/wal/wal.go:254 | any change within four consecutive bytes changes the CRC-32 |
| Crc32.SameEnd | internal/wal/wal.go:254 | messages of at most four bytes that reach the same register from the same register are equal |
| CrcPolynomial.ChecksumIsRemainder | internal/wal/wal.go:254 | for every message the checksum is the complement of the remainder of the division, by the generator polynomial of section 8 of RFC 1952, of the message times x^32 with its first 32 coefficients complemented |
| CrcPolynomial.RemainderUnique | internal/wal/wal.go:254 | that division has one quotient and one remainder |
| Frames.LengthRound | internal/wal/wal.go:253 | the little-endian length field reads back |
| Frames.FrameLayout | internal/wal/wal.go:243-257 | a frame is the payload length in four bytes, lowest first, the CRC-32 in four bytes, lowest first, and the payload |
| Frames.NextExactly | internal/wal/wal.go:273-304 | bytes are trusted if and only if they begin with the whole frame of a non-empty payload of at most 8 MiB that decodes |
| Frames.PrefixRunsOut | internal/wal/wal.go:273-294 | every strict prefix of a frame makes the reader run out of bytes |
| Frames.DecidedStays | internal/wal/wal.go:273-304 | where the reader does not run out, later bytes change nothing |
| Frames.ReadFrame | internal/wal/wal.go:273-304 | one frame is read exactly when length, checksum and decoding all allow it; running out of bytes is an error exactly when reading breaks off instead of ending |
| Frames.ComputeReplay | internal/wal/wal.go:261-306 | the loop returns all trusted records and the offset after them; it fails exactly when the seek fails or reading breaks off where a frame still wanted bytes, and then returns nothing |
| Frames.FileReplay | internal/wal/wal.go:243-306 | a journal of encoded records replays to those records, all of it |
| Frames.TornTail | internal/wal/wal.go:126-141 | a journal followed by any prefix of a frame replays to the old records, or to one more when the frame is whole |
| Frames.PartialFrameHidesLater | internal/wal/wal.go:131-133 | after a partly written frame, later appends stay invisible to replay until they fill the payload it announced |
| Framing.TruncationIdempotent | internal/wal/wal.go:97-118 | for arbitrary bytes, the trusted part replays to the same records with nothing left over |
| Framing.ReplayConcat | internal/wal/wal.go:259-306 | bytes that replay completely are a prefix to any bytes after them |
| Frames.AppendAfterTruncation | internal/wal/wal.go:97-141 | after truncating arbitrary bytes, the next append replays as one extra record |
| Frames.CorruptionStopsReplay | internal/wal/wal.go:281-304 | changing at most four consecutive payload bytes of a frame makes replay return exactly the records before it and their length |
| Wal.Log.Open | internal/wal/wal.go:85-118 | opening arbitrary bytes keeps exactly the trusted part; whichever step fails, the bytes left on disk replay to the same records |
| Wal.Log.Append | internal/wal/wal.go:126-141 | the bytes, records and offset for each outcome; success exactly on an open handle with a record of at most 8 MiB durably written |
| Wal.Log.WriteCompacted | internal/wal/wal.go:158-185 | the compaction file holds one frame per open lease, exactly when every record fits and no write fails; the journal path is untouched |
| Wal.Log.Compact | internal/wal/wal.go:152-213 | whichever operation fails, the journal on disk folds to the same open leases; it succeeds exactly when the handle is open, every open lease fits and no operation fails, and is then the compacted journal; a failure leaves the handle closed exactly from its closing on |
| Redis.RedisQueue.Enqueue | internal/queue/redis.go:68-75 | simulates the in-memory enqueue, pushing on the left of the list |
| Redis.RedisQueue.Acquire | internal/queue/redis_scripts.go:34-49 | simulates the in-memory acquire, popping from the right of the list; both hashes keep the same fields |
| Redis.RedisQueue.Complete | internal/queue/redis_scripts.go:51-68 | simulates the in-memory complete with the same result; not processing exactly when the task is absent, applied exactly when the fence matches |
| Redis.RedisQueue.Requeue | internal/queue/redis_scripts.go:70-91 | simulates the in-memory requeue with the same result, pushing on the left of the list |
| Redis.RedisQueue.DeadLetter | internal/queue/redis_scripts.go:131-158 | simulates the in-memory dead-letter with the same result, pushing on the left of the list |
| Redis.RedisQueue.RecoverEntry | internal/queue/redis_scripts.go:110-122 | one entry is kept exactly when its joined key is active, else returned to ready |
| Redis.RedisQueue.RecoverScript | internal/queue/redis_scripts.go:93-129 | for any IDs, reconciles by joined keys and replies with the count and the matched leases |
| Redis.RedisQueue.RecoverOrphanedProcessing | internal/queue/redis.go:135-151 | for NUL-free task IDs, simulates the in-memory reconciliation with the same result |
| Redis.ActiveKeys | internal/queue/redis_scripts.go:98-105 | the active table holds exactly the joined keys of the argument pairs |
| Redis.JoinedMeaning | internal/queue/redis_scripts.go:103-114 | two pairs join to the same key if and only if they are equal or one task ID extends the other past a NUL |
| Redis.ScriptMatchesPairs | internal/queue/redis_scripts.go:98-122 | the script's match is the exact pair match if and only if no uncovered entry is confused with a recovered fence |
| Redis.NulFreeMatchesPairs | internal/queue/redis_scripts.go:98-122 | with NUL-free task IDs it always is |
| Redis.JoinedKeysCollide | internal/queue/redis_scripts.go:103 | a store whose only entry has no recovered lease, which the script keeps in processing and reports as matched |
| Redis.DecodeRecoveryResult | internal/queue/redis.go:188-209 | a reply decodes exactly when it is a count followed by lease IDs, and to those |
| Resp.RoundTripExactly | internal/resp/writer.go:17-48 | a value survives printing and reading in every stream if and only if its lines are LF-free and short enough and its sizes are within the limits, recursively |
| Resp.RoundTrip | internal/resp/reader.go:27-133 | reading a printed value followed by any bytes gives the value and those bytes |
| Resp.PrefixFails | internal/resp/reader.go:27-133 | no strict prefix of a printed value reads as a value |
| Resp.ReadPrintRead | internal/resp/reader.go:27-133 | whatever the reader accepts, printing and reading it again gives the same value |
| Resp.ReadIsCarried | internal/resp/reader.go:27-133 | whatever the reader accepts is within the format's limits |
| Resp.Extends | internal/resp/reader.go:27-133 | bytes after a value do not change how it is read |
| Resp.LineRound | internal/resp/reader.go:118-133 | a line without LF and within the limit reads back, leaving the rest |
| Resp.DecimalRound | internal/resp/reader.go:51-55 | every 64-bit integer parses back from its decimal form |
| RespWire.ReadExactly | internal/resp/reader.go:27-133 | for every byte string: a value is read and some bytes are left if and only if the input is a wire form of that value followed by those bytes, the wire form being the grammar with its limits, signs and leading zeros included |
| RespWire.WireIsUnambiguous | internal/resp/reader.go:27-133 | no two values share a wire form and none is a prefix of another |
| RespWire.PrintIsWire | internal/resp/writer.go:17-48 | what the writer puts out for a value within the limits is a wire form of it |
| RespWire.ParsesExactly | internal/resp/reader.go:51-55 | text of a line parses to n if and only if it is a numeral of n: optional sign, digits, 64 bits |
| RespWire.DecimalCanonical | internal/resp/writer.go:17-48 | printed numbers have a sign only when negative and no leading zero |
| RespWire.Refused | internal/resp/reader.go:27-133 | a failing read of anything but an array reports end of input, something over a limit, or malformed bytes, each exactly when so |
| RespWire.ArrayRefused | internal/resp/reader.go:65-87 | a failing read of an array reports its length line, or the failure of its first bad element with the input left there |
| RespStream.Reader.ReadLine | internal/resp/reader.go:118-133 | the line or the failure, and the input left in either case |
| RespStream.Reader.ReadBulkString | internal/resp/reader.go:89-116 | the bulk string or the failure, and the input left in either case |
| RespStream.Reader.ReadArray | internal/resp/reader.go:65-87 | the array or the first element's failure, and the input left in either case |
| RespStream.Reader.ReadValue | internal/resp/reader.go:27-63 | the value or the failure, and the input left in either case |
| RespStream.Writer.WriteValue | internal/resp/writer.go:17-48 | appends exactly the printed form |

## Left out

- internal/server, internal/reaper: sockets, goroutines, tickers; the engine mutex already makes operations atomic to each other.
- internal/service, internal/command, internal/protocol: dispatch and translation, which would only add easy members.
- cmd, scripts, docs tooling: process set-up and checking of documents.
- JSON and cjson text, UUID generation, the clock, fsync and rename semantics, the go-redis client: foreign code, replaced by codecs, freshness conditions and the outcomes listed above.
- Payload cloning and aliasing: values are immutable here.
- Stats counters and `Close`: observers and teardown.
- EngineModel.Engine.constructor: a nil journal, which turns appends into no-ops, is not modelled; the recovered records are those of the journal it is given.
- EngineModel.Engine.ReapExpired: the order among heap entries due at the same instant is whatever the heap layout gives, so the contract names the turns taken instead of fixing them.
- MemoryBackend.MemoryQueue.DeadLetter: the time of death is not modelled.
- MemoryBackend.MemoryQueue.RecoverOrphanedProcessing: the order in which orphans return to ready is any order, as map iteration leaves it.
- Wal.Log.Append: an error with part of the frame written is not among the outcomes, as stated above; `Frames.PartialFrameHidesLater` says what it would do.
- Wal.Log.WriteCompacted: the source writes leases in sorted ID order; the contract allows any order, which the theorems do not depend on.
- Redis.RedisQueue.Acquire: stored values that do not decode, on which the script would stop half-way, are excluded by the queue's validity.
- Attempt counters and lengths are unbounded integers; wrap-around of Go's `int` is not modelled.
