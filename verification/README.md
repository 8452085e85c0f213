# Vote journals and exact counting, verified

A Dafny model of the parts of the repository that must never lose, duplicate or miscount a vote:

- **File journal** (`internal/filelog`): the byte format, recovery scanning, the group-commit writer with its
  queue, sealing, failures and crashes.
- **Kafka journal** (`internal/votelog`): records and frames, many fenced owners of one partition, recovery
  barriers, replay, and the audit of all partitions.
- **In-memory engine** (`internal/votecore`): a sharded first-choice table under lock-level interleaving.
- **Auditors** (`cmd/filebench`, `cmd/framebench`, `cmd/corebench`, `cmd/logbench`): what their `Correct` flag means.
- **Promotion controller** (`scripts/replication_lab.py`): fencing and promotion with a crash between any two steps.
- **Bounded arithmetic** of the load generators: slot schedules, frame and disk bounds, histogram quantiles.

## How it is laid out

A component whose code changes state in place has two parts. One is a class (or a method with loops) in the
code's own form: `FileStore.Store`, `LogStore.Writer`, `Engine.Engine`, `FileAudit.Auditor`, `LogAudit.Audit`,
`CoreAudit.Reconcile`, `AttemptAudit.Reconcile`, `FrameBound.Generator`, `StorageRun.Observations`,
`Histogram.Histogram`. Its contracts tie every method to a function or predicate on values. The other is a
protocol on values whose steps interleave freely: `FileProtocol`, `LogProtocol`, `EngineProtocol`,
`FileWorkload`, `CoreWorkload`, `Promotion`, with the theorems about whole runs in `FileSafety`, `FileOutcomes`,
`FileProgress`, `LogSafety`, `LogDelivery`, `LogProgress`, `EngineSafety`, `EngineClock`, `EngineAlone` and `Promotion`.

| files | what they hold |
|---|---|
| `Wrappers`, `Sets`, `Sums`, `Arithmetic`, `Bits`, `Bytes` | shared: options, set counting, sums over sets, quotients, `&`/`^`/`math/bits`, big-endian integers |
| `FileCodec`, `FileBuffers`, `FileScan`, `FileScanner` | file format, in-place encoding, parsing, `Scan` and `Replay` |
| `FileProtocol`, `FileSafety`, `FileOutcomes`, `FileProgress`, `FileStore` | the file journal's runs, their guarantees, what callers are told and why, what runs can still do, the store class |
| `LogCodec`, `LogReplay`, `LogProtocol`, `LogSafety`, `LogDelivery`, `LogProgress`, `LogStore`, `LogAudit` | the Kafka journal: records, replay, owners' runs, what they guarantee, what becomes of admissions, what runs can still do, the writer, the audit |
| `EngineTable`, `Engine`, `EngineProtocol`, `EngineSafety`, `EngineClock`, `EngineAlone` | the in-memory engine: its table, the class, its runs, what they guarantee, what answers say about the clock, calls run alone |
| `AuditSpec`, `FileAudit`, `FileWorkload`, `Packed`, `CoreAudit`, `CoreWorkload`, `AttemptAudit` | the auditors and the workloads they audit |
| `Promotion` | the promotion controller |
| `Schedule`, `StorageRun`, `FrameBound`, `Generated`, `WalBound`, `Histogram` | load-generator arithmetic |

`dafny verify dfyconfig.toml` checks everything. CRC-32C, SHA-256 and AES are parameters: arbitrary functions,
except that exactness of the core audit assumes distinct tokens for distinct keys.

## Where a promise holds only under a condition

- **Sealing the last sequence number.** A journal of 2^63-1 frames can be sealed (its CLOSED takes the last
  sequence number), but `Scan` refuses that file. `FileSafety.SealAgreesWithReplay` shows that the file is
  accepted exactly when fewer frames than that were admitted.
- **Promotion.** The controller compares a candidate with the other non-retired standbys only, and what it reads
  of each is the larger of its received and replayed position, which after a restart without an upstream can be
  less than the WAL on its disk. The comparison is right for every candidate if and only if the standby shows all
  of its WAL (`Promotion.ComparisonIsRight`). A promotion keeps every commit that a standby had on disk if and only
  if, when its intent is saved, some non-retired standby still holds them all and the candidate is ahead of the
  others on disk (`Promotion.IntentKeepsFlushed`); over whole runs, all history is kept exactly if that holds at
  every intent (`Promotion.FlushedHistoryKept`). An operator can establish it: let a standby catch up after each
  promotion, which the controller's verifying write waits for, and compare only standbys that have replayed all
  they have (`Promotion.ShownIntentsKeep`). Promoting twice without the first
  (`Promotion.SecondPromotionLosesFlushed`) and once without the second (`Promotion.LaggingReplayLosesFlushed`)
  can fence off the only copies of a flushed commit although every check passes. Showing all WAL is not necessary
  when the candidate is ahead anyway (`Promotion.LaggingReplayCanKeep`).
- **Answers of the Kafka writer.** `Close` ends the store's context without the writer's lock, and the deferred
  function of `run` empties the job channel without it. A `Submit` that had passed its gate before can then send a
  job that nobody takes. `LogStore.Run` shows that every job gets one answer exactly unless it is such a one, that
  there is at most one per writer, and that its caller is released by the ended context; `LogStore.StrandOne` is
  the shortest such schedule. Jobs answered by the deferred function also keep their credits, so `queuedVotes` is
  then not 0.
- **Order of a Go map.** `cmd/logbench` orders records by offset only. Its verdict on canonical votes is the same
  for every map iteration order if and only if no token has two least-offset records with different votes (two
  entries of one frame); `AttemptAudit.OrderShowsOnTies`. Whatever the order, `Correct` is never reported wrongly
  (`AttemptAudit.Reconcile`). The program's own journals have one record per offset
  (`AttemptAudit.OnePerOffsetHasNoTies`).

## Model

| member | source | states |
|---|---|---|
| `Bits.MaskedChoice` | internal/filelog/types.go:45-47 | a choice passes the mask test exactly when it selects no option outside the mask |
| `Bits.OneBitMeansPower` | internal/filelog/types.go:45-47 | the single-choice test holds exactly for one selected option |
| `Bits.ChoiceMeans` | internal/filelog/types.go:45-47 | the whole test on a choice, in terms of the options it selects |
| `Bits.ClearLowestBit` | internal/votecore/engine.go:131-133 | `mask &= mask-1` clears exactly the bit that TrailingZeros names |
| `Bytes.RoundTrip32` | internal/filelog/codec.go:53-72 | 32-bit big-endian writing and reading are mutual inverses |
| `Bytes.RoundTrip64` | internal/filelog/codec.go:53-72 | the same for 64 bits, and for int64 instants through their two's complement |
| `FileCodec.EntryRoundTrip` | internal/filelog/codec.go:53-94 | entry encoding and decoding are mutual inverses on all 28-byte strings |
| `FileCodec.PayloadRoundTrip` | internal/filelog/codec.go:53-94 | a payload decodes to the votes it was made from |
| `FileCodec.PayloadInverse` | internal/filelog/codec.go:88-106 | any payload of whole entries re-encodes to itself |
| `FileCodec.WrittenHeaderAccepted` | internal/filelog/codec.go:64-86 | a finished header is accepted exactly at its own sequence number, with its kind and count |
| `FileCodec.AcceptedHeaderWritten` | internal/filelog/codec.go:74-86 | an accepted header is byte for byte the one finishFrame writes |
| `FileCodec.FileHeaderBindsPoll` | internal/filelog/codec.go:39-51 | two configurations share a file header only if poll, window, mask and choice mode agree |
| `FileCodec.ValidMeans` | internal/filelog/types.go:45-47 | an input passes exactly if its token is not zero and its choice selects some option, only allowed ones, and one alone unless several may be; a vote if its instant is in the window too |
| `FileCodec.StampValid` | internal/filelog/store.go:123-192 | valid inputs stamped inside the window are a valid frame |
| `FileBuffers.EncodeInputs` | internal/filelog/codec.go:53-62 | the buffer loop writes the payload behind a blank header, entry by entry |
| `FileBuffers.FinishFrame` | internal/filelog/codec.go:64-72 | filling the header in place yields exactly the frame's bytes and leaves the payload alone |
| `FileBuffers.MakeFileHeader` | internal/filelog/codec.go:39-51 | the buffer filled in place is the poll's file header |
| `FileScan.ReadWritten` | internal/filelog/scan.go:57-111 | a written frame reads back whole whatever follows it |
| `FileScan.ReadCut` | internal/filelog/scan.go:57-111 | a cut inside a written frame is an incomplete tail, never corruption |
| `FileScan.ReadInverse` | internal/filelog/scan.go:57-111 | any frame read whole re-encodes to the bytes it was read from |
| `FileScan.ParsePrefix` | internal/filelog/scan.go:57-111 | every byte prefix of a journal scans to the frames that lie whole in it, with the right ValidBytes and tail flag |
| `FileScan.PrefixScans` | internal/filelog/scan.go:18-115 | the same for a whole file with its header |
| `FileScan.ReadOutcomes` | internal/filelog/scan.go:57-111 | any bytes are a cut, a bad header, a bad payload or a whole frame, each exactly when a part of a frame, no frame's header, a complete wrong payload or a written frame is there |
| `FileScan.ParseTail` | internal/filelog/scan.go:57-111 | on any bytes the tail is incomplete exactly if a part of a header, or a header with a part of its payload, is left; a complete header or payload that is wrong, or a byte behind CLOSED, is always an error |
| `FileScan.ParseFileTail` | internal/filelog/scan.go:18-111 | the same for any file: without the poll's own complete header it is an error, and with it the unread rest decides |
| `FileScan.ParseSound` | internal/filelog/scan.go:57-111 | on arbitrary bytes, what was accepted is the encoding of what was reported |
| `FileScan.AcceptedIffClosedJournal` | internal/filelog/scan.go:18-115 | Scan reports Closed without a tail exactly for header, frames 0..n-1 and CLOSED at n, and reports those frames |
| `FileScanner.VisitsOrdered` | internal/filelog/scan.go:92-105 | visits come in strictly increasing (offset, index) order |
| `FileScanner.VisitsComplete` | internal/filelog/scan.go:92-105 | every entry of every frame is visited at (0, sequence, index) |
| `FileScanner.Scan` | internal/filelog/scan.go:18-115 | the streaming loop returns the frames, votes, end and tail that the bytes hold and visits exactly their votes, up to a refusal by the visitor |
| `FileScanner.VisitFrame` | internal/filelog/scan.go:92-105 | the inner loop shows the visitor a frame's entries in order and stops at the first refusal |
| `FileScanner.Replay` | internal/filelog/scan.go:117-126 | Replay returns an end exactly for closed journals, having visited all their votes |
| `FileProtocol.SubmitIsExact` | internal/filelog/store.go:123-180 | a call is admitted exactly if its inputs are valid, its context goes on, the store is sound and open, both clock readings are inside the window and its votes have room; and each refusal exactly in its own case |
| `FileProtocol.SubmitDoes` | internal/filelog/store.go:123-180 | an admission adds that one job at the end of the queue, a reading past the deadline closes the gate, nothing else changes |
| `FileProtocol.StepKeeps` | internal/filelog/store.go:123-393 | every step of submitters, writer, Seal, Close, clock and disk keeps the journal's invariant |
| `FileProtocol.InitialInv` | internal/filelog/store.go:50-121 | a new store satisfies the invariant |
| `FileSafety.RunKeeps` | internal/filelog/store.go:123-393 | the invariant holds at every point of every run |
| `FileSafety.RunExtends` | internal/filelog/store.go:123-393 | no run takes back admissions, answers, results or a closed gate |
| `FileSafety.CrashImageScans` | internal/filelog/scan.go:57-111 | after a crash at any moment, scanning finds at least the durable frames and no corruption |
| `FileSafety.AcknowledgedFramesSurvive` | internal/filelog/store.go:123-192 | a frame whose SubmitFrame returned nil is visited, exactly as receipted, after any later crash |
| `FileSafety.SealAgreesWithReplay` | internal/filelog/store.go:204-233 | once Seal returns m the file is synced, holds every admitted frame once in order, and Replay returns m, except at the last sequence number |
| `FileSafety.CloseNeverCertifies` | internal/filelog/store.go:237-242 | a Close before Seal never leaves a file that Replay accepts |
| `FileSafety.DeadlineLatches` | internal/filelog/store.go:141-171 | once the deadline was observed, by the first clock reading or by the second, nothing is admitted again, whatever the clock does |
| `FileSafety.AdmittedInWindow` | internal/filelog/store.go:153-179 | admitted frames are valid, within bounds and stamped inside the window |
| `FileSafety.SendNeverBlocks` | internal/filelog/store.go:157-179 | the send under the mutex finds an open channel with room |
| `FileSafety.QueueDiscipline` | internal/filelog/store.go:277-393 | queue and batch stay within their vote bounds and a waiting batch has its timer armed |
| `FileSafety.AnswerNeverBlocks` | internal/filelog/store.go:298-340 | the writer never answers a job twice |
| `FileSafety.EveryJobAnswered` | internal/filelog/store.go:277-393 | on every exit path each admitted job has an answer and queuedVotes is 0 |
| `FileSafety.WriterNeverStuck` | internal/filelog/store.go:277-393 | until it has ended, the writer always has a step it can take |
| `FileOutcomes.RunAnswersExact` | internal/filelog/store.go:298-340 | in every run an answered call has the receipt of its own frame exactly if that frame is durable, and is otherwise told that nothing is known |
| `FileOutcomes.ReturnsAnswer` | internal/filelog/store.go:180-192 | SubmitFrame returns nil with that receipt exactly if it takes the answer of a durable frame, and an unknown outcome if its context ends first |
| `FileOutcomes.WaitingGetsReceipt` | internal/filelog/store.go:298-330 | every run in which a call waits for a synced group can go on, by answers alone, to return its receipt |
| `FileOutcomes.EndsWell` | internal/filelog/store.go:204-393 | a store is poisoned exactly if a write, a sync or the close failed or there were too many calls; otherwise every call has its receipt and a requested Seal returns their number |
| `FileOutcomes.SealSawDeadline` | internal/filelog/store.go:204-222 | nobody requests a seal before a reading at or past the deadline |
| `FileProgress.CanFinish` | internal/filelog/store.go:277-393 | once the queue is closed, whatever has failed, the writer's own steps can bring every run to its end |
| `FileProgress.CanEnd` | internal/filelog/store.go:204-242 | every run without a failure can be sealed, from the deadline on, or closed, and then ends with a receipt for every admitted call and, if sealed, their number |
| `FileProgress.CanAcknowledge` | internal/filelog/store.go:123-233 | in every such run with an open gate and room, any valid frame can be submitted and its call can return nil with its receipt |
| `FileStore.Store.SubmitFrame` | internal/filelog/store.go:123-192 | the checks in their order and their effect are the protocol's submit step |
| `FileStore.Store.BuildGroup` | internal/filelog/store.go:298-330 | the group buffer is the encoding of the batch's frames at consecutive sequence numbers |
| `FileStore.Store.WriteAll` | internal/filelog/store.go:395-410 | the loop over short writes and errors is a sequence of the protocol's write steps, which ends with all bytes appended or a cut and an error |
| `FileStore.Store.StartFlush` | internal/filelog/store.go:298-330 | a flush begins as the protocol's |
| `FileStore.Store.Dequeue` | internal/filelog/store.go:341-391 | taking a job is the protocol's dequeue step |
| `FileStore.Store.Absorb` | internal/filelog/store.go:341-391 | putting a job into the batch and releasing its votes is the protocol's step |
| `FileStore.Store.Sync` | internal/filelog/store.go:260-275 | a sync, or its failure, is the protocol's step |
| `FileStore.Store.Fail` | internal/filelog/store.go:244-252 | poisoning is the protocol's step |
| `FileStore.Store.CloseFile` | internal/filelog/store.go:277-285 | closing the file, or failing to, is the protocol's step |
| `FileStore.Store.EndFlush` | internal/filelog/store.go:298-330 | ending a flush is the protocol's step |
| `FileStore.Store.DrainNext` | internal/filelog/store.go:331-340 | draining answers one job as unknown and releases its votes |
| `FileStore.Store.CheckSeal` | internal/filelog/store.go:348-361 | the seal decision behind the closed queue is the protocol's step |
| `FileStore.Store.RequestSeal` | internal/filelog/store.go:204-233 | requesting a seal latches the gate and stops the queue |
| `FileStore.Store.RequestClose` | internal/filelog/store.go:237-242 | Close stops the queue without requesting a seal |
| `EngineTable.ValidInputMeans` | internal/votecore/engine.go:101-104 | the same for Submit's check on its input |
| `EngineTable.PartitionIsRemainder` | internal/votecore/engine.go:93-99 | masking with Shards-1 is the remainder by Shards, always a shard |
| `EngineTable.EmptyShardsOk` | internal/votecore/engine.go:74-89 | the per-shard limits sum to Capacity |
| `EngineTable.SumsAreSnapshot` | internal/votecore/engine.go:139-155 | summing the shards gives the table's size and, per option, how many tokens chose it |
| `EngineTable.SubmitRefinesFirstChoice` | internal/votecore/engine.go:101-135 | Submit answers as one first-choice map would, except CapacityExceeded for a new token of a full shard |
| `Engine.Engine.constructor` | internal/votecore/engine.go:74-89 | New builds empty shards with the split capacity |
| `Engine.Engine.Submit` | internal/votecore/engine.go:101-135 | the method's answer and new shards are those of the value specification |
| `Engine.Cell.Count` | internal/votecore/engine.go:131-133 | the bit-clearing loop adds one to exactly the chosen options |
| `Engine.Engine.Seal` | internal/votecore/engine.go:139-155 | Seal refuses before the end and otherwise seals and returns the table's snapshot |
| `Engine.Engine.Lookup` | internal/votecore/engine.go:159-165 | Lookup reads the table |
| `EngineProtocol.StepKeeps` | internal/votecore/engine.go:101-165 | every lock-level step of any number of calls keeps the invariant |
| `EngineSafety.TableIsAcceptedCalls` | internal/votecore/engine.go:101-135 | the table is exactly the accepted calls, one per token |
| `EngineSafety.SealIsBarrier` | internal/votecore/engine.go:139-155 | a returned snapshot equals the final table, no call can store afterwards, and every accepted call is in it once |
| `EngineSafety.SealsAgree` | internal/votecore/engine.go:139-155 | all Seal calls return the same snapshot |
| `EngineSafety.NeverReopens` | internal/votecore/engine.go:101-135 | after the flag is set no call that has not read it is accepted, whatever the clock shows |
| `EngineSafety.AnswersAreFirstChoices` | internal/votecore/engine.go:101-165 | Duplicate and Lookup report the stored first choice, which never changes |
| `EngineSafety.LookupFinds` | internal/votecore/engine.go:159-165 | a Lookup that had not looked when a token was stored reports its choice |
| `EngineSafety.CapacityMeansFull` | internal/votecore/engine.go:124-126 | CapacityExceeded is told only for a token that is not stored, of a shard that is and stays full |
| `EngineClock.AnswersFollowClock` | internal/votecore/engine.go:101-123 | in every run a valid call is Closed exactly if it read the flag as set or an instant at or past the end, NotOpen exactly if it read one before the start, and accepted, duplicate or over capacity exactly if it read one in the window |
| `EngineClock.SealsFollowClock` | internal/votecore/engine.go:139-143 | Seal is refused only after reading the flag unset and an instant before the end, succeeds only otherwise, and the flag is set only after such a reading |
| `EngineAlone.SubmitAlone` | internal/votecore/engine.go:101-135 | run without interference, the lock-level steps of Submit give the answer and the table of one first-choice map, or CapacityExceeded for a full shard |
| `EngineAlone.LookupAlone` | internal/votecore/engine.go:159-165 | and those of Lookup what the table holds |
| `EngineAlone.SealAlone` | internal/votecore/engine.go:139-155 | and those of Seal a refusal before the end, else the totals of the table with the flag set |
| `LogCodec.ValidVoteMeans` | internal/votelog/types.go:62-64 | and for the Kafka journal's choices and votes |
| `LogCodec.RecordRoundTrip` | internal/votelog/types.go:123-161 | every vote and control record decodes to itself |
| `LogCodec.RecordInverse` | internal/votelog/types.go:142-161 | any accepted record re-encodes to the same 80 bytes |
| `LogCodec.FrameRoundTrip` | internal/votelog/frame.go:18-89 | every valid frame decodes to itself |
| `LogCodec.FrameInverse` | internal/votelog/frame.go:56-89 | any accepted frame is valid and re-encodes to the same bytes |
| `LogCodec.VersionsDisjoint` | internal/votelog/frame.go:56-89 | no bytes are accepted both as a record and as a frame |
| `LogCodec.VisitFrame` | internal/votelog/frame.go:56-89 | the visitor sees all entries in order, up to one it refuses, or none of a malformed frame |
| `LogReplay.ReplayFollowsPhase` | internal/votelog/audit.go:91-163 | replay's flags and the form BOOT (BOOT, vote, frame)* CLOSED BOOT* accept the same next record |
| `LogReplay.ReplayAcceptsForm` | internal/votelog/audit.go:91-163 | replay never rejects a log of that form and visits every vote before CLOSED |
| `LogReplay.ReplayReachesBarrier` | internal/votelog/audit.go:91-163 | recovery up to a committed BOOT succeeds and reports whether CLOSED came before it |
| `LogReplay.ReplaySound` | internal/votelog/audit.go:91-163 | on arbitrary records, what replay reads without rejecting is exactly the encoding of a log of valid, rightly routed and keyed entries of that form, whose votes it has visited in order |
| `LogReplay.ReplayDoneIff` | internal/votelog/audit.go:91-163 | the offline replay comes to its end exactly if the records begin with such a log that ends with CLOSED, and then reports that offset and those votes |
| `LogReplay.OnlyBootsAfter` | internal/votelog/audit.go:88-90 | behind CLOSED there are only BOOT records |
| `LogProtocol.StepKeeps` | internal/votelog/store.go:130-555 | every step of any number of owners and of the broker keeps the partition's invariant |
| `LogSafety.LogHasForm` | internal/votelog/store.go:228-268 | every reachable committed log has the form, so CLOSED is committed at most once and no vote follows it |
| `LogSafety.ReplayNeverRejects` | internal/votelog/audit.go:169-182 | the offline replay never rejects a reachable log |
| `LogSafety.RecoveryNeverRejects` | internal/votelog/store.go:229-268 | a new owner's replay to its own barrier always succeeds |
| `LogSafety.FirstRecordIsBoot` | internal/votelog/audit.go:76-87 | the first committed record is a BOOT without key, as the first-record check wants |
| `LogSafety.AcknowledgedIsCommitted` | internal/votelog/store.go:385-421 | a receipt names where exactly that vote or frame is committed, for good, and replay visits it there |
| `LogSafety.SealAgreesWithReplay` | internal/votelog/store.go:513-555 | the sealed offset is where replay finds CLOSED at every later moment, with the same votes |
| `LogSafety.RunExtends` | internal/votelog/store.go:345-383 | nothing committed or acknowledged is taken back |
| `LogDelivery.RunDelivers` | internal/votelog/store.go:385-476 | in every run an owner that has not stopped has given receipts for the first of its admissions, in order; the rest is its batch and its queue |
| `LogDelivery.AckedAreReceipts` | internal/votelog/store.go:405-419 | the receipts of all owners are exactly the acknowledgements |
| `LogDelivery.NothingAfterRequest` | internal/votelog/store.go:513-538 | once Seal is called, an owner admits nothing more |
| `LogDelivery.SealedHasDelivered` | internal/votelog/store.go:489-508 | a sealed owner has given a receipt for every vote and frame it admitted, in order, each committed before CLOSED |
| `LogProgress.CanTakeOver` | internal/votelog/store.go:130-268 | from every reachable state a new owner can take over; it serves, or exactly if CLOSED is committed it is sealed where that is |
| `LogProgress.CanReceipt` | internal/votelog/store.go:345-555 | at any moment of any run without CLOSED a new owner can commit and receipt any vote or frame and then seal |
| `LogProgress.LostReplyCanCommit` | internal/votelog/store.go:345-383 | a commit whose reply was lost stops its owner, gives no receipt, and may still be committed |
| `LogStore.GateIsExact` | internal/votelog/store.go:308-330 | each of the gate's answers says exactly which of closing, failure, lack of room and clock reading it met |
| `LogStore.Writer.Check` | internal/votelog/store.go:308-330 | the gate's checks in order; the lock stays held exactly by a call that passes |
| `LogStore.Writer.Send` | internal/votelog/store.go:331-334 | the send adds exactly the checked job and charges its votes, also when the context has ended meanwhile |
| `LogStore.Writer.CheckVote` | internal/votelog/store.go:300-330 | Invalid exactly for a zero token or bad choice; a pass holds this vote, stamped inside the window |
| `LogStore.Writer.CheckFrame` | internal/votelog/frame_submit.go:21-80 | Invalid exactly for a bad size, input or routing; a pass holds the frame under one instant |
| `LogStore.Writer.Await` | internal/votelog/store.go:335-342 | a caller gets its job's answer, or unknown when a context ends first |
| `LogStore.Writer.SendHasRoom` | internal/votelog/store.go:317-332 | when a job is sent the channel has a free place, so the send under the lock does not block |
| `LogStore.Writer.TakeJob` | internal/votelog/store.go:463-476 | a job moves to the batch within the batch bound and its queue credit is returned |
| `LogStore.Writer.Committed` | internal/votelog/store.go:405-419 | each caller of a committed batch gets the offset of its own record |
| `LogStore.Writer.Failed` | internal/votelog/store.go:405-419 | a failed transaction answers its whole batch as unknown and fails the writer |
| `LogStore.Writer.AppendJob` | internal/votelog/store.go:463-476 | the batch is committed, with receipts, before a job that does not fit and after one that fills it |
| `LogStore.Writer.SealNow` | internal/votelog/store.go:489-508 | CLOSED is committed only after everything admitted was |
| `LogStore.Writer.Transact` | internal/votelog/store.go:345-383 | what each outcome of one transaction does to the writer |
| `LogStore.Writer.Finish` | internal/votelog/store.go:430-442 | the deferred function answers batch and queue as unknown, keeps answers given and returns no credit |
| `LogStore.Writer.OverMeans` | internal/votelog/store.go:430-442 | after it, the unanswered jobs are exactly those sent later, at most one, whose context has ended, and queuedVotes is what was never returned |
| `LogStore.Run` | internal/votelog/store.go:300-511 | in any interleaving of checks, sends, Seal, Close and the writer's turns every job gets one answer, except exactly one sent after the deferred function; a sealed writer gave receipts to all |
| `LogStore.StrandOne` | internal/votelog/store.go:311-341 | the schedule that leaves a job without an answer |
| `LogAudit.VisitsRouted` | internal/votelog/types.go:66-72 | every vote visited in a partition is routed to it |
| `LogAudit.AuditIsConfluent` | internal/votelog/audit.go:184-215 | interleavings with the same records per partition give the same canonical votes, counts and totals |
| `LogAudit.AuditableIsConfluent` | internal/votelog/audit.go:14-74 | and they succeed or fail alike |
| `LogAudit.FirstVoteIsFirst` | internal/votelog/audit.go:199-206 | the canonical vote is the token's first one |
| `LogAudit.CanonicalIsLeast` | internal/votelog/audit.go:184-215 | the canonical vote is at the least (offset, index) among all the token's votes, which share one partition |
| `LogAudit.Tally.Visit` | internal/votelog/audit.go:189-208 | the visitor extends canonical votes, records and counts, or finds a limit or a repeated position |
| `LogAudit.Audit` | internal/votelog/audit.go:184-215 | Audit succeeds exactly when each partition replays to CLOSED within the limit, and then returns the first choices |
| `AuditSpec.SoundMeans` | cmd/filebench/audit.go:131-149 | the vote's own conditions spelled out: window, generated key, original or due repeat, not refused or skipped |
| `AuditSpec.LawfulAdd` | cmd/filebench/audit.go:110-180 | the visitor's conditions on one vote are exactly what keeps the stream lawful |
| `AuditSpec.FrameComplete` | cmd/filebench/audit.go:116-125 | once its partition has moved on, a frame gets no more votes |
| `AuditSpec.AckedWithinLedger` | cmd/filebench/audit.go:75-88 | the journal's acknowledged attempts are among the ledger's |
| `FileAudit.Auditor.Flush` | cmd/filebench/audit.go:91-109 | flush fails exactly when a receipted frame differs in count, admission or digest |
| `FileAudit.Auditor.Turn` | cmd/filebench/audit.go:116-125 | a new offset flushes the frame before it; a smaller one is refused |
| `FileAudit.Auditor.Check` | cmd/filebench/audit.go:131-149 | a vote passes exactly when it is in the window, generated, eligible and acknowledged or unknown |
| `FileAudit.Auditor.Record` | cmd/filebench/audit.go:150-178 | it is counted exactly when its attempt is new and receipted iff acknowledged |
| `FileAudit.Auditor.Visit` | cmd/filebench/audit.go:110-180 | the visitor refuses only votes that no explanation can contain, and the one counter it then raises says why |
| `FileAudit.Auditor.FlushAll` | cmd/filebench/audit.go:181-188 | after the last flush every place of the journal is settled, or some receipt does not match |
| `FileAudit.Verdict` | cmd/filebench/audit.go:193-195 | counting decides: nothing missing means every receipt matched and the same set of acknowledged attempts |
| `FileAudit.Reconcile` | cmd/filebench/audit.go:60-201 | Correct exactly when the ledger explains the journal; the counters are the journal's, or one of three says where and why the audit stopped; the unsigned subtractions never wrap |
| `FileAudit.Stream` | cmd/framebench/audit.go:110-188 | the same streaming pass over any number of partitions |
| `FileWorkload.LedgerAll` | cmd/filebench/workload.go:30-37 | setting a frame's states changes the ledger's ACK attempts by exactly that frame |
| `FileWorkload.StepKeeps` | cmd/filebench/workload.go:256-336 | dispatches, appends, receipts, timeouts and refusals in any interleaving keep states, receipts and journal consistent |
| `FileWorkload.AlwaysConsistent` | cmd/filebench/workload.go:276-326 | no worker's answer is ever held back by the model |
| `FileWorkload.LedgerExplainsJournal` | cmd/filebench/workload.go:250-402 | at every moment the ledger of a workload against a right store explains the journal, so its audit reports Correct |
| `FileWorkload.CanDispatch` | cmd/filebench/workload.go:256-276 | any fresh frame can be dispatched, after which its attempts are unknown |
| `FileWorkload.CanRefuse` | cmd/filebench/workload.go:276-326 | it can be refused, which marks its attempts as rejected, or given up, which leaves them unknown |
| `FileWorkload.CanAppend` | cmd/filebench/workload.go:276-326 | or it can be appended, at the end of the journal |
| `FileWorkload.CanReceipt` | cmd/filebench/workload.go:276-326 | and then receipted, which marks its attempts as committed and adds one receipt |
| `Packed.PutThenGet` | cmd/corebench/metrics.go:108-114 | a written two-bit choice reads back and its three neighbours are untouched |
| `Packed.SetChoice` | cmd/corebench/metrics.go:108-111 | setChoice changes one key's choice only |
| `Packed.BytesHaveOneOwner` | cmd/corebench/workload.go:139-147 | keys that share a byte belong to one worker |
| `Packed.StrideOwns` | cmd/corebench/execute.go:179-184 | of each stride exactly one chunk is the worker's |
| `Packed.NoLostChoice` | cmd/corebench/metrics.go:106-111 | one read or write of a byte by any worker changes no other key's choice and no byte under another's write |
| `Packed.LastWriteWins` | cmd/corebench/metrics.go:106-111 | from zero bytes, after any run of the workers' unsynchronised reads and writes each key has the choice of its last completed call |
| `CoreAudit.RunPart` | cmd/corebench/execute.go:175-207 | a worker's strided loop counts each of its keys once |
| `CoreAudit.MergeOne` | cmd/corebench/execute.go:211-218 | merging parts counts each key once |
| `CoreAudit.ExactByCounting` | cmd/corebench/execute.go:219-219 | as many votes as expected keys, all found, leaves no room for another token |
| `CoreAudit.CountsOfExact` | cmd/corebench/execute.go:198-204 | an exact engine's option counts are the numbers of keys expecting 1 and 2 |
| `CoreAudit.Reconcile` | cmd/corebench/execute.go:170-222 | Correct exactly when the engine is closed and its map is the expected one, with no other token |
| `CoreWorkload.EngineAnswers` | internal/votecore/engine.go:101-135 | the engine's answers and effect are those the workload assumes of a right engine |
| `CoreWorkload.InitialInv` | cmd/corebench/workload.go:66-75 | a new workload satisfies the invariant |
| `CoreWorkload.StepKeeps` | cmd/corebench/workload.go:158-222 | submissions, comparisons and the byte reads and writes of setChoice keep the bitmap, the engine's votes and the counters consistent |
| `CoreWorkload.NoFalseAlarm` | cmd/corebench/workload.go:182-206 | in every run against a right engine no wrong choice, double acceptance or unexpected duplicate is ever counted |
| `CoreWorkload.AlarmMeans` | cmd/corebench/workload.go:182-206 | an acceptance or a duplicate counts as wrong exactly if it is not the answer that the key's recorded choice calls for |
| `CoreWorkload.CanRecord` | cmd/corebench/workload.go:158-222 | in every run a worker between attempts can submit a later original of its own, which is then counted and recorded |
| `CoreWorkload.CanRepeat` | cmd/corebench/workload.go:158-222 | and then its repeat, which is answered as a duplicate and changes nothing |
| `CoreWorkload.FinishedAudits` | cmd/corebench/workload.go:66-222 | when all workers of a run are done the bitmap is exactly the engine's votes, as many as were accepted: the audit's conditions |
| `AttemptAudit.BudgetedStep` | cmd/logbench/audit.go:53-95 | the map holds, per token and choice, the dispatched attempts that may have been committed |
| `AttemptAudit.TalliedStep` | cmd/logbench/audit.go:81-91 | ConfirmedReceipts, MissingReceipts and WrongReceipts are the receipts, those without a record where they say and those with another record there |
| `AttemptAudit.FlaggedStep` | cmd/logbench/audit.go:62-95 | the map's keys and flags are the tokens with a readable line, with a receipt and with an unknown attempt |
| `AttemptAudit.BindsStep` | cmd/logbench/audit.go:58-70 | nothing invalid so far means tokens and logical keys bind each other |
| `AttemptAudit.FixtureTest` | cmd/logbench/audit.go:96-98 | InvalidFixtureEntries is 0 exactly when tokens and keys 0..Keys-1 are in bijection and attempts were dispatched |
| `AttemptAudit.UnaccountedStep` | cmd/logbench/audit.go:100-107 | a record raises the total excess exactly when its class has no attempt left |
| `AttemptAudit.SweepRecords` | cmd/logbench/audit.go:99-119 | whatever the iteration order, UnaccountedRecords is the summed excess of records over attempts |
| `AttemptAudit.CompareFirsts` | cmd/logbench/audit.go:120-135 | no mismatch exactly when the canonical map and counts are those of the first records |
| `AttemptAudit.CanonicalMeans` | cmd/logbench/audit.go:111-135 | that is, without ties, of each token's record with the least offset |
| `AttemptAudit.KeptIsLeast` | cmd/logbench/audit.go:111-118 | whatever the order, the record kept for a token is one with the least offset |
| `AttemptAudit.OrderShowsOnTies` | cmd/logbench/audit.go:100-135 | the verdict on canonical votes and counts is the same for every iteration order exactly if no token has two least-offset records with different votes |
| `AttemptAudit.OnePerOffsetHasNoTies` | cmd/logbench/audit.go:111-118 | which journals of one record per offset never have |
| `AttemptAudit.CountKeys` | cmd/logbench/audit.go:136-148 | the keys with a receipt, and the recorded keys with an unknown attempt or without a receipt, are counted once each |
| `AttemptAudit.BudgetIsAttempts` | cmd/logbench/audit.go:71-80 | a class may have as many records as it has dispatched recorded or unknown lines |
| `AttemptAudit.ExplainedMeans` | cmd/logbench/audit.go:43-154 | what "explain each other" is, line by line and record by record |
| `AttemptAudit.Reconcile` | cmd/logbench/audit.go:41-156 | Correct only if ledger and journal explain each other, and exactly then without such ties; every counter but those of split tokens and canonical mismatches is what `Accounted` says for every order |
| `Promotion.StepKeeps` | scripts/replication_lab.py:252-604 | every persistent step, crash and server death keeps the controller's invariant |
| `Promotion.OneWritableLineage` | scripts/replication_lab.py:324-337 | non-retired data without standby.signal is at most the primary's or the pending candidate's |
| `Promotion.EpochCountsPromotions` | scripts/replication_lab.py:547-552 | the epoch rises by one with each promotion, the only change of primary |
| `Promotion.PromotedStays` | scripts/replication_lab.py:493-499 | a promoted candidate is never made a standby again while its promotion is pending |
| `Promotion.RolesStay` | scripts/replication_lab.py:544-546 | no step makes a primary a standby again, and only its own pending promotion makes a standby a primary |
| `Promotion.HistoryStays` | scripts/replication_lab.py:569-604 | no step takes WAL from a server, except that a rebuild archives a stopped one that is not the primary |
| `Promotion.CanFollow` | scripts/replication_lab.py:252-338 | an unretired, stopped server on the primary's history can be configured and started and then streams all of it |
| `Promotion.CanRebuild` | scripts/replication_lab.py:569-604 | every run with a fenced-off, stopped server and a running primary can go on to rebuild it as a follower with the primary's history |
| `Promotion.CanCatchUp` | scripts/replication_lab.py:505-513 | a lagging standby can always replay all it has, and then shows it |
| `Promotion.ResumeWaits` | scripts/replication_lab.py:505-513 | in every run a resumed promotion goes on only with a candidate that shows at least what its intent recorded |
| `Promotion.CrashedPromotionFinishes` | scripts/replication_lab.py:483-567 | a run in which the controller crashes behind the intent and the resumed promotion finishes |
| `Promotion.ResumeCanRead` | scripts/replication_lab.py:493-513 | the wait for the recorded WAL can always end: every run with a crashed promotion goes on to read its candidate with at least that much |
| `Promotion.ComparisonIsRight` | scripts/replication_lab.py:529-535 | a position the controller reads can stand for the WAL on disk, for every candidate, exactly if it is all of it |
| `Promotion.IntentKeepsFlushed` | scripts/replication_lab.py:514-543 | when the intent is saved the candidate has all flushed commits exactly if some non-retired standby does and none is ahead of it on disk |
| `Promotion.FlushedHistoryKept` | scripts/replication_lab.py:483-567 | over a whole run flushed commits are always in the primary's history exactly if that held at every intent |
| `Promotion.ShownIntentsKeep` | scripts/replication_lab.py:483-567 | it holds if each promotion starts after a standby caught up with the last and compares standbys that have replayed all they have |
| `Promotion.SecondPromotionLosesFlushed` | scripts/replication_lab.py:514-552 | without the first, a run in which two promotions lose a flushed commit |
| `Promotion.LaggingReplayLosesFlushed` | scripts/replication_lab.py:529-552 | without the second, a run in which one promotion does |
| `Promotion.LaggingReplayCanKeep` | scripts/replication_lab.py:529-552 | a run that keeps everything although a compared standby showed less than it had |
| `Schedule.SlotAdjunction` | cmd/loadtest/scheduler.go:15-24 | i is below slotsBefore(e) exactly when slotOffset(i) is before e |
| `Schedule.SlotsMonotone` | cmd/loadtest/scheduler.go:15-21 | later instants have no fewer slots before them |
| `Schedule.SlotsFitInt64` | cmd/loadtest/scheduler.go:13-20 | no intermediate value overflows for any elapsed time and accepted rate |
| `Schedule.OffsetFitsInt64` | cmd/loadtest/scheduler.go:22-24 | nor for the slots of any run, whose offsets lie inside it |
| `Schedule.OffsetMonotone` | cmd/loadtest/scheduler.go:22-24 | later slots are due no earlier |
| `Schedule.DueInTime` | cmd/loadtest/scheduler.go:36-43 | a slot is given up exactly when it is more than maxLag late |
| `Schedule.RunSchedule` | cmd/loadtest/scheduler.go:26-64 | every turn gives up exactly the slots that are too late or offers the next one once it is due; offers are in order, none twice, with age in [0, maxLag], and the counters add up |
| `StorageRun.SlottedSums` | cmd/storagebench/timeline.go:35-53 | the per-second buckets of the scheduled slots add up to them |
| `StorageRun.Observations.ScheduledRange` | cmd/storagebench/timeline.go:44-53 | each slot and its repeat land in the bucket of their own second |
| `StorageRun.Observations.SkipRange` | cmd/storagebench/timeline.go:55-66 | a skipped range adds its attempts to the total and, second by second, to the buckets of its slots |
| `StorageRun.Observations.Offer` | cmd/storagebench/workload.go:173-182 | an offered attempt is queued, or skipped in its slot's bucket |
| `StorageRun.Observations.Work` | cmd/storagebench/workload.go:200-219 | a queued attempt is counted once, as cancelled, late or sent, in the bucket of its slot or of the time it was sent |
| `StorageRun.AttemptsOfSlot` | cmd/storagebench/workload.go:138-190 | a slot is one attempt, or two when its repeat follows |
| `StorageRun.Observations.Conservation` | cmd/storagebench/workload.go:290-320 | sent, skipped and never scheduled attempts make up the plan, and the buckets sum to the totals |
| `StorageRun.Run` | cmd/storagebench/workload.go:146-230 | in any interleaving of scheduler and workers each turn gives up exactly the slots that are too late or offers the next one once it is due; lag and full count exactly those given up and refused, every other attempt reaches a worker, and the totals are conserved |
| `FrameBound.Generator.Take` | cmd/filebench/workload.go:454-482 | each attempt of a key goes to the buffer once, in order, or is skipped as late |
| `FrameBound.SpacedStep` | cmd/filebench/workload.go:449-453 | frames flushed for their age begin at least frameAge apart |
| `FrameBound.Generate` | cmd/filebench/workload.go:404-488 | the frames hold exactly the attempts in time, in order; each is flushed when full, or at the first reading at which it has its age, or last; and there are at most frameBound whatever the timing |
| `FrameBound.OfferedAre` | cmd/filebench/workload.go:454-482 | an attempt is offered exactly if its key is at most maxLag late at its group's clock reading, and a repeat only of every repeatEvery-th key |
| `FrameBound.OfferedInOrder` | cmd/filebench/workload.go:454-482 | attempts are offered in the order of their keys, originals before repeats, none twice |
| `FrameBound.GroupSizeMeans` | cmd/filebench/workload.go:434-435 | a group is the most keys due within a millisecond, between 1 and 256 |
| `FrameBound.FrameBoundMeans` | cmd/filebench/main.go:43-46 | the bound is the full frames the attempts can fill, one for each age in the minute, and two, or all attempts |
| `FrameBound.JournalFitsEstimate` | cmd/filebench/ledger.go:53-55 | a journal within both bounds, headers and CLOSED included, fits estimatedWALBytes |
| `FrameBound.EstimateIsTight` | cmd/filebench/ledger.go:53-55 | and the estimate exceeds a journal at both bounds by 256 bytes a frame, or up to 32 bytes a vote, and 64 MiB, no more |
| `Generated.OfferedArePlanned` | cmd/filebench/workload.go:454-482 | every attempt the generator offers is one the audit expects |
| `Generated.PlannedAreOffered` | cmd/filebench/audit.go:131-149 | and a generator that is never late offers every such attempt |
| `WalBound.PickedVotes` | cmd/filebench/workload.go:256-276 | frames submitted at most once each are within the generator's bounds, in any order |
| `WalBound.RunFitsEstimate` | cmd/filebench/ledger.go:53-55 | at every moment of every run of a store fed from the generator the file, and what a crash leaves of it, fits estimatedWALBytes |
| `Histogram.BucketIs` | cmd/corebench/metrics.go:30-45 | a bucket holds exactly the values from its lower edge to histogramUpper |
| `Histogram.IndexInRange` | cmd/corebench/metrics.go:30-37 | every 64-bit sample has an index below 1024 |
| `Histogram.IndexMonotone` | cmd/corebench/metrics.go:30-37 | buckets are in the order of their values |
| `Histogram.UpperIsClose` | cmd/corebench/metrics.go:7-45 | the upper edge is exact below 32 and less than a sixteenth too large above |
| `Histogram.Histogram.Add` | cmd/corebench/metrics.go:16-21 | adding a sample keeps bins, count and maximum those of all samples |
| `Histogram.Histogram.Merge` | cmd/corebench/metrics.go:22-29 | merging is adding the other's samples |
| `Histogram.Histogram.Percentile` | cmd/corebench/metrics.go:62-72 | the reported value brackets the sample below which less than p percent and up to which at least p percent of all samples lie |

## Left out

- Real system calls: the disk is a byte string with a synced length, a crash keeps the synced bytes and any prefix of the later ones, and flock, directory sync and F_FULLFSYNC are not modelled.
- The Kafka client, topics, timeouts and log start offsets: transactions, fencing and lost replies are steps of the environment, and the transactional flag of a record is taken as set.
- PostgreSQL: its voting SQL, streaming details and timelines; the promotion model has WAL as a sequence of commits and servers that stream a prefix of the primary's.
- Strength of CRC-32C, SHA-256 and AES: no claim about corruption detection or collisions.
- HTTP, sessions, browser code, JSON ledgers, reports and the other lab scripts: I/O and plumbing.
- Floating-point means and latency tables, and metrics counters that no property needs.
- FileCodec.FileHeaderBindsPoll: years are bounded in UTC, as Go's Year is for times in that zone.
- FileScan.PrefixScans: the comparison of poll.json with the configuration, which Scan makes before it reads the journal, is not modelled; a mismatch is an error without any visit.
- FileScan.AcceptedIffClosedJournal: about the journal file, the comparison of poll.json being passed.
- FileScanner.Scan: the same holds of poll.json, and cancellation of its context is not a separate outcome; a visitor that refuses stands for it.
- LogProtocol.StepKeeps: queue and batch bounds are left open there and proved of LogStore.Writer; partitions are independent, so New's failure of all partitions together is not modelled.
- LogStore.Run: taking a job with the transactions it causes is one turn of the writer, and so is the deferred function, at its last look at the channel; a check and its send are separate steps, Close may come between any two, and a failure is announced in a step of its own. Callers' steps that fall inside a turn are put before it or, once it has returned the job's credit, after it: they see the same there, and the outcome of the transaction is open in any case.
- LogAudit.Audit: fetches are one sequence of deliveries, so an out-of-range partition anywhere in it is an error; the failures for an expired prefix and for a record without the transactional flag are not modelled.
- FileAudit.Reconcile: payload byte counts and wall time are not modelled, and the list of receipts is bounded by 1000000 as the ledger reader bounds it.
- FileWorkload.StepKeeps: workers are a set of calls in progress rather than goroutines, and a receipt that the client finds malformed, which a right store never gives, is not a step.
- CoreAudit.Reconcile: workers run one after the other, which is the same because each only reads shared data and has its own counters.
- AttemptAudit.Reconcile: the claimed-key bitmap is a set, and of the counters of split tokens and canonical mismatches, which depend on iteration order, only when they are 0 is stated.
- CoreWorkload.StepKeeps: a repeat is attempted only right after its original, which holds because the clock and the context that skip attempts do not go back; latency samples and per-second buckets are not modelled.
- Promotion.StepKeeps: positions are counts of commits, a start shows any part of the WAL as replayed and no received position until the server streams, and server promotion replays all that is on disk, as PostgreSQL's does; commands are given as steps rather than as a class; base backup with its bookkeeping is one step (an unmarked partial copy is never started), and wait_streaming only delays.
- StorageRun.Run: latency lists, receipts and per-key outcome flags are not modelled.
- FrameBound.Generate: one partition, as the benchmark requires, and attempts are their keys rather than encrypted tokens.
- Histogram.Histogram.Percentile: counters are unbounded, where the program's are 64-bit.
- Storage and load-test reports, calculators and configuration parsing: they would only add easy members.
