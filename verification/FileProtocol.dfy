/**
 * The group-commit journal of internal/filelog/store.go as a step relation: any number of submitters,
 * one writer goroutine, Seal and Close, with every interleaving of their critical sections.
 */
module FileProtocol {
  import opened Bytes
  import opened Wrappers
  import opened FileCodec
  import opened FileScan

  type Inputs = s: seq<Input> | |s| <= MAX_FRAME_VOTES

  /** An admitted SubmitFrame call. Calls are numbered in admission order. */
  datatype Job = Job(id: nat, inputs: Inputs, admitted: i64)

  datatype Receipt = Receipt(offset: nat, count: nat, admittedAt: i64)

  /** What the writer puts in a job's one-place answer channel, and what SubmitFrame returns. */
  datatype Answer = Confirmed(receipt: Receipt) | Unknown

  datatype SubmitOutcome = Admitted(id: nat) | Invalid | Cancelled | Poisoned | Closed | NotOpen | Busy

  /** What the writer does after the group being flushed: the three call sites of flush, and CLOSED. */
  datatype After = ToSelect | ToAbsorb(pending: Job) | ToFinish | ToPublish

  /** Where the writer goroutine stands between two atomic steps. */
  datatype Place =
    | Select                              // at the select statement
    | Absorbing(job: Job)                 // dequeued, still charged to the queue
    | Writing(rest: seq<u8>, after: After)
    | Syncing(after: After)
    | Failing(after: After)               // an I/O error was returned, fail() not yet called
    | Answering(next: nat, ok: bool, after: After)
    | Draining(pending: Option<Job>)
    | Finishing                           // queue closed and drained
    | Publishing                          // CLOSED is synced, manifest not yet set
    | ClosingFile
    | Done

  /** The flags under the mutex. */
  datatype Gate = Gate(admissionClosed: bool, queueClosed: bool, sealRequested: bool, poisoned: bool)

  /** The writer goroutine's locals. */
  datatype Writer = Writer(place: Place, batch: seq<Job>, votes: nat, sequence: nat, timerArmed: bool)

  /**
   * The file and how much of it a completed sync covers; and, as history, how many admitted jobs
   * were written to it, how many of those are durable, and whether CLOSED was begun.
   */
  datatype Disk = Disk(file: seq<u8>, synced: nat, tried: nat, durable: nat, closing: bool)

  /** Answer channels, the results SubmitFrame calls returned, and the history of admissions. */
  datatype State = State(
    gate: Gate, manifest: Option<nat>, queuedVotes: int, queue: seq<Job>, writer: Writer, disk: Disk,
    answers: map<nat, Answer>, returned: map<nat, Answer>, admitted: seq<Job>)

  datatype Label =
    | Submit(inputs: seq<Input>, gone: bool, observed: int, admission: int, cancelled: bool)
    | Take(id: nat)                       // a submitter receives its answer
    | Abandon(id: nat)                    // its context ends first
    | RequestSeal(now: int)
    | RequestClose
    | Dequeue
    | Absorb
    | Tick
    | QueueEnd
    | Write(accepted: nat, ok: bool)      // one call of the write hook
    | Sync(ok: bool)
    | Fail
    | AnswerNext
    | EndFlush
    | DrainNext
    | CheckSeal
    | Publish
    | CloseFile(ok: bool)

  function Initial(c: Config, crc: Checksum): State
    requires c.Valid()
  {
    State(Gate(false, false, false, false), None, 0, [], Writer(Select, [], 0, 0, false),
          Disk(FileHeader(crc, c), FILE_HEADER_BYTES, 0, 0, false), map[], map[], [])
  }

  function FramesOf(jobs: seq<Job>): (fs: seq<Frame>)
    ensures |fs| == |jobs|
  {
    seq(|jobs|, i requires 0 <= i < |jobs| => Stamp(jobs[i].inputs, jobs[i].admitted))
  }

  function Votes(jobs: seq<Job>): nat {
    if jobs == [] then 0 else |jobs[0].inputs| + Votes(jobs[1..])
  }

  function StopQueue(g: Gate): Gate {
    g.(admissionClosed := true, queueClosed := true)
  }

  // ------------------------------------------------------------ the steps

  /**
   * SubmitFrame up to the point where the call is enqueued or refused. It reads its context before it takes the
   * lock (gone) and last (cancelled), and the clock twice between.
   */
  function SubmitOutcomeOf(c: Config, s: State, inputs: seq<Input>, gone: bool, observed: int, admission: int, cancelled: bool): SubmitOutcome {
    if |inputs| == 0 || |inputs| > MAX_FRAME_VOTES || |inputs| > c.batchSize then Invalid
    else if exists v | v in inputs :: !ValidInput(c, v) then Invalid
    else if gone then Cancelled
    else if s.gate.poisoned then Poisoned
    else if s.gate.admissionClosed || observed >= c.endsAt then Closed
    else if observed < c.startsAt then NotOpen
    else if s.queuedVotes + |inputs| > c.queuePerPartition then Busy
    else if admission < c.startsAt then NotOpen
    else if admission >= c.endsAt then Closed
    else if cancelled then Cancelled
    else Admitted(|s.admitted|)
  }

  predicate ValidInputs(c: Config, inputs: seq<Input>) {
    1 <= |inputs| <= MAX_FRAME_VOTES && |inputs| <= c.batchSize && forall i | 0 <= i < |inputs| :: ValidInput(c, inputs[i])
  }

  /**
   * What each outcome of SubmitFrame says of the call: admitted exactly if its inputs are valid, its context has
   * not ended, the store is sound and open, both clock readings are inside the window and its votes have room; and
   * what exactly each refusal means.
   */
  lemma SubmitIsExact(c: Config, s: State, inputs: seq<Input>, gone: bool, observed: int, admission: int, cancelled: bool)
    requires c.Valid()
    ensures var outcome, valid := SubmitOutcomeOf(c, s, inputs, gone, observed, admission, cancelled), ValidInputs(c, inputs);
      var sound, open := !s.gate.poisoned, !s.gate.admissionClosed;
      var room := s.queuedVotes + |inputs| <= c.queuePerPartition;
      var reaches := valid && !gone && sound && open && c.InWindow(observed) && room;
      && (outcome.Admitted? <==> reaches && c.InWindow(admission) && !cancelled)
      && (outcome.Admitted? ==> outcome.id == |s.admitted|)
      && (outcome == Invalid <==> !valid)
      && (outcome == Cancelled <==> valid && (gone || (reaches && c.InWindow(admission) && cancelled)))
      && (outcome == Poisoned <==> valid && !gone && !sound)
      && (outcome == Closed <==> valid && !gone && sound && (!open || c.endsAt <= observed || (reaches && c.endsAt <= admission)))
      && (outcome == NotOpen <==> valid && !gone && sound && open && (observed < c.startsAt || (reaches && admission < c.startsAt)))
      && (outcome == Busy <==> valid && !gone && sound && open && c.InWindow(observed) && !room)
  {
    hide ValidInput;
    if i :| 0 <= i < |inputs| && !ValidInput(c, inputs[i]) { assert inputs[i] in inputs; }
  }

  /** And what it does: an admission adds the one job at the end of the queue, a late reading closes the gate. */
  lemma SubmitDoes(c: Config, s: State, inputs: seq<Input>, gone: bool, observed: int, admission: int, cancelled: bool)
    requires c.Valid()
    ensures var outcome := SubmitOutcomeOf(c, s, inputs, gone, observed, admission, cancelled);
      var t := SubmitStep(c, s, inputs, gone, observed, admission, cancelled);
      && (outcome.Admitted? ==>
            && t.admitted == s.admitted + [Job(|s.admitted|, inputs, admission)] && t.queue == s.queue + [Job(|s.admitted|, inputs, admission)]
            && t.queuedVotes == s.queuedVotes + |inputs| && t.gate == s.gate)
      && (outcome == Closed ==> t.gate == s.gate.(admissionClosed := true))
      && (!outcome.Admitted? && outcome != Closed ==> t == s)
      && t == s.(gate := t.gate, admitted := t.admitted, queue := t.queue, queuedVotes := t.queuedVotes)
  {
    hide ValidInput;
  }

  function SubmitStep(c: Config, s: State, inputs: seq<Input>, gone: bool, observed: int, admission: int, cancelled: bool): State
    requires c.Valid()
  {
    match SubmitOutcomeOf(c, s, inputs, gone, observed, admission, cancelled)
    case Closed => s.(gate := s.gate.(admissionClosed := true))
    case Admitted(id) =>
      var j := Job(id, inputs, admission);
      s.(queuedVotes := s.queuedVotes + |inputs|, queue := s.queue + [j], admitted := s.admitted + [j])
    case _ => s
  }

  function Resume(after: After): Place {
    match after
    case ToSelect => Select
    case ToAbsorb(j) => Absorbing(j)
    case ToFinish => Finishing
    case ToPublish => Publishing
  }

  function GiveUp(after: After): Place {
    match after
    case ToSelect => Draining(None)
    case ToAbsorb(j) => Draining(Some(j))
    case ToFinish => ClosingFile
    case ToPublish => ClosingFile
  }

  /** flush up to its first write; an empty group is not flushed. */
  function FlushWriter(crc: Checksum, w: Writer, after: After): Writer {
    if w.batch == [] then w.(place := Resume(after))
    else w.(timerArmed := false,
            place := if |w.batch| > MAX_INT64 - w.sequence then Failing(after)
                     else Writing(EncodeFrames(crc, FramesOf(w.batch), w.sequence), after))
  }

  function StartFlush(crc: Checksum, s: State, after: After): State {
    var w := FlushWriter(crc, s.writer, after);
    s.(writer := w,
       disk := if w.place.Writing? then s.disk.(tried := w.sequence + |w.batch|) else s.disk)
  }

  predicate Enabled(c: Config, s: State, l: Label) {
    var place := s.writer.place;
    match l
    case Submit(_, _, _, _, _) => true
    case Take(id) => id in s.answers && id !in s.returned
    case Abandon(id) => id < |s.admitted| && id !in s.returned
    case RequestSeal(now) => now >= c.endsAt && !s.gate.queueClosed
    case RequestClose => true
    case Dequeue => place == Select && s.queue != []
    case Absorb => place.Absorbing?
    case Tick => place == Select && s.writer.timerArmed
    case QueueEnd => place == Select && s.queue == [] && s.gate.queueClosed
    case Write(n, _) => place.Writing? && n <= |place.rest|
    case Sync(_) => place.Syncing?
    case Fail => place.Failing?
    case AnswerNext => place.Answering? && place.next < |s.writer.batch|
    case EndFlush => place.Answering? && place.next >= |s.writer.batch|
    case DrainNext => place.Draining? && (place.pending.Some? || s.queue != [] || s.gate.queueClosed)
    case CheckSeal => place == Finishing
    case Publish => place == Publishing
    case CloseFile(_) => place == ClosingFile
  }

  function DequeueStep(c: Config, crc: Checksum, s: State): State
    requires s.queue != []
  {
    var j := s.queue[0];
    var t := s.(queue := s.queue[1..]);
    if s.writer.votes + |j.inputs| > c.batchSize then StartFlush(crc, t, ToAbsorb(j))
    else t.(writer := t.writer.(place := Absorbing(j)))
  }

  function AbsorbWriter(c: Config, w: Writer, j: Job): Writer {
    var votes := w.votes + |j.inputs|;
    w.(place := Select, batch := w.batch + [j], votes := votes,
       timerArmed := w.timerArmed || (votes == |j.inputs| && c.linger > 0))
  }

  /** The held job released from the queue's account and appended to the batch. */
  function AbsorbMiddle(c: Config, s: State): State
    requires s.writer.place.Absorbing?
  {
    var j := s.writer.place.job;
    s.(queuedVotes := s.queuedVotes - |j.inputs|, writer := AbsorbWriter(c, s.writer, j))
  }

  function AbsorbStep(c: Config, crc: Checksum, s: State): State
    requires s.writer.place.Absorbing?
  {
    var t := AbsorbMiddle(c, s);
    if t.writer.votes >= c.batchSize || c.linger == 0 then StartFlush(crc, t, ToSelect) else t
  }

  /** One iteration of writeAll. */
  function WriteStep(s: State, n: nat, ok: bool): State
    requires s.writer.place.Writing? && n <= |s.writer.place.rest|
  {
    var place := s.writer.place;
    var rest := place.rest[n..];
    s.(disk := s.disk.(file := s.disk.file + place.rest[..n]),
       writer := s.writer.(place := if !ok || n == 0 then Failing(place.after)
                                    else if rest == [] then Syncing(place.after) else Writing(rest, place.after)))
  }

  /** The states of one writeAll call: each next one is left by one call of the write hook. */
  ghost predicate IsWriteRun(run: seq<State>) {
    && run != []
    && forall i | 0 <= i < |run| - 1 :: WritesTo(run[i], run[i + 1])
  }

  ghost predicate WritesTo(s: State, t: State) {
    && s.writer.place.Writing?
    && exists n: nat, ok :: n <= |s.writer.place.rest| && t == WriteStep(s, n, ok)
  }

  function SyncStep(s: State, ok: bool): State
    requires s.writer.place.Syncing?
  {
    var after := s.writer.place.after;
    if !ok then s.(writer := s.writer.(place := Failing(after)))
    else s.(disk := s.disk.(synced := |s.disk.file|, durable := s.disk.tried),
            writer := s.writer.(place := if after == ToPublish then Publishing else Answering(0, true, after)))
  }

  function FailStep(s: State): State
    requires s.writer.place.Failing?
  {
    var after := s.writer.place.after;
    s.(gate := StopQueue(s.gate).(poisoned := true),
       writer := s.writer.(place := if after == ToPublish then ClosingFile else Answering(0, false, after)))
  }

  function AnswerStep(s: State): State
    requires s.writer.place.Answering? && s.writer.place.next < |s.writer.batch|
  {
    var w, next, ok := s.writer, s.writer.place.next, s.writer.place.ok;
    var j := w.batch[next];
    var a := if ok then Confirmed(Receipt(w.sequence + next, |j.inputs|, j.admitted)) else Unknown;
    s.(answers := s.answers[j.id := a], writer := w.(place := Answering(next + 1, ok, w.place.after)))
  }

  /** After a failed group the sequence number is never used again. */
  function EndFlushStep(s: State): State
    requires s.writer.place.Answering?
  {
    var w, ok, after := s.writer, s.writer.place.ok, s.writer.place.after;
    s.(writer := Writer(if ok then Resume(after) else GiveUp(after), [], 0,
                        if ok then w.sequence + |w.batch| else w.sequence, w.timerArmed))
  }

  function DrainStep(s: State): State
    requires s.writer.place.Draining?
  {
    var w := s.writer;
    if w.place.pending.Some? then
      var j := w.place.pending.value;
      s.(queuedVotes := s.queuedVotes - |j.inputs|, answers := s.answers[j.id := Unknown],
         writer := w.(place := Draining(None)))
    else if s.queue != [] then
      var j := s.queue[0];
      s.(queue := s.queue[1..], queuedVotes := s.queuedVotes - |j.inputs|, answers := s.answers[j.id := Unknown])
    else s.(writer := w.(place := ClosingFile))
  }

  /** The sequence number is an int64: the guard on its size is always met. */
  function CheckSealStep(crc: Checksum, s: State): State {
    var w := s.writer;
    if s.gate.sealRequested && w.sequence <= MAX_INT64
    then s.(disk := s.disk.(closing := true),
            writer := w.(place := Writing(ClosedFrameBytes(crc, w.sequence), ToPublish)))
    else s.(writer := w.(place := ClosingFile))
  }

  /** The last act of a sealed writer: the manifest's end is the CLOSED frame's sequence number. */
  function PublishStep(s: State): State {
    s.(manifest := Some(s.writer.sequence), writer := s.writer.(place := ClosingFile))
  }

  function CloseFileStep(s: State, ok: bool): State {
    s.(gate := if ok then s.gate else StopQueue(s.gate).(poisoned := true), writer := s.writer.(place := Done))
  }

  function Apply(c: Config, crc: Checksum, s: State, l: Label): State
    requires c.Valid() && Enabled(c, s, l)
  {
    match l
    case Submit(inputs, gone, observed, admission, cancelled) => SubmitStep(c, s, inputs, gone, observed, admission, cancelled)
    case Take(id) => s.(returned := s.returned[id := s.answers[id]])
    case Abandon(id) => s.(returned := s.returned[id := Unknown])
    case RequestSeal(_) => s.(gate := StopQueue(s.gate).(sealRequested := true))
    case RequestClose => s.(gate := StopQueue(s.gate))
    case Dequeue => DequeueStep(c, crc, s)
    case Absorb => AbsorbStep(c, crc, s)
    case Tick => StartFlush(crc, s, ToSelect)
    case QueueEnd => StartFlush(crc, s, ToFinish)
    case Write(n, ok) => WriteStep(s, n, ok)
    case Sync(ok) => SyncStep(s, ok)
    case Fail => FailStep(s)
    case AnswerNext => AnswerStep(s)
    case EndFlush => EndFlushStep(s)
    case DrainNext => DrainStep(s)
    case CheckSeal => CheckSealStep(crc, s)
    case Publish => PublishStep(s)
    case CloseFile(ok) => CloseFileStep(s, ok)
  }

  ghost predicate Step(c: Config, crc: Checksum, s: State, t: State)
    requires c.Valid()
  {
    exists l :: Enabled(c, s, l) && t == Apply(c, crc, s, l)
  }

  /** A run: the states of one owner from New on, in any interleaving. */
  ghost predicate IsRun(c: Config, crc: Checksum, run: seq<State>) {
    && c.Valid()
    && run != []
    && run[0] == Initial(c, crc)
    && forall i | 0 <= i < |run| - 1 :: Step(c, crc, run[i], run[i + 1])
  }

  // ------------------------------------------------------- the invariant

  function AfterOf(p: Place): Option<After> {
    match p
    case Writing(_, after) => Some(after)
    case Syncing(after) => Some(after)
    case Failing(after) => Some(after)
    case Answering(_, _, after) => Some(after)
    case _ => None
  }

  /** The job taken off the queue and not yet in the batch. */
  function Held(p: Place): seq<Job> {
    match p
    case Absorbing(j) => [j]
    case Draining(Some(j)) => [j]
    case _ => match AfterOf(p)
      case Some(ToAbsorb(j)) => [j]
      case _ => []
  }

  predicate Publishes(p: Place) {
    AfterOf(p) == Some(ToPublish)
  }

  predicate Quiet(p: Place) {
    p == Select || p.Absorbing? || p.Finishing?
  }

  predicate Ended(p: Place) {
    p.ClosingFile? || p.Done?
  }

  predicate InGroup(p: Place) {
    AfterOf(p).Some? && !Publishes(p)
  }

  predicate Broken(p: Place) {
    p.Draining? || (p.Answering? && !p.ok)
  }

  /** How many admitted jobs left the queue for a batch, and how many have their answer. */
  function Batched(s: State): int {
    |s.admitted| - |s.queue| - |Held(s.writer.place)|
  }

  function Answered(s: State): int {
    Batched(s) - |s.writer.batch| + (if s.writer.place.Answering? then s.writer.place.next else 0)
  }

  ghost predicate ValidJob(c: Config, j: Job) {
    && 1 <= |j.inputs| <= c.batchSize
    && (forall v | v in j.inputs :: ValidInput(c, v))
    && c.InWindow(j.admitted)
  }

  ghost predicate JobsOk(c: Config, admitted: seq<Job>) {
    forall i | 0 <= i < |admitted| :: admitted[i].id == i && ValidJob(c, admitted[i])
  }

  /** Jobs leave in admission order: finished ones, then the batch, then `behind`, which is held or queued. */
  ghost predicate Fifo(admitted: seq<Job>, behind: seq<Job>, batch: seq<Job>, sequence: nat, failed: bool) {
    && |batch| + |behind| <= |admitted|
    && admitted[|admitted| - |behind|..] == behind
    && admitted[|admitted| - |behind| - |batch|..|admitted| - |behind|] == batch
    && sequence <= |admitted| - |behind| - |batch|
    && (!failed ==> sequence == |admitted| - |behind| - |batch|)
    && sequence <= MAX_INT64
  }

  ghost predicate QueueBounds(c: Config, queuedVotes: int, behind: seq<Job>) {
    queuedVotes == Votes(behind) <= c.queuePerPartition
  }

  ghost predicate BatchBounds(c: Config, w: Writer) {
    && w.votes == Votes(w.batch) <= c.batchSize
    && (w.place.Absorbing? ==> w.votes + |w.place.job.inputs| <= c.batchSize)
    && (w.place == Select ==> w.votes < c.batchSize)
    && (w.timerArmed <==> w.batch != [] && (w.place == Select || w.place.Absorbing?))
    && (InGroup(w.place) ==> w.batch != [])
    && (w.place.Answering? ==> w.place.next <= |w.batch| && !Publishes(w.place))
    && (w.batch != [] ==> w.place == Select || w.place.Absorbing? || InGroup(w.place))
  }

  ghost predicate Flags(g: Gate, queue: seq<Job>, p: Place) {
    && (g.queueClosed ==> g.admissionClosed)
    && (g.sealRequested || g.poisoned ==> g.queueClosed)
    && (p.Finishing? || p.Publishing? || Ended(p) || Publishes(p) || AfterOf(p) == Some(ToFinish) ==> g.queueClosed && queue == [])
    && (!Ended(p) ==> g.poisoned == Broken(p))
  }

  ghost predicate AnswersOk(answers: map<nat, Answer>, admitted: seq<Job>, durable: nat, answered: int) {
    && (forall id :: id in answers <==> 0 <= id < answered)
    && answered <= |admitted|
    && (forall id | id in answers && answers[id].Confirmed? ::
          id < durable && answers[id].receipt == Receipt(id, |admitted[id].inputs|, admitted[id].admitted))
  }

  ghost predicate ReturnsOk(returned: map<nat, Answer>, answers: map<nat, Answer>, calls: nat) {
    && (forall id | id in returned :: id < calls)
    && (forall id | id in returned && returned[id].Confirmed? :: id in answers && answers[id] == returned[id])
  }

  /** The journal of the first jobs admitted, with CLOSED or without. */
  function Image(c: Config, crc: Checksum, jobs: seq<Job>, closing: bool): seq<u8>
    requires c.Valid() && |jobs| <= MAX_INT64
  {
    FileHeader(crc, c) + Journal(crc, FramesOf(jobs), closing, 0)
  }

  ghost predicate DiskOk(c: Config, crc: Checksum, d: Disk, admitted: seq<Job>)
    requires c.Valid()
  {
    && d.durable <= d.tried <= |admitted| && d.tried <= MAX_INT64
    && d.synced <= |d.file|
    && Image(c, crc, admitted[..d.durable], false) <= d.file[..d.synced]
    && d.file <= Image(c, crc, admitted[..d.tried], d.closing)
  }

  /** What is still to be written, when nothing failed; the part not yet synced is then all of the group. */
  ghost predicate DiskAt(c: Config, crc: Checksum, d: Disk, admitted: seq<Job>, p: Place, torn: bool)
    requires c.Valid() && d.tried <= |admitted| && d.tried <= MAX_INT64
  {
    && (p.Writing? ==> p.rest != [] && d.file + p.rest == Image(c, crc, admitted[..d.tried], d.closing))
    && (p.Syncing? ==> d.file == Image(c, crc, admitted[..d.tried], d.closing))
    && (!p.Writing? && !p.Syncing? && !p.Failing? && !torn ==>
          d.synced == |d.file| && d.file == Image(c, crc, admitted[..d.tried], d.closing))
  }

  predicate Torn(s: State) {
    s.gate.poisoned && s.manifest.None?
  }

  ghost predicate Marks(p: Place, d: Disk, sequence: nat, batch: nat) {
    && (Quiet(p) || p.Publishing? ==> d.tried == d.durable == sequence)
    && (p.Writing? || p.Syncing? ==> d.durable == sequence && d.tried == sequence + batch)
    && (p.Failing? || Broken(p) ==> d.durable == sequence)
    && (p.Answering? && p.ok ==> d.durable == d.tried == sequence + batch)
  }

  ghost predicate SealMarks(g: Gate, manifest: Option<nat>, p: Place, d: Disk, sequence: nat, admitted: nat) {
    && (d.closing ==> Publishes(p) || p.Publishing? || Ended(p))
    && (Publishes(p) || p.Publishing? ==> d.closing)
    && (d.closing ==> g.sealRequested && sequence == d.tried == d.durable == admitted)
    && (manifest.Some? ==> Ended(p) && d.closing && manifest.value == sequence)
    && (Ended(p) && !g.poisoned ==> d.closing == manifest.Some? == g.sealRequested && d.tried == d.durable == sequence)
  }

  /** Jobs held or queued behind the batch. */
  function Behind(s: State): seq<Job> {
    Held(s.writer.place) + s.queue
  }

  /** The part of the invariant about jobs and their answers. */
  ghost predicate FlowOk(c: Config, s: State) {
    && JobsOk(c, s.admitted)
    && Fifo(s.admitted, Behind(s), s.writer.batch, s.writer.sequence, s.gate.poisoned && !s.writer.place.Answering?)
    && QueueBounds(c, s.queuedVotes, Behind(s))
    && AnswersOk(s.answers, s.admitted, s.disk.durable, Answered(s))
    && ReturnsOk(s.returned, s.answers, |s.admitted|)
  }

  /** The part about the writer's place and the file. */
  ghost predicate LocalOk(c: Config, crc: Checksum, s: State)
    requires c.Valid()
  {
    && BatchBounds(c, s.writer)
    && Flags(s.gate, s.queue, s.writer.place)
    && DiskOk(c, crc, s.disk, s.admitted)
    && DiskAt(c, crc, s.disk, s.admitted, s.writer.place, Torn(s))
    && Marks(s.writer.place, s.disk, s.writer.sequence, |s.writer.batch|)
    && SealMarks(s.gate, s.manifest, s.writer.place, s.disk, s.writer.sequence, |s.admitted|)
  }

  ghost predicate Inv(c: Config, crc: Checksum, s: State) {
    c.Valid() && FlowOk(c, s) && LocalOk(c, crc, s)
  }

  // --------------------------------------------------------- helper facts

  lemma {:induction false} VotesConcat(a: seq<Job>, b: seq<Job>)
    ensures Votes(a + b) == Votes(a) + Votes(b)
  {
    if a == [] {
      assert a + b == b;
    } else {
      assert (a + b)[1..] == a[1..] + b;
      VotesConcat(a[1..], b);
    }
  }

  lemma VotesOne(j: Job)
    ensures Votes([]) == 0 && Votes([j]) == |j.inputs|
  {
  }

  lemma FifoShift(admitted: seq<Job>, j: Job, queue: seq<Job>, batch: seq<Job>, sequence: nat, failed: bool)
    requires Fifo(admitted, [j] + queue, batch, sequence, failed)
    ensures Fifo(admitted, queue, batch + [j], sequence, failed)
  {
    var n := |admitted| - |queue|;
    assert admitted[n - 1..] == [j] + queue;
    assert j == admitted[n - 1..][0] == admitted[n - 1];
    assert admitted[n..] == admitted[n - 1..][1..] == queue;
    assert admitted[n - 1 - |batch|..n] == batch + [j];
  }

  lemma FifoDone(admitted: seq<Job>, behind: seq<Job>, batch: seq<Job>, sequence: nat)
    requires Fifo(admitted, behind, batch, sequence, false)
    ensures sequence + |batch| <= MAX_INT64 ==> Fifo(admitted, behind, [], sequence + |batch|, false)
    ensures Fifo(admitted, behind, [], sequence, true)
  {
  }

  lemma FramesConcat(a: seq<Job>, b: seq<Job>)
    ensures FramesOf(a + b) == FramesOf(a) + FramesOf(b)
  {
    hide Stamp;
  }

  /** Writing a group's frames behind the journal of the jobs before it gives the journal of all of them. */
  lemma ImageGrows(c: Config, crc: Checksum, done: seq<Job>, group: seq<Job>)
    requires c.Valid() && |done| + |group| <= MAX_INT64
    ensures Image(c, crc, done + group, false) == Image(c, crc, done, false) + EncodeFrames(crc, FramesOf(group), |done|)
  {
    hide EncodeFrames, FileHeader, FramesOf;
    FramesConcat(done, group);
    EncodeAppend(crc, FramesOf(done), FramesOf(group), 0);
    var a, b := EncodeFrames(crc, FramesOf(done), 0), EncodeFrames(crc, FramesOf(group), |done|);
    Assoc(FileHeader(crc, c), a, b);
    assert a + b + [] == a + b && a + [] == a;
  }

  lemma ImageCloses(c: Config, crc: Checksum, jobs: seq<Job>)
    requires c.Valid() && |jobs| <= MAX_INT64
    ensures Image(c, crc, jobs, true) == Image(c, crc, jobs, false) + ClosedFrameBytes(crc, |jobs|)
  {
    hide EncodeFrames, FileHeader, FramesOf;
    var a := EncodeFrames(crc, FramesOf(jobs), 0);
    Assoc(FileHeader(crc, c), a, ClosedFrameBytes(crc, |jobs|));
    assert a + [] == a;
  }

  lemma InitialInv(c: Config, crc: Checksum)
    requires c.Valid()
    ensures Inv(c, crc, Initial(c, crc))
  {
    hide FileHeader;
    var s := Initial(c, crc);
    assert s.admitted[..0] == [] && FramesOf([]) == [];
    assert Journal(crc, [], false, 0) == [];
    assert FileHeader(crc, c) + [] == FileHeader(crc, c);
  }

  lemma BehindIsAdmitted(c: Config, s: State, j: Job)
    requires FlowOk(c, s) && j in Behind(s)
    ensures ValidJob(c, j)
  {
    hide ValidJob, QueueBounds, AnswersOk, ReturnsOk;
    var k :| 0 <= k < |Behind(s)| && Behind(s)[k] == j;
    assert j == s.admitted[|s.admitted| - |Behind(s)| + k];
  }

  lemma BatchCounts(c: Config, s: State)
    requires FlowOk(c, s) && s.writer.batch != []
    ensures Votes(s.writer.batch) > 0
  {
    hide QueueBounds, AnswersOk, ReturnsOk;
    assert s.writer.batch[0] == s.admitted[|s.admitted| - |Behind(s)| - |s.writer.batch|];
  }

  // ------------------------------------------------- every step keeps it

  lemma ClientKeeps(c: Config, crc: Checksum, s: State, l: Label)
    requires Inv(c, crc, s) && Enabled(c, s, l)
    requires l.Take? || l.Abandon? || l.RequestSeal? || l.RequestClose?
    ensures Inv(c, crc, Apply(c, crc, s, l))
  {
    hide JobsOk, Fifo, QueueBounds, BatchBounds, DiskOk, DiskAt, Marks;
  }

  lemma DiskUnmoved(c: Config, crc: Checksum, s: State, j: Job)
    requires c.Valid() && DiskOk(c, crc, s.disk, s.admitted)
    requires DiskAt(c, crc, s.disk, s.admitted, s.writer.place, Torn(s))
    ensures DiskOk(c, crc, s.disk, s.admitted + [j])
    ensures DiskAt(c, crc, s.disk, s.admitted + [j], s.writer.place, Torn(s))
  {
    hide Image;
    assert (s.admitted + [j])[..s.disk.tried] == s.admitted[..s.disk.tried];
    assert (s.admitted + [j])[..s.disk.durable] == s.admitted[..s.disk.durable];
  }

  function Enqueue(s: State, j: Job): State {
    s.(queuedVotes := s.queuedVotes + |j.inputs|, queue := s.queue + [j], admitted := s.admitted + [j])
  }

  lemma FifoEnqueue(admitted: seq<Job>, behind: seq<Job>, batch: seq<Job>, sequence: nat, failed: bool, j: Job)
    requires Fifo(admitted, behind, batch, sequence, failed)
    ensures Fifo(admitted + [j], behind + [j], batch, sequence, failed)
  {
  }

  lemma AdmittedGrows(c: Config, s: State, j: Job)
    requires JobsOk(c, s.admitted) && ValidJob(c, j) && j.id == |s.admitted|
    requires AnswersOk(s.answers, s.admitted, s.disk.durable, Answered(s))
    ensures JobsOk(c, s.admitted + [j])
    ensures AnswersOk(s.answers, s.admitted + [j], s.disk.durable, Answered(s))
  {
    hide ValidJob;
  }

  lemma EnqueueFlow(c: Config, s: State, j: Job)
    requires FlowOk(c, s) && ValidJob(c, j) && j.id == |s.admitted|
    requires s.queuedVotes + |j.inputs| <= c.queuePerPartition
    ensures FlowOk(c, Enqueue(s, j))
  {
    hide ValidJob, JobsOk, AnswersOk, Fifo, Votes;
    var t := Enqueue(s, j);
    assert Behind(t) == Behind(s) + [j] && Answered(t) == Answered(s);
    VotesConcat(Behind(s), [j]);
    VotesOne(j);
    AdmittedGrows(c, s, j);
    FifoEnqueue(s.admitted, Behind(s), s.writer.batch, s.writer.sequence, s.gate.poisoned && !s.writer.place.Answering?, j);
  }

  lemma EnqueueLocal(c: Config, crc: Checksum, s: State, j: Job)
    requires c.Valid() && LocalOk(c, crc, s) && !s.gate.admissionClosed
    ensures LocalOk(c, crc, Enqueue(s, j))
  {
    hide BatchBounds, Marks, DiskAt, DiskOk;
    DiskUnmoved(c, crc, s, j);
  }

  lemma SubmitKeeps(c: Config, crc: Checksum, s: State, inputs: seq<Input>, gone: bool, observed: int, admission: int, cancelled: bool)
    requires Inv(c, crc, s)
    ensures Inv(c, crc, SubmitStep(c, s, inputs, gone, observed, admission, cancelled))
  {
    hide JobsOk, Fifo, QueueBounds, BatchBounds, DiskOk, DiskAt, Marks, AnswersOk, ReturnsOk;
    var outcome := SubmitOutcomeOf(c, s, inputs, gone, observed, admission, cancelled);
    if outcome.Admitted? {
      hide FlowOk, LocalOk;
      var j := Job(|s.admitted|, inputs, admission);
      EnqueueFlow(c, s, j);
      EnqueueLocal(c, crc, s, j);
    }
  }

  /** The state just before a group is flushed: the batch is complete, the pending job is behind it. */
  ghost predicate ReadyToFlush(c: Config, crc: Checksum, s: State, after: After)
    requires c.Valid()
  {
    var w, behind := s.writer, Held(Syncing(after)) + s.queue;
    && w.batch != [] && !after.ToPublish? && w.sequence <= MAX_INT64
    && !s.gate.poisoned && w.sequence <= |s.admitted| - |w.batch|
    && s.admitted[w.sequence..w.sequence + |w.batch|] == w.batch
    && w.votes == Votes(w.batch) <= c.batchSize
    && (after == ToFinish ==> s.gate.queueClosed && s.queue == [])
    && Flags(s.gate, s.queue, Select)
    && DiskOk(c, crc, s.disk, s.admitted)
    && DiskAt(c, crc, s.disk, s.admitted, Select, false)
    && Marks(Select, s.disk, w.sequence, |w.batch|)
    && SealMarks(s.gate, s.manifest, Select, s.disk, w.sequence, |s.admitted|)
  }

  lemma StartFlushLocal(c: Config, crc: Checksum, s: State, after: After)
    requires c.Valid() && ReadyToFlush(c, crc, s, after)
    ensures LocalOk(c, crc, StartFlush(crc, s, after))
  {
    hide Image, Votes, EncodeFrames, FramesOf;
    var w, t := s.writer, StartFlush(crc, s, after);
    var done := s.admitted[..w.sequence];
    if |w.batch| <= MAX_INT64 - w.sequence {
      assert s.admitted[..t.disk.tried] == done + w.batch;
      ImageGrows(c, crc, done, w.batch);
      EncodedLength(crc, FramesOf(w.batch), w.sequence);
    }
  }

  lemma DequeueKeeps(c: Config, crc: Checksum, s: State)
    requires Inv(c, crc, s) && s.writer.place == Select && s.queue != []
    ensures Inv(c, crc, DequeueStep(c, crc, s))
  {
    hide FlowOk, LocalOk, StartFlush;
    var j := s.queue[0];
    var t := s.(queue := s.queue[1..]);
    assert Behind(s) == s.queue == [j] + t.queue;
    BehindIsAdmitted(c, s, j);
    LocalParts(c, crc, s);
    if s.writer.votes + |j.inputs| > c.batchSize {
      assert s.writer.batch != [] by { VotesOne(j); }
      DequeueReady(c, crc, s);
      StartFlushLocal(c, crc, t, ToAbsorb(j));
      StartFlushFlow(c, crc, s, t, ToAbsorb(j));
    } else {
      DequeueFits(c, crc, s);
    }
  }

  lemma DequeueReady(c: Config, crc: Checksum, s: State)
    requires Inv(c, crc, s) && s.writer.place == Select && s.queue != [] && s.writer.batch != []
    ensures ReadyToFlush(c, crc, s.(queue := s.queue[1..]), ToAbsorb(s.queue[0]))
  {
    hide JobsOk, Image, AnswersOk, ReturnsOk, DiskOk, QueueBounds, Votes;
  }

  lemma DequeueFits(c: Config, crc: Checksum, s: State)
    requires Inv(c, crc, s) && s.writer.place == Select && s.queue != []
    requires s.writer.votes + |s.queue[0].inputs| <= c.batchSize
    ensures Inv(c, crc, DequeueStep(c, crc, s))
  {
    hide JobsOk, Image, AnswersOk, ReturnsOk, DiskOk, QueueBounds, Votes, Fifo;
    var t := DequeueStep(c, crc, s);
    assert Behind(t) == Behind(s) && Answered(t) == Answered(s);
  }

  /** Starting a flush moves no job: only where the pending one is held changes. */
  lemma StartFlushFlow(c: Config, crc: Checksum, s: State, t: State, after: After)
    requires FlowOk(c, s) && !s.gate.poisoned && !s.writer.place.Answering? && t.writer.batch != []
    requires t == s.(queue := t.queue, writer := t.writer) && t.writer.batch == s.writer.batch && t.writer.sequence == s.writer.sequence
    requires Held(Syncing(after)) + t.queue == Behind(s)
    ensures FlowOk(c, StartFlush(crc, t, after))
  {
    hide JobsOk, AnswersOk, ReturnsOk, Fifo, QueueBounds, EncodeFrames;
    var u := StartFlush(crc, t, after);
    assert Behind(u) == Behind(s) && Answered(u) == Answered(s);
  }

  lemma AbsorbFlow(c: Config, crc: Checksum, s: State)
    requires Inv(c, crc, s) && s.writer.place.Absorbing?
    ensures FlowOk(c, AbsorbMiddle(c, s))
    ensures var w := AbsorbMiddle(c, s).writer;
      && w.votes == Votes(w.batch) <= c.batchSize
      && (c.linger > 0 ==> w.timerArmed)
  {
    hide JobsOk, AnswersOk, ReturnsOk, Fifo, Votes, LocalOk;
    var j := s.writer.place.job;
    var t := AbsorbMiddle(c, s);
    assert Behind(s) == [j] + s.queue && Behind(t) == s.queue && Answered(t) == Answered(s);
    BehindIsAdmitted(c, s, j);
    VotesConcat([j], s.queue);
    VotesConcat(s.writer.batch, [j]);
    VotesOne(j);
    assert BatchBounds(c, s.writer) by { LocalParts(c, crc, s); }
    if s.writer.batch != [] { BatchCounts(c, s); }
    assert !s.gate.poisoned by { LocalParts(c, crc, s); }
    FifoShift(s.admitted, j, s.queue, s.writer.batch, s.writer.sequence, false);
  }

  lemma LocalParts(c: Config, crc: Checksum, s: State)
    requires c.Valid() && LocalOk(c, crc, s)
    ensures BatchBounds(c, s.writer) && s.disk.durable <= s.disk.tried
    ensures !Ended(s.writer.place) ==> s.gate.poisoned == Broken(s.writer.place)
    ensures s.writer.place.Answering? ==> s.writer.place.next <= |s.writer.batch| && !Publishes(s.writer.place)
  {
  }

  lemma AbsorbKeeps(c: Config, crc: Checksum, s: State)
    requires Inv(c, crc, s) && s.writer.place.Absorbing?
    ensures Inv(c, crc, AbsorbStep(c, crc, s))
  {
    hide JobsOk, Image, Votes, AnswersOk, ReturnsOk, DiskOk, StartFlush, QueueBounds;
    var t := AbsorbMiddle(c, s);
    AbsorbFlow(c, crc, s);
    if t.writer.votes >= c.batchSize || c.linger == 0 {
      assert Behind(t) == [] + t.queue;
      assert ReadyToFlush(c, crc, t, ToSelect);
      StartFlushLocal(c, crc, t, ToSelect);
      StartFlushFlow(c, crc, t, t, ToSelect);
    }
  }

  lemma FlushKeeps(c: Config, crc: Checksum, s: State, after: After)
    requires Inv(c, crc, s) && s.writer.place == Select
    requires after == ToSelect || (after == ToFinish && s.queue == [] && s.gate.queueClosed)
    ensures Inv(c, crc, StartFlush(crc, s, after))
  {
    hide JobsOk, Image, Votes, AnswersOk, ReturnsOk, DiskOk, QueueBounds;
    assert Behind(s) == [] + s.queue == s.queue;
    if s.writer.batch != [] {
      hide StartFlush;
      assert ReadyToFlush(c, crc, s, after);
      StartFlushLocal(c, crc, s, after);
      StartFlushFlow(c, crc, s, s, after);
    } else {
      assert Answered(StartFlush(crc, s, after)) == Answered(s);
    }
  }

  /** A step that changes only the writer's place and the file, not who holds which job. */
  lemma FlowUnmoved(c: Config, s: State, t: State)
    requires FlowOk(c, s)
    requires t == s.(gate := t.gate, writer := s.writer.(place := t.writer.place), disk := t.disk, manifest := t.manifest)
    requires Held(t.writer.place) == Held(s.writer.place) && s.disk.durable <= t.disk.durable
    requires Answered(t) == Answered(s)
    requires (t.gate.poisoned && !t.writer.place.Answering?) || !(s.gate.poisoned && !s.writer.place.Answering?)
    ensures FlowOk(c, t)
  {
    hide JobsOk, ReturnsOk;
  }

  lemma WriteLocal(c: Config, crc: Checksum, s: State, n: nat, ok: bool)
    requires c.Valid() && LocalOk(c, crc, s) && s.writer.place.Writing? && n <= |s.writer.place.rest|
    ensures LocalOk(c, crc, WriteStep(s, n, ok))
  {
    hide Image, Votes;
    var t := WriteStep(s, n, ok);
    var rest := s.writer.place.rest;
    assert rest[..n] + rest[n..] == rest;
    assert t.disk.file + rest[n..] == s.disk.file + rest;
    assert t.disk.file[..t.disk.synced] == s.disk.file[..s.disk.synced];
  }

  lemma SyncLocal(c: Config, crc: Checksum, s: State, ok: bool)
    requires c.Valid() && LocalOk(c, crc, s) && s.writer.place.Syncing?
    ensures LocalOk(c, crc, SyncStep(s, ok))
  {
    hide Image, Votes;
    var t := SyncStep(s, ok);
    if ok {
      assert t.disk.file[..t.disk.synced] == s.disk.file;
      if s.disk.closing { ImageCloses(c, crc, s.admitted[..s.disk.tried]); }
    }
  }

  lemma FailLocal(c: Config, crc: Checksum, s: State)
    requires c.Valid() && LocalOk(c, crc, s) && s.writer.place.Failing?
    ensures LocalOk(c, crc, FailStep(s))
  {
    hide Image, Votes, DiskOk;
  }

  lemma WriteKeeps(c: Config, crc: Checksum, s: State, n: nat, ok: bool)
    requires Inv(c, crc, s) && s.writer.place.Writing? && n <= |s.writer.place.rest|
    ensures Inv(c, crc, WriteStep(s, n, ok))
  {
    hide FlowOk, LocalOk;
    WriteLocal(c, crc, s, n, ok);
    LocalParts(c, crc, s);
    FlowUnmoved(c, s, WriteStep(s, n, ok));
  }

  lemma SyncKeeps(c: Config, crc: Checksum, s: State, ok: bool)
    requires Inv(c, crc, s) && s.writer.place.Syncing?
    ensures Inv(c, crc, SyncStep(s, ok))
  {
    hide FlowOk, LocalOk;
    SyncLocal(c, crc, s, ok);
    LocalParts(c, crc, s);
    FlowUnmoved(c, s, SyncStep(s, ok));
  }

  lemma FailKeeps(c: Config, crc: Checksum, s: State)
    requires Inv(c, crc, s) && s.writer.place.Failing?
    ensures Inv(c, crc, FailStep(s))
  {
    hide FlowOk, LocalOk;
    FailLocal(c, crc, s);
    FailFlow(c, crc, s);
  }

  lemma FailFlow(c: Config, crc: Checksum, s: State)
    requires Inv(c, crc, s) && s.writer.place.Failing?
    ensures FlowOk(c, FailStep(s))
  {
    hide LocalOk, JobsOk, QueueBounds, AnswersOk, ReturnsOk;
    LocalParts(c, crc, s);
    assert Behind(FailStep(s)) == Behind(s) && Answered(FailStep(s)) == Answered(s);
  }

  lemma AnswerFlow(c: Config, crc: Checksum, s: State)
    requires Inv(c, crc, s) && s.writer.place.Answering? && s.writer.place.next < |s.writer.batch|
    ensures FlowOk(c, AnswerStep(s)) && s.writer.batch[s.writer.place.next].id !in s.answers
  {
    hide ValidJob, QueueBounds, LocalOk;
    var w, t := s.writer, AnswerStep(s);
    var n := w.sequence + w.place.next;
    assert w.batch[w.place.next] == s.admitted[n] && n == Answered(s);
    assert s.admitted[n].id == n;
    if w.place.ok { AnswerMarks(c, crc, s); }
    hide Fifo, JobsOk;
    assert Behind(t) == Behind(s) && Answered(t) == n + 1;
  }

  lemma AnswerMarks(c: Config, crc: Checksum, s: State)
    requires c.Valid() && LocalOk(c, crc, s) && s.writer.place.Answering? && s.writer.place.ok
    ensures s.disk.durable == s.writer.sequence + |s.writer.batch|
  {
  }

  lemma AnswerLocal(c: Config, crc: Checksum, s: State)
    requires c.Valid() && LocalOk(c, crc, s) && s.writer.place.Answering? && s.writer.place.next < |s.writer.batch|
    ensures LocalOk(c, crc, AnswerStep(s))
  {
    hide Image, Votes, DiskOk;
  }

  lemma EndFlushDisk(c: Config, crc: Checksum, s: State)
    requires c.Valid() && LocalOk(c, crc, s) && s.writer.sequence <= MAX_INT64
    requires s.writer.place.Answering? && s.writer.place.next >= |s.writer.batch|
    ensures var t := EndFlushStep(s);
      && t.writer.sequence <= MAX_INT64
      && DiskAt(c, crc, t.disk, t.admitted, t.writer.place, Torn(t))
      && SealMarks(t.gate, t.manifest, t.writer.place, t.disk, t.writer.sequence, |t.admitted|)
  {
    hide Image, Votes;
  }

  lemma EndFlushPlace(c: Config, crc: Checksum, s: State)
    requires c.Valid() && LocalOk(c, crc, s)
    requires s.writer.place.Answering? && s.writer.place.next >= |s.writer.batch|
    requires s.writer.place.after.ToAbsorb? ==> |s.writer.place.after.pending.inputs| <= c.batchSize
    ensures s.gate.poisoned == !s.writer.place.ok && s.writer.place.next == |s.writer.batch|
    ensures s.writer.place.ok ==> s.writer.sequence + |s.writer.batch| <= MAX_INT64
    ensures var t := EndFlushStep(s);
      && BatchBounds(c, t.writer)
      && Flags(t.gate, t.queue, t.writer.place)
      && Marks(t.writer.place, t.disk, t.writer.sequence, |t.writer.batch|)
  {
    hide Image, DiskAt, SealMarks;
  }

  lemma EndFlushFlow(c: Config, crc: Checksum, s: State)
    requires FlowOk(c, s) && s.writer.place.Answering? && s.writer.place.next == |s.writer.batch|
    requires s.gate.poisoned == !s.writer.place.ok
    requires s.writer.place.ok ==> s.writer.sequence + |s.writer.batch| <= MAX_INT64
    ensures FlowOk(c, EndFlushStep(s))
  {
    hide JobsOk, Fifo, QueueBounds, ReturnsOk, AnswersOk;
    var t := EndFlushStep(s);
    assert Behind(t) == Behind(s) && Answered(t) == Answered(s);
    FifoDone(s.admitted, Behind(s), s.writer.batch, s.writer.sequence);
  }

  lemma EndFlushKeeps(c: Config, crc: Checksum, s: State)
    requires Inv(c, crc, s) && s.writer.place.Answering? && s.writer.place.next >= |s.writer.batch|
    ensures Inv(c, crc, EndFlushStep(s))
  {
    hide FlowOk, BatchBounds, Flags, Marks, DiskOk, DiskAt, SealMarks;
    if s.writer.place.after.ToAbsorb? { BehindIsAdmitted(c, s, s.writer.place.after.pending); }
    SequenceFits(c, s);
    EndFlushPlace(c, crc, s);
    EndFlushDisk(c, crc, s);
    EndFlushFlow(c, crc, s);
  }

  lemma SequenceFits(c: Config, s: State)
    requires FlowOk(c, s)
    ensures s.writer.sequence <= MAX_INT64
  {
  }

  lemma DropFirst(c: Config, admitted: seq<Job>, behind: seq<Job>, sequence: nat, queuedVotes: int)
    requires JobsOk(c, admitted) && behind != []
    requires Fifo(admitted, behind, [], sequence, true)
    requires QueueBounds(c, queuedVotes, behind)
    ensures Fifo(admitted, behind[1..], [], sequence, true)
    ensures QueueBounds(c, queuedVotes - |behind[0].inputs|, behind[1..])
    ensures behind[0].id == |admitted| - |behind|
  {
    hide ValidJob;
    assert behind == [behind[0]] + behind[1..];
    VotesConcat([behind[0]], behind[1..]);
    VotesOne(behind[0]);
    assert behind[0] == admitted[|admitted| - |behind|];
    assert behind[1..] == admitted[|admitted| - |behind|..][1..];
  }

  lemma DrainLocal(c: Config, crc: Checksum, s: State)
    requires c.Valid() && LocalOk(c, crc, s) && Enabled(c, s, DrainNext)
    ensures LocalOk(c, crc, DrainStep(s)) && s.gate.poisoned && s.writer.batch == []
  {
    hide Image, DiskOk, Votes;
  }

  lemma AnswerUnknown(s: State)
    requires AnswersOk(s.answers, s.admitted, s.disk.durable, Answered(s)) && 0 <= Answered(s) < |s.admitted|
    requires ReturnsOk(s.returned, s.answers, |s.admitted|)
    ensures Answered(s) !in s.answers
    ensures AnswersOk(s.answers[Answered(s) := Unknown], s.admitted, s.disk.durable, Answered(s) + 1)
    ensures ReturnsOk(s.returned, s.answers[Answered(s) := Unknown], |s.admitted|)
  {
  }

  lemma BehindWithinAdmitted(c: Config, s: State)
    requires FlowOk(c, s)
    ensures |s.writer.batch| + |Behind(s)| <= |s.admitted|
  {
  }

  /** Giving the first job behind an empty batch its refusal. */
  lemma DrainOne(c: Config, s: State, j: Job, queue: seq<Job>, place: Place)
    requires FlowOk(c, s) && s.gate.poisoned && s.writer.place.Draining? && s.writer.batch == []
    requires place.Draining? && Behind(s) == [j] + (Held(place) + queue)
    ensures FlowOk(c, s.(queue := queue, queuedVotes := s.queuedVotes - |j.inputs|,
                         answers := s.answers[j.id := Unknown], writer := s.writer.(place := place)))
    ensures j.id !in s.answers
  {
    var t := s.(queue := queue, queuedVotes := s.queuedVotes - |j.inputs|,
                answers := s.answers[j.id := Unknown], writer := s.writer.(place := place));
    BehindWithinAdmitted(c, s);
    assert Behind(s)[1..] == Behind(t);
    hide JobsOk, QueueBounds, AnswersOk, ReturnsOk, Fifo, Behind;
    DropFirst(c, s.admitted, Behind(s), s.writer.sequence, s.queuedVotes);
    AnsweredIsBefore(s);
    AnsweredIsBefore(t);
    AnswerUnknown(s);
  }

  lemma AnsweredIsBefore(s: State)
    requires s.writer.place.Draining? && s.writer.batch == []
    ensures Answered(s) == |s.admitted| - |Behind(s)|
  {
  }

  lemma DrainFlow(c: Config, s: State)
    requires FlowOk(c, s) && s.writer.place.Draining? && s.gate.poisoned && s.writer.batch == []
    ensures FlowOk(c, DrainStep(s))
    ensures Behind(s) != [] ==> Behind(s)[0].id !in s.answers
  {
    hide FlowOk;
    if s.writer.place.pending.Some? {
      assert Behind(s) == [s.writer.place.pending.value] + ([] + s.queue);
      DrainOne(c, s, s.writer.place.pending.value, s.queue, Draining(None));
    } else if s.queue != [] {
      assert Behind(s) == [s.queue[0]] + ([] + s.queue[1..]);
      DrainOne(c, s, s.queue[0], s.queue[1..], s.writer.place);
    } else {
      assert Behind(s) == [];
      FlowUnmoved(c, s, DrainStep(s));
    }
  }

  lemma DrainKeeps(c: Config, crc: Checksum, s: State)
    requires Inv(c, crc, s) && Enabled(c, s, DrainNext)
    ensures Inv(c, crc, DrainStep(s))
  {
    hide FlowOk, LocalOk;
    DrainLocal(c, crc, s);
    DrainFlow(c, s);
  }

  lemma CheckSealKeeps(c: Config, crc: Checksum, s: State)
    requires Inv(c, crc, s) && s.writer.place == Finishing
    ensures Inv(c, crc, CheckSealStep(crc, s))
  {
    hide JobsOk, QueueBounds, ReturnsOk, Image, ClosedFrameBytes, AnswersOk, Votes;
    assert Behind(s) == [] && s.writer.batch == [] && s.writer.sequence == |s.admitted|;
    hide Fifo;
    FlowUnmoved(c, s, CheckSealStep(crc, s));
    if s.gate.sealRequested {
      assert s.admitted[..s.writer.sequence] == s.admitted;
      ImageCloses(c, crc, s.admitted);
    }
  }

  lemma EndingKeeps(c: Config, crc: Checksum, s: State, l: Label)
    requires Inv(c, crc, s) && Enabled(c, s, l) && (l.Publish? || l.CloseFile?)
    ensures Inv(c, crc, Apply(c, crc, s, l))
  {
    hide JobsOk, QueueBounds, ReturnsOk, Image, AnswersOk, Votes, Fifo, DiskOk;
    FlowUnmoved(c, s, Apply(c, crc, s, l));
  }

  lemma StepKeeps(c: Config, crc: Checksum, s: State, l: Label)
    requires Inv(c, crc, s) && Enabled(c, s, l)
    ensures Inv(c, crc, Apply(c, crc, s, l))
  {
    hide FlowOk, LocalOk, StartFlush, DequeueStep, AbsorbStep, SubmitStep, DrainStep;
    match l
    case Submit(inputs, gone, observed, admission, cancelled) => SubmitKeeps(c, crc, s, inputs, gone, observed, admission, cancelled);
    case Take(_) => ClientKeeps(c, crc, s, l);
    case Abandon(_) => ClientKeeps(c, crc, s, l);
    case RequestSeal(_) => ClientKeeps(c, crc, s, l);
    case RequestClose => ClientKeeps(c, crc, s, l);
    case Dequeue => DequeueKeeps(c, crc, s);
    case Absorb => AbsorbKeeps(c, crc, s);
    case Tick => FlushKeeps(c, crc, s, ToSelect);
    case QueueEnd => FlushKeeps(c, crc, s, ToFinish);
    case Write(n, ok) => WriteKeeps(c, crc, s, n, ok);
    case Sync(ok) => SyncKeeps(c, crc, s, ok);
    case Fail => FailKeeps(c, crc, s);
    case AnswerNext => AnswerFlow(c, crc, s); AnswerLocal(c, crc, s);
    case EndFlush => EndFlushKeeps(c, crc, s);
    case DrainNext => DrainKeeps(c, crc, s);
    case CheckSeal => CheckSealKeeps(c, crc, s);
    case Publish => EndingKeeps(c, crc, s, l);
    case CloseFile(_) => EndingKeeps(c, crc, s, l);
  }
}
