/** What every run of the file journal guarantees: acknowledged frames, sealing, the writer's queue discipline. */
module FileSafety {
  import opened Bytes
  import opened Wrappers
  import opened FileCodec
  import opened FileScan
  import opened FileScanner
  import opened FileProtocol

  lemma {:induction false} RunKeeps(c: Config, crc: Checksum, run: seq<State>, i: nat)
    requires IsRun(c, crc, run) && i < |run|
    ensures Inv(c, crc, run[i])
    decreases i
  {
    hide Inv, Initial, Apply, Enabled;
    if i == 0 {
      InitialInv(c, crc);
    } else {
      RunKeeps(c, crc, run, i - 1);
      assert Step(c, crc, run[i - 1], run[i - 1 + 1]);
      var l :| Enabled(c, run[i - 1], l) && run[i] == Apply(c, crc, run[i - 1], l);
      StepKeeps(c, crc, run[i - 1], l);
    }
  }

  /** What no step takes back: admissions, results, closed gates. */
  ghost predicate Extends(s: State, t: State) {
    && s.admitted <= t.admitted
    && (s.gate.admissionClosed ==> t.gate.admissionClosed && t.admitted == s.admitted)
    && (s.gate.queueClosed ==> t.gate.queueClosed && t.gate.sealRequested == s.gate.sealRequested)
    && (forall id | id in s.returned :: id in t.returned && t.returned[id] == s.returned[id])
    && (s.writer.place == Done ==> t.writer == s.writer && t.disk == s.disk && t.manifest == s.manifest && t.gate.poisoned == s.gate.poisoned)
  }

  predicate ByWriter(l: Label) {
    !l.Submit? && !l.Take? && !l.Abandon? && !l.RequestSeal? && !l.RequestClose?
  }

  lemma GroupingTouchesWriterOnly(c: Config, crc: Checksum, s: State, l: Label)
    requires c.Valid() && Enabled(c, s, l) && (l.Dequeue? || l.Absorb? || l.Tick? || l.QueueEnd?)
    ensures var t := Apply(c, crc, s, l);
      t.admitted == s.admitted && t.gate == s.gate && t.returned == s.returned
  {
    hide FlushWriter, AbsorbWriter;
  }

  lemma WriterKeepsHistory(c: Config, crc: Checksum, s: State, l: Label)
    requires c.Valid() && Enabled(c, s, l) && ByWriter(l)
    ensures var t := Apply(c, crc, s, l);
      && t.admitted == s.admitted && t.returned == s.returned
      && (t.gate == s.gate || t.gate == StopQueue(s.gate).(poisoned := true))
  {
    if l.Dequeue? || l.Absorb? || l.Tick? || l.QueueEnd? {
      GroupingTouchesWriterOnly(c, crc, s, l);
    } else {
      hide StartFlush, ClosedFrameBytes;
    }
  }

  lemma ClientExtends(c: Config, crc: Checksum, s: State, l: Label)
    requires c.Valid() && Enabled(c, s, l) && !ByWriter(l) && (s.gate.queueClosed ==> s.gate.admissionClosed)
    ensures Extends(s, Apply(c, crc, s, l))
  {
    hide StartFlush, DequeueStep, AbsorbStep, ClosedFrameBytes;
  }

  lemma StepExtends(c: Config, crc: Checksum, s: State, l: Label)
    requires Inv(c, crc, s) && Enabled(c, s, l)
    ensures Extends(s, Apply(c, crc, s, l))
  {
    assert Flags(s.gate, s.queue, s.writer.place) && (s.writer.place == Done ==> !s.writer.timerArmed);
    hide Inv, Apply;
    if ByWriter(l) {
      WriterKeepsHistory(c, crc, s, l);
    } else {
      ClientExtends(c, crc, s, l);
    }
  }

  lemma {:induction false} RunExtends(c: Config, crc: Checksum, run: seq<State>, i: nat, j: nat)
    requires IsRun(c, crc, run) && i <= j < |run|
    ensures Extends(run[i], run[j])
    decreases j
  {
    hide Inv, Initial, Apply, Enabled;
    if i < j {
      RunExtends(c, crc, run, i, j - 1);
      RunKeeps(c, crc, run, j - 1);
      assert Step(c, crc, run[j - 1], run[j - 1 + 1]);
      var l :| Enabled(c, run[j - 1], l) && run[j] == Apply(c, crc, run[j - 1], l);
      StepExtends(c, crc, run[j - 1], l);
    }
  }

  // ---------------------------------------------------------------- crashes

  /** What a crash can leave: the synced bytes and any prefix of those written later. */
  ghost predicate CrashImage(d: Disk, image: seq<u8>) {
    d.synced <= |d.file| && d.file[..d.synced] <= image <= d.file
  }

  /** Any crash image is a cut of the journal of the jobs written so far, at or behind the durable ones. */
  lemma CrashImageIsCut(c: Config, crc: Checksum, s: State, image: seq<u8>)
    requires Inv(c, crc, s) && CrashImage(s.disk, image)
    ensures Image(c, crc, s.admitted[..s.disk.durable], false) <= image
    ensures image <= Image(c, crc, s.admitted[..s.disk.tried], s.disk.closing)
  {
    hide Image, FlowOk;
  }

  lemma JobFramesValid(c: Config, s: State, n: nat)
    requires c.Valid() && JobsOk(c, s.admitted) && n <= |s.admitted|
    ensures ValidFrames(c, FramesOf(s.admitted[..n]))
  {
    hide ValidFrame, Stamp;
    var fs := FramesOf(s.admitted[..n]);
    forall f | f in fs ensures ValidFrame(c, f) {
      var i :| 0 <= i < |fs| && fs[i] == f;
      assert ValidJob(c, s.admitted[i]);
      StampValid(c, s.admitted[i].inputs, s.admitted[i].admitted);
    }
  }

  lemma FramesPrefix(jobs: seq<Job>, n: nat)
    requires n <= |jobs|
    ensures FramesOf(jobs[..n]) == FramesOf(jobs)[..n]
  {
    hide Stamp;
  }

  /** The invariant's marks on the file, as numbers. */
  lemma DiskMarks(c: Config, crc: Checksum, s: State)
    requires Inv(c, crc, s)
    ensures c.Valid() && JobsOk(c, s.admitted)
    ensures s.disk.durable <= s.disk.tried <= |s.admitted| && s.disk.tried <= MAX_INT64
    ensures s.disk.closing ==> s.disk.tried == |s.admitted|
  {
    hide JobsOk, Fifo, QueueBounds, AnswersOk, ReturnsOk, BatchBounds, Flags, DiskAt, Marks, Image;
  }

  /** Scanning any crash image finds the first jobs' frames, at least the durable ones, and no corruption. */
  lemma CrashImageScans(c: Config, crc: Checksum, s: State, image: seq<u8>)
    requires Inv(c, crc, s) && CrashImage(s.disk, image)
    ensures var p := ParseFile(c, crc, image);
      && s.disk.durable <= |p.frames| <= s.disk.tried <= |s.admitted|
      && p.frames == FramesOf(s.admitted)[..|p.frames|]
      && (p.closed ==> s.disk.closing && |p.frames| == |s.admitted|)
      && (p.tail.Failed? <==> p.closed && |s.admitted| == MAX_INT64)
  {
    DiskMarks(c, crc, s);
    CrashImageIsCut(c, crc, s, image);
    JobFramesValid(c, s, s.disk.tried);
    FramesPrefix(s.admitted, s.disk.tried);
    FramesPrefix(s.admitted, s.disk.durable);
    hide Inv, JobsOk, CrashImage, FramesOf;
    CutScans(c, crc, FramesOf(s.admitted), s.disk.durable, s.disk.tried, s.disk.closing, image);
  }

  /** Scanning a cut of the journal of the first `tried` frames that holds the first `durable` ones. */
  lemma CutScans(c: Config, crc: Checksum, all: seq<Frame>, durable: nat, tried: nat, closing: bool, image: seq<u8>)
    requires c.Valid() && durable <= tried <= |all| && tried <= MAX_INT64 && ValidFrames(c, all[..tried])
    requires FileHeader(crc, c) + Journal(crc, all[..durable], false, 0) <= image
    requires image <= FileHeader(crc, c) + Journal(crc, all[..tried], closing, 0)
    ensures var p := ParseFile(c, crc, image);
      && durable <= |p.frames| <= tried && p.frames == all[..|p.frames|]
      && (p.closed ==> closing && |p.frames| == tried)
      && (p.tail.Failed? <==> p.closed && tried == MAX_INT64)
  {
    hide ParseFile, EncodeFrames, FileHeader, ValidFrames;
    var fs := all[..tried];
    assert fs[..durable] == all[..durable] && fs[..tried] == fs;
    PrefixScans(c, crc, fs, closing, image);
    EncodedLength(crc, all[..durable], 0);
    EncodedLength(crc, fs, 0);
    var n := |ParseFile(c, crc, image).frames|;
    assert fs[..n] == all[..n];
  }

  /**
   * Acknowledged frames survive. Whenever some SubmitFrame call returned nil, at any later moment of
   * the run, a crash that keeps the synced bytes and any prefix of the later ones leaves a file whose
   * scan visits exactly that call's tokens and choices, admitted at the receipt's instant, at
   * (0, Offset, 0..Count-1).
   */
  lemma AcknowledgedFramesSurvive(c: Config, crc: Checksum, run: seq<State>, i: nat, j: nat, id: nat, image: seq<u8>)
    requires IsRun(c, crc, run) && i <= j < |run|
    requires id in run[i].returned && run[i].returned[id].Confirmed?
    requires CrashImage(run[j].disk, image)
    ensures var r, p := run[i].returned[id].receipt, ParseFile(c, crc, image);
      && id < |run[i].admitted| && r.offset < |p.frames|
      && r.count == |run[i].admitted[id].inputs|
      && p.frames[r.offset] == Stamp(run[i].admitted[id].inputs, r.admittedAt)
      && (forall n: nat | n < r.count ::
            Visited(Position(0, r.offset, n),
                    Vote(run[i].admitted[id].inputs[n].token, run[i].admitted[id].inputs[n].choice, r.admittedAt))
            in Visits(p.frames, 0))
    ensures ParseFile(c, crc, image).tail.Failed? <==> ParseFile(c, crc, image).closed && |run[j].admitted| == MAX_INT64
  {
    RunKeeps(c, crc, run, i);
    RunKeeps(c, crc, run, j);
    RunExtends(c, crc, run, i, j);
    ReceiptIsTrue(c, crc, run[i], id);
    CrashImageScans(c, crc, run[j], image);
    hide IsRun, Inv, ParseFile, CrashImage, Visits, FramesOf;
    assert run[j].admitted[id] == run[i].admitted[id];
    AcknowledgedFrame(c, crc, run[j], id, image);
  }

  lemma AcknowledgedFrame(c: Config, crc: Checksum, s: State, id: nat, image: seq<u8>)
    requires Inv(c, crc, s) && id in s.returned && s.returned[id].Confirmed? && CrashImage(s.disk, image)
    ensures var r, p := s.returned[id].receipt, ParseFile(c, crc, image);
      && id < |s.admitted| && r.offset < |p.frames|
      && r.count == |s.admitted[id].inputs|
      && p.frames[r.offset] == Stamp(s.admitted[id].inputs, r.admittedAt)
      && (forall n: nat | n < r.count ::
            Visited(Position(0, r.offset, n),
                    Vote(s.admitted[id].inputs[n].token, s.admitted[id].inputs[n].choice, r.admittedAt))
            in Visits(p.frames, 0))
  {
    ReceiptIsTrue(c, crc, s, id);
    CrashImageScans(c, crc, s, image);
    hide Inv, ParseFile, CrashImage, Visits, Stamp;
    var r, p := s.returned[id].receipt, ParseFile(c, crc, image);
    assert p.frames[id] == FramesOf(s.admitted)[id];
    hide FramesOf;
    StampedFrameVisited(p.frames, id, s.admitted[id].inputs, r.admittedAt);
  }

  lemma StampedFrameVisited(fs: seq<Frame>, k: nat, inputs: Inputs, admitted: i64)
    requires k < |fs| && fs[k] == Stamp(inputs, admitted)
    ensures forall n: nat | n < |inputs| ::
              Visited(Position(0, k, n), Vote(inputs[n].token, inputs[n].choice, admitted)) in Visits(fs, 0)
  {
    hide Visits;
    forall n: nat | n < |inputs|
      ensures Visited(Position(0, k, n), Vote(inputs[n].token, inputs[n].choice, admitted)) in Visits(fs, 0)
    {
      VisitsComplete(fs, 0, k, n);
    }
  }

  lemma ReceiptIsTrue(c: Config, crc: Checksum, s: State, id: nat)
    requires Inv(c, crc, s) && id in s.returned && s.returned[id].Confirmed?
    ensures id < s.disk.durable && id < |s.admitted|
    ensures s.returned[id].receipt == Receipt(id, |s.admitted[id].inputs|, s.admitted[id].admitted)
  {
    hide LocalOk, JobsOk, Fifo, QueueBounds;
  }

  // ---------------------------------------------------------------- sealing

  /** What Seal returns once the writer is done, to every caller. */
  function SealResult(s: State): Option<nat>
    requires s.writer.place == Done
  {
    if s.gate.poisoned then None else s.manifest
  }

  /**
   * Seal and Replay agree: when Seal returns an end offset, everything is synced, every admitted call
   * has its frame, and the file is the closed journal of exactly those frames, in admission order, so
   * that Replay returns the same offset. The one exception is a journal of 2^63-1 frames: its CLOSED
   * takes the last sequence number, which Scan refuses.
   */
  lemma SealAgreesWithReplay(c: Config, crc: Checksum, run: seq<State>, i: nat, j: nat)
    requires IsRun(c, crc, run) && i <= j < |run|
    requires run[i].writer.place == Done && SealResult(run[i]).Some?
    ensures run[j].writer.place == Done && SealResult(run[j]) == SealResult(run[i])
    ensures var s := run[j];
      var m := SealResult(s).value;
      && m == |s.admitted| == |run[i].admitted|
      && (forall image | CrashImage(s.disk, image) :: image == s.disk.file)
      && ParseFile(c, crc, s.disk.file).frames == FramesOf(s.admitted)
      && (IsClosedJournal(c, crc, s.disk.file, FramesOf(s.admitted)) <==> m < MAX_INT64)
      && (Accepted(c, crc, s.disk.file) <==> m < MAX_INT64)
  {
    RunKeeps(c, crc, run, i);
    RunKeeps(c, crc, run, j);
    RunExtends(c, crc, run, i, j);
    SealedFile(c, crc, run[i]);
    SealedFile(c, crc, run[j]);
  }

  lemma SealedFile(c: Config, crc: Checksum, s: State)
    requires Inv(c, crc, s) && s.writer.place == Done && SealResult(s).Some?
    ensures s.gate.admissionClosed
    ensures var m := SealResult(s).value;
      && m == |s.admitted|
      && (forall image | CrashImage(s.disk, image) :: image == s.disk.file)
      && ParseFile(c, crc, s.disk.file).frames == FramesOf(s.admitted)
      && (IsClosedJournal(c, crc, s.disk.file, FramesOf(s.admitted)) <==> m < MAX_INT64)
      && (Accepted(c, crc, s.disk.file) <==> m < MAX_INT64)
  {
    assert s.admitted[..s.disk.tried] == s.admitted;
    assert s.disk.file == Image(c, crc, s.admitted, true) && s.disk.synced == |s.disk.file|;
    assert s.manifest == Some(|s.admitted|) && |s.admitted| <= MAX_INT64 && s.disk.durable == |s.admitted|;
    JobFramesValid(c, s, |s.admitted|);
    CrashImageScans(c, crc, s, s.disk.file);
    AcceptedIffClosedJournal(c, crc, s.disk.file);
    PrefixScans(c, crc, FramesOf(s.admitted), true, s.disk.file);
    assert FramesOf(s.admitted)[..|s.admitted|] == FramesOf(s.admitted);
    hide Inv, ParseFile, FramesOf, Journal, FileHeader, ValidFrames;
    forall image | CrashImage(s.disk, image) ensures image == s.disk.file {
      assert s.disk.file[..s.disk.synced] == s.disk.file;
    }
  }

  /** A Close that stops the queue before Seal never yields CLOSED, nor does any crash after it. */
  lemma CloseNeverCertifies(c: Config, crc: Checksum, run: seq<State>, i: nat, j: nat, image: seq<u8>)
    requires IsRun(c, crc, run) && i <= j < |run|
    requires run[i].gate.queueClosed && !run[i].gate.sealRequested
    requires CrashImage(run[j].disk, image)
    ensures run[j].manifest.None? && !Accepted(c, crc, image)
  {
    RunKeeps(c, crc, run, j);
    RunExtends(c, crc, run, i, j);
    CrashImageScans(c, crc, run[j], image);
    hide IsRun, ParseFile, FlowOk;
  }

  // ------------------------------------------------------- admission, queue

  /**
   * Once any valid call that reaches the lock has observed the deadline, no later call of the run is admitted, whatever the
   * clock does: by the first reading, whatever the queue holds, or by the second one, which a call with
   * room in the queue makes.
   */
  lemma DeadlineLatches(c: Config, crc: Checksum, run: seq<State>, i: nat, j: nat,
                        inputs: seq<Input>, gone: bool, observed: int, admission: int, cancelled: bool)
    requires IsRun(c, crc, run) && i < j < |run|
    requires run[i + 1] == SubmitStep(c, run[i], inputs, gone, observed, admission, cancelled)
    requires SubmitOutcomeOf(c, run[i], inputs, gone, observed, admission, cancelled) != Invalid && !gone
    requires || observed >= c.endsAt
             || (observed >= c.startsAt && run[i].queuedVotes + |inputs| <= c.queuePerPartition && admission >= c.endsAt)
    ensures run[j].gate.admissionClosed && run[j].admitted == run[i].admitted
  {
    RunKeeps(c, crc, run, i);
    DeadlineObserved(c, crc, run[i], inputs, gone, observed, admission, cancelled);
    RunExtends(c, crc, run, i + 1, j);
  }

  lemma DeadlineObserved(c: Config, crc: Checksum, s: State, inputs: seq<Input>, gone: bool, observed: int, admission: int, cancelled: bool)
    requires Inv(c, crc, s) && SubmitOutcomeOf(c, s, inputs, gone, observed, admission, cancelled) != Invalid && !gone
    requires || observed >= c.endsAt
             || (observed >= c.startsAt && s.queuedVotes + |inputs| <= c.queuePerPartition && admission >= c.endsAt)
    ensures var t := SubmitStep(c, s, inputs, gone, observed, admission, cancelled);
      t.gate.admissionClosed && t.admitted == s.admitted
  {
    assert Flags(s.gate, s.queue, s.writer.place);
    hide Inv, ValidInput;
  }

  /** Admitted instants lie inside the poll's window, and frames within the configured bounds. */
  lemma AdmittedInWindow(c: Config, crc: Checksum, run: seq<State>, i: nat, id: nat)
    requires IsRun(c, crc, run) && i < |run| && id < |run[i].admitted|
    ensures ValidJob(c, run[i].admitted[id]) && run[i].admitted[id].id == id
  {
    RunKeeps(c, crc, run, i);
    hide ValidJob, LocalOk;
  }

  lemma VotesAtLeast(c: Config, jobs: seq<Job>)
    requires forall j | j in jobs :: |j.inputs| >= 1
    ensures |jobs| <= Votes(jobs)
  {
    if jobs != [] { VotesAtLeast(c, jobs[1..]); }
  }

  lemma BehindAreVotes(c: Config, s: State)
    requires FlowOk(c, s)
    ensures |Behind(s)| <= Votes(Behind(s)) && (Behind(s) == [] ==> s.queuedVotes == 0)
  {
    forall j | j in Behind(s) ensures |j.inputs| >= 1 { BehindIsAdmitted(c, s, j); }
    VotesAtLeast(c, Behind(s));
  }

  /**
   * The send made under the mutex never blocks and never meets a closed channel: when a call is
   * admitted, the channel of QueuePerPartition places is open and has a free one.
   */
  lemma SendNeverBlocks(c: Config, crc: Checksum, run: seq<State>, i: nat,
                        inputs: seq<Input>, gone: bool, observed: int, admission: int, cancelled: bool)
    requires IsRun(c, crc, run) && i < |run|
    requires SubmitOutcomeOf(c, run[i], inputs, gone, observed, admission, cancelled).Admitted?
    ensures |run[i].queue| < c.queuePerPartition && !run[i].gate.queueClosed
  {
    RunKeeps(c, crc, run, i);
    BehindAreVotes(c, run[i]);
    hide DiskOk, DiskAt, Marks, SealMarks, BatchBounds;
  }

  /** The memory bounds and the armed timer, in every state. */
  lemma QueueDiscipline(c: Config, crc: Checksum, run: seq<State>, i: nat)
    requires IsRun(c, crc, run) && i < |run|
    ensures var s := run[i];
      && 0 <= s.queuedVotes <= c.queuePerPartition
      && s.writer.votes == Votes(s.writer.batch) <= c.batchSize
      && (s.writer.place == Select && s.writer.batch != [] ==> s.writer.timerArmed)
  {
    RunKeeps(c, crc, run, i);
    hide DiskOk, DiskAt, Marks, SealMarks, Flags, JobsOk, AnswersOk, ReturnsOk, Fifo;
  }

  lemma DrainedIsUnanswered(c: Config, crc: Checksum, s: State)
    requires Inv(c, crc, s) && s.writer.place.Draining? && Behind(s) != []
    ensures Behind(s)[0].id !in s.answers
  {
    assert Enabled(c, s, DrainNext);
    DrainLocal(c, crc, s);
    hide LocalOk, FlowOk;
    DrainFlow(c, s);
  }

  /** Every answer goes to a channel that has none yet: the one-place channels never block the writer. */
  lemma AnswerNeverBlocks(c: Config, crc: Checksum, run: seq<State>, i: nat)
    requires IsRun(c, crc, run) && i < |run|
    ensures Enabled(c, run[i], AnswerNext) ==> run[i].writer.batch[run[i].writer.place.next].id !in run[i].answers
    ensures run[i].writer.place.Draining? && Behind(run[i]) != [] ==> Behind(run[i])[0].id !in run[i].answers
  {
    RunKeeps(c, crc, run, i);
    hide Inv, Behind;
    if Enabled(c, run[i], AnswerNext) { AnswerFlow(c, crc, run[i]); }
    if run[i].writer.place.Draining? && Behind(run[i]) != [] { DrainedIsUnanswered(c, crc, run[i]); }
  }

  /** Whatever the exit path, the writer ends with an empty queue and every admitted call answered once. */
  lemma EveryJobAnswered(c: Config, crc: Checksum, run: seq<State>, i: nat)
    requires IsRun(c, crc, run) && i < |run| && run[i].writer.place == Done
    ensures var s := run[i];
      && s.queue == [] && s.queuedVotes == 0
      && forall id :: id in s.answers <==> 0 <= id < |s.admitted|
  {
    RunKeeps(c, crc, run, i);
    BehindAreVotes(c, run[i]);
    hide DiskOk, DiskAt, Marks, SealMarks, JobsOk, ReturnsOk, Fifo;
  }

  /** The step the writer can take next, for some outcome of the system call it is in. */
  function NextStep(s: State): Label {
    match s.writer.place
    case Select => if s.queue == [] then QueueEnd else Dequeue
    case Absorbing(_) => Absorb
    case Writing(_, _) => Write(0, false)
    case Syncing(_) => Sync(true)
    case Failing(_) => Fail
    case Answering(next, _, _) => if next < |s.writer.batch| then AnswerNext else EndFlush
    case Draining(_) => DrainNext
    case Finishing => CheckSeal
    case Publishing => Publish
    case _ => CloseFile(true)
  }

  lemma NextStepEnabled(c: Config, s: State)
    requires s.writer.place != Done
    requires s.gate.queueClosed || (s.writer.place != Select && !s.writer.place.Draining?)
    ensures Enabled(c, s, NextStep(s)) && ByWriter(NextStep(s))
  {
    match s.writer.place
    case Select =>
    case Absorbing(_) =>
    case Writing(_, _) =>
    case Syncing(_) =>
    case Failing(_) =>
    case Answering(_, _, _) =>
    case Draining(_) =>
    case Finishing =>
    case Publishing =>
    case ClosingFile =>
  }

  /** The writer is never stuck: away from its select statement, or with the queue closed, it has a next step. */
  lemma WriterNeverStuck(c: Config, crc: Checksum, run: seq<State>, i: nat)
    requires IsRun(c, crc, run) && i < |run|
    requires run[i].writer.place != Done
    requires run[i].gate.queueClosed || run[i].writer.place != Select
    ensures Enabled(c, run[i], NextStep(run[i])) && ByWriter(NextStep(run[i]))
  {
    RunKeeps(c, crc, run, i);
    if run[i].writer.place.Draining? { DrainingIsClosed(c, crc, run[i]); }
    hide Inv, IsRun, Enabled, NextStep, ByWriter;
    NextStepEnabled(c, run[i]);
  }

  lemma DrainingIsClosed(c: Config, crc: Checksum, s: State)
    requires Inv(c, crc, s) && s.writer.place.Draining?
    ensures s.gate.queueClosed
  {
    hide FlowOk, DiskOk, DiskAt, Marks, SealMarks, BatchBounds;
  }
}
