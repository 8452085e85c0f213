/**
 * What callers of the file journal are told, and why (internal/filelog/store.go): which calls get a receipt,
 * which are told nothing is known, and when Seal succeeds, for runs whose every step is known.
 */
module FileOutcomes {
  import opened Bytes
  import opened Wrappers
  import opened FileCodec
  import opened FileScan
  import opened FileProtocol
  import opened FileSafety

  /** A run together with the step taken at each of its moments. */
  ghost predicate IsTrace(c: Config, crc: Checksum, run: seq<State>, ls: seq<Label>) {
    && c.Valid() && |run| == |ls| + 1 && run[0] == Initial(c, crc)
    && forall i | 0 <= i < |ls| :: Enabled(c, run[i], ls[i]) && run[i + 1] == Apply(c, crc, run[i], ls[i])
  }

  lemma TraceIsRun(c: Config, crc: Checksum, run: seq<State>, ls: seq<Label>)
    requires IsTrace(c, crc, run, ls)
    ensures IsRun(c, crc, run)
  {
    hide Apply, Enabled, Initial;
    forall i | 0 <= i < |run| - 1 ensures Step(c, crc, run[i], run[i + 1]) {
      assert Enabled(c, run[i], ls[i]);
    }
  }

  // --------------------------------------------------------------- answers

  /** The receipt of an admitted call: its place in the order of admissions, its size and its instant. */
  function ReceiptOf(admitted: seq<Job>, id: nat): Receipt
    requires id < |admitted|
  {
    Receipt(id, |admitted[id].inputs|, admitted[id].admitted)
  }

  /** A call has its receipt exactly if its frame is durable, and otherwise is told that nothing is known. */
  ghost predicate AnswersExact(s: State) {
    forall id | id in s.answers ::
      id < |s.admitted| && s.answers[id] == if id < s.disk.durable then Confirmed(ReceiptOf(s.admitted, id)) else Unknown
  }

  /** Answers are given to the calls before this one. */
  lemma AnsweredAre(c: Config, crc: Checksum, s: State)
    requires Inv(c, crc, s)
    ensures forall id: nat :: id in s.answers <==> id < Answered(s)
    ensures Answered(s) <= |s.admitted|
    ensures forall id: nat | id < |s.admitted| :: s.admitted[id].id == id
  {
    hide LocalOk, Fifo, QueueBounds, ReturnsOk, ValidJob;
  }

  /** A sync that succeeds makes only unanswered calls durable. */
  lemma SyncedAreUnanswered(c: Config, crc: Checksum, s: State)
    requires Inv(c, crc, s) && s.writer.place.Syncing?
    ensures Answered(s) <= s.disk.durable <= s.disk.tried
  {
    hide JobsOk, QueueBounds, AnswersOk, ReturnsOk, BatchBounds, DiskAt, Image;
  }

  /** The next call of a batch is durable exactly if its group's sync succeeded. */
  lemma AnswerIsRight(c: Config, crc: Checksum, s: State)
    requires Inv(c, crc, s) && s.writer.place.Answering? && s.writer.place.next < |s.writer.batch|
    ensures var w := s.writer;
      var id := w.batch[w.place.next].id;
      && id < |s.admitted| && s.admitted[id] == w.batch[w.place.next] && id == w.sequence + w.place.next
      && (w.place.ok <==> id < s.disk.durable)
  {
    hide ValidJob, QueueBounds, AnswersOk, ReturnsOk, BatchBounds, DiskAt, DiskOk, SealMarks;
    var w := s.writer;
    var n := w.sequence + w.place.next;
    assert w.batch[w.place.next] == s.admitted[n] && s.admitted[n].id == n;
  }

  /** What is drained was never durable. */
  lemma DrainedIsLost(c: Config, crc: Checksum, s: State)
    requires Inv(c, crc, s) && s.writer.place.Draining? && Behind(s) != []
    ensures var id := Behind(s)[0].id; id < |s.admitted| && id >= s.disk.durable
  {
    hide ValidJob, QueueBounds, AnswersOk, ReturnsOk, DiskAt, DiskOk, SealMarks, Votes;
    var n := |s.admitted| - |Behind(s)|;
    assert Behind(s)[0] == s.admitted[n] && s.admitted[n].id == n;
  }

  /** Steps that answer nobody, admit nobody and make nothing durable. */
  predicate Silent(l: Label) {
    !l.Submit? && !l.Sync? && !l.AnswerNext? && !l.DrainNext?
  }

  lemma SilentKeeps(c: Config, crc: Checksum, s: State, l: Label)
    requires c.Valid() && Enabled(c, s, l) && Silent(l)
    ensures var t := Apply(c, crc, s, l); t.answers == s.answers && t.admitted == s.admitted && t.disk.durable == s.disk.durable
  {
    hide FlushWriter, AbsorbWriter, ClosedFrameBytes;
  }

  lemma ExactKeeps(c: Config, crc: Checksum, s: State, l: Label)
    requires c.Valid() && Inv(c, crc, s) && Enabled(c, s, l) && AnswersExact(s)
    ensures AnswersExact(Apply(c, crc, s, l))
  {
    hide Inv, Behind, AnswersExact, SubmitStep, SyncStep, AnswerStep, DrainStep;
    match l {
      case Submit(inputs, gone, observed, admission, cancelled) => SubmitExact(c, crc, s, inputs, gone, observed, admission, cancelled);
      case Sync(ok) => SyncExact(c, crc, s, ok);
      case AnswerNext => AnswerExact(c, crc, s);
      case DrainNext => DrainExact(c, crc, s);
      case _ =>
        SilentKeeps(c, crc, s, l);
        hide Apply, Enabled;
        SameExact(s, Apply(c, crc, s, l));
    }
  }

  lemma SameExact(s: State, t: State)
    requires AnswersExact(s) && t.answers == s.answers && t.admitted == s.admitted && t.disk.durable == s.disk.durable
    ensures AnswersExact(t)
  {
    hide ReceiptOf;
  }

  lemma SubmitExact(c: Config, crc: Checksum, s: State, inputs: seq<Input>, gone: bool, observed: int, admission: int, cancelled: bool)
    requires c.Valid() && AnswersExact(s)
    ensures AnswersExact(SubmitStep(c, s, inputs, gone, observed, admission, cancelled))
  {
    SubmitDoes(c, s, inputs, gone, observed, admission, cancelled);
    hide SubmitStep, SubmitOutcomeOf;
  }

  lemma SyncExact(c: Config, crc: Checksum, s: State, ok: bool)
    requires Inv(c, crc, s) && s.writer.place.Syncing? && AnswersExact(s)
    ensures AnswersExact(SyncStep(s, ok))
  {
    SyncedAreUnanswered(c, crc, s);
    AnsweredAre(c, crc, s);
    hide Inv, Answered, ReceiptOf;
  }

  lemma AnswerExact(c: Config, crc: Checksum, s: State)
    requires Inv(c, crc, s) && s.writer.place.Answering? && s.writer.place.next < |s.writer.batch| && AnswersExact(s)
    ensures AnswersExact(AnswerStep(s))
  {
    AnswerIsRight(c, crc, s);
    hide Inv;
  }

  lemma DrainExact(c: Config, crc: Checksum, s: State)
    requires s.writer.place.Draining? && AnswersExact(s) && Inv(c, crc, s)
    ensures AnswersExact(DrainStep(s))
  {
    hide Inv, DrainStep, Behind, Enabled, ReceiptOf;
    if Behind(s) != [] { DrainedIsLost(c, crc, s); }
    DrainsFirst(s);
  }

  /** Draining tells the first job behind that nothing is known, if there is one. */
  lemma DrainsFirst(s: State)
    requires s.writer.place.Draining?
    ensures var t := DrainStep(s);
      && t.admitted == s.admitted && t.disk == s.disk
      && t.answers == if Behind(s) == [] then s.answers else s.answers[Behind(s)[0].id := Unknown]
  {
  }

  /** In every run an answered call has the receipt of its own frame exactly if that frame is durable. */
  lemma {:induction false} RunAnswersExact(c: Config, crc: Checksum, run: seq<State>, i: nat)
    requires IsRun(c, crc, run) && i < |run|
    ensures AnswersExact(run[i])
    decreases i
  {
    hide Inv, Initial, Apply, Enabled, AnswersExact;
    if i == 0 {
      NoAnswers(c, crc);
    } else {
      RunAnswersExact(c, crc, run, i - 1);
      RunKeeps(c, crc, run, i - 1);
      assert Step(c, crc, run[i - 1], run[i - 1 + 1]);
      var l :| Enabled(c, run[i - 1], l) && run[i] == Apply(c, crc, run[i - 1], l);
      ExactKeeps(c, crc, run[i - 1], l);
    }
  }

  lemma NoAnswers(c: Config, crc: Checksum)
    requires c.Valid()
    ensures AnswersExact(Initial(c, crc))
  {
  }

  /**
   * What SubmitFrame returns: the call that takes its answer gets nil and its receipt exactly if its frame is
   * durable, and the call whose context ends first is told that nothing is known.
   */
  lemma ReturnsAnswer(c: Config, crc: Checksum, run: seq<State>, ls: seq<Label>, i: nat, id: nat)
    requires IsTrace(c, crc, run, ls) && i < |ls| && ls[i] in {Take(id), Abandon(id)}
    ensures id < |run[i].admitted| && id !in run[i].returned && id in run[i + 1].returned
    ensures run[i + 1].returned[id] == if ls[i] == Take(id) && id < run[i].disk.durable then Confirmed(ReceiptOf(run[i].admitted, id)) else Unknown
  {
    TraceIsRun(c, crc, run, ls);
    RunAnswersExact(c, crc, run, i);
    assert Enabled(c, run[i], ls[i]) && run[i + 1] == Apply(c, crc, run[i], ls[i]);
    hide IsTrace, IsRun;
  }

  /** A run can go on with any enabled step. */
  lemma GoesOn(c: Config, crc: Checksum, run: seq<State>, ls: seq<Label>, l: Label) returns (more: seq<State>, mls: seq<Label>)
    requires IsTrace(c, crc, run, ls) && Enabled(c, run[|ls|], l)
    ensures IsTrace(c, crc, more, mls) && run <= more && ls <= mls && |mls| == |ls| + 1
    ensures more[|mls|] == Apply(c, crc, run[|ls|], l) && mls[|ls|] == l
  {
    hide Enabled, Apply, Initial;
    more, mls := run + [Apply(c, crc, run[|ls|], l)], ls + [l];
    forall i | 0 <= i < |mls| ensures Enabled(c, more[i], mls[i]) && more[i + 1] == Apply(c, crc, more[i], mls[i]) {
      if i < |ls| { assert Enabled(c, run[i], ls[i]); }
    }
  }

  /** Trace more goes on from trace run with steps of the writer's answers, or of one call taking its own. */
  ghost predicate Answers(run: seq<State>, ls: seq<Label>, more: seq<State>, mls: seq<Label>, id: nat) {
    run <= more && ls <= mls && forall i | |ls| <= i < |mls| :: mls[i] == AnswerNext || mls[i] == Take(id)
  }

  /** The writer's next answer, to a call before this one or to this one. */
  lemma NextAnswer(c: Config, crc: Checksum, run: seq<State>, ls: seq<Label>, id: nat) returns (more: seq<State>, mls: seq<Label>)
    requires IsTrace(c, crc, run, ls) && id < run[|ls|].disk.durable && id !in run[|ls|].answers
    ensures IsTrace(c, crc, more, mls) && Answers(run, ls, more, mls, id)
    ensures var s, t := run[|ls|], more[|mls|];
      t.admitted == s.admitted && t.disk == s.disk && t.returned == s.returned && Answered(s) < Answered(t) <= id + 1
  {
    TraceIsRun(c, crc, run, ls);
    RunKeeps(c, crc, run, |ls|);
    var s := run[|ls|];
    AnsweredAre(c, crc, s);
    DurableIsAnswered(c, crc, s, id);
    hide IsTrace, IsRun, Inv, Answered, Apply, Enabled, Config.Valid;
    AnswersNext(c, crc, s);
    more, mls := GoesOn(c, crc, run, ls, AnswerNext);
  }

  lemma TakeAnswer(c: Config, crc: Checksum, run: seq<State>, ls: seq<Label>, id: nat) returns (more: seq<State>, mls: seq<Label>)
    requires IsTrace(c, crc, run, ls) && id < run[|ls|].disk.durable && id !in run[|ls|].returned && id in run[|ls|].answers
    ensures IsTrace(c, crc, more, mls) && Answers(run, ls, more, mls, id)
    ensures id < |run[|ls|].admitted| && id in more[|mls|].returned && more[|mls|].returned[id] == Confirmed(ReceiptOf(run[|ls|].admitted, id))
  {
    TraceIsRun(c, crc, run, ls);
    RunAnswersExact(c, crc, run, |ls|);
    hide IsTrace, IsRun, AnswersExact, ReceiptOf, Apply, Enabled, Config.Valid;
    TakesReceipt(c, crc, run[|ls|], id);
    more, mls := GoesOn(c, crc, run, ls, Take(id));
  }

  /**
   * A call that waits for a group whose sync has succeeded gets its receipt if it goes on waiting: the writer's next
   * answers reach it, whatever else happens.
   */
  lemma {:induction false} WaitingGetsReceipt(c: Config, crc: Checksum, run: seq<State>, ls: seq<Label>, id: nat)
    returns (more: seq<State>, mls: seq<Label>)
    requires IsTrace(c, crc, run, ls) && id < run[|ls|].disk.durable && id !in run[|ls|].returned
    ensures IsTrace(c, crc, more, mls) && Answers(run, ls, more, mls, id)
    ensures id < |run[|ls|].admitted| && id in more[|mls|].returned && more[|mls|].returned[id] == Confirmed(ReceiptOf(run[|ls|].admitted, id))
    decreases id + 1 - Answered(run[|ls|])
  {
    if id in run[|ls|].answers {
      more, mls := TakeAnswer(c, crc, run, ls, id);
    } else {
      var next, nls := NextAnswer(c, crc, run, ls, id);
      hide IsTrace, Answered, Answers, ReceiptOf;
      more, mls := WaitingGetsReceipt(c, crc, next, nls, id);
      AnswersOn(run, ls, next, nls, more, mls, id);
    }
  }

  lemma AnswersOn(run: seq<State>, ls: seq<Label>, next: seq<State>, nls: seq<Label>, more: seq<State>, mls: seq<Label>, id: nat)
    requires Answers(run, ls, next, nls, id) && Answers(next, nls, more, mls, id)
    ensures Answers(run, ls, more, mls, id)
  {
    forall i | |ls| <= i < |mls| ensures mls[i] == AnswerNext || mls[i] == Take(id) {
      if i < |nls| { assert mls[i] == nls[i]; }
    }
  }

  lemma TakesReceipt(c: Config, crc: Checksum, s: State, id: nat)
    requires c.Valid() && AnswersExact(s) && id in s.answers && id !in s.returned && id < s.disk.durable
    ensures id < |s.admitted| && Enabled(c, s, Take(id))
    ensures var t := Apply(c, crc, s, Take(id)); id in t.returned && t.returned[id] == Confirmed(ReceiptOf(s.admitted, id))
  {
  }

  lemma AnswersNext(c: Config, crc: Checksum, s: State)
    requires c.Valid() && Enabled(c, s, AnswerNext)
    ensures Apply(c, crc, s, AnswerNext) == AnswerStep(s) && Answered(AnswerStep(s)) == Answered(s) + 1
    ensures AnswerStep(s).admitted == s.admitted && AnswerStep(s).disk == s.disk && AnswerStep(s).returned == s.returned
  {
  }

  /** A durable frame's call is answered, or the writer is answering its batch. */
  lemma DurableIsAnswered(c: Config, crc: Checksum, s: State, id: nat)
    requires Inv(c, crc, s) && id < s.disk.durable
    ensures id < |s.admitted| && (id < Answered(s) || Enabled(c, s, AnswerNext))
  {
    hide JobsOk, QueueBounds, AnswersOk, ReturnsOk, DiskAt, Image, Votes;
  }

  // -------------------------------------------------------------- failures

  /** The step is a system call that failed: a write that took nothing counts as one. */
  predicate Fails(l: Label) {
    || (l.Write? && (!l.ok || l.accepted == 0))
    || (l.Sync? && !l.ok)
    || (l.CloseFile? && !l.ok)
  }

  /** Something has gone wrong, whether or not fail() has been called. */
  predicate Troubled(s: State) {
    s.gate.poisoned || s.writer.place.Failing?
  }

  /** The journal cannot number its calls: there are more than sequence numbers. */
  predicate TooMany(s: State) {
    |s.admitted| > MAX_INT64
  }

  /** Trouble comes from a failed system call or a group that cannot be numbered, and never goes away. */
  lemma TroubleSpreads(c: Config, crc: Checksum, s: State, l: Label)
    requires c.Valid() && Inv(c, crc, s) && Enabled(c, s, l)
    ensures var t := Apply(c, crc, s, l);
      && (Troubled(s) || Fails(l) ==> Troubled(t))
      && (Troubled(t) ==> Troubled(s) || Fails(l) || TooMany(t))
  {
    hide Inv, Apply, Enabled;
    if l.Submit? {
      SubmitTrouble(c, crc, s, l);
    } else if l.Dequeue? || l.Absorb? || l.Tick? || l.QueueEnd? {
      GroupTrouble(c, crc, s, l);
    } else {
      OtherTrouble(c, crc, s, l);
    }
  }

  lemma SubmitTrouble(c: Config, crc: Checksum, s: State, l: Label)
    requires c.Valid() && Enabled(c, s, l) && l.Submit?
    ensures Troubled(Apply(c, crc, s, l)) <==> Troubled(s)
  {
    SubmitDoes(c, s, l.inputs, l.gone, l.observed, l.admission, l.cancelled);
    hide Enabled, SubmitStep, SubmitOutcomeOf;
  }

  lemma GroupTrouble(c: Config, crc: Checksum, s: State, l: Label)
    requires c.Valid() && Inv(c, crc, s) && Enabled(c, s, l) && (l.Dequeue? || l.Absorb? || l.Tick? || l.QueueEnd?)
    ensures var t := Apply(c, crc, s, l);
      && (Troubled(s) ==> Troubled(t)) && (Troubled(t) ==> Troubled(s) || TooMany(t))
  {
    hide Inv, StartFlush, DequeueStep, AbsorbStep;
    if l.Dequeue? {
      DequeueTrouble(c, crc, s);
    } else if l.Absorb? {
      AbsorbTrouble(c, crc, s);
    } else {
      FlushTrouble(c, crc, s, s, if l.Tick? then ToSelect else ToFinish);
    }
  }

  lemma DequeueTrouble(c: Config, crc: Checksum, s: State)
    requires Inv(c, crc, s) && s.writer.place == Select && s.queue != []
    ensures var u := DequeueStep(c, crc, s);
      && (s.gate.poisoned ==> Troubled(u)) && (Troubled(u) ==> s.gate.poisoned || TooMany(u))
  {
    FlushTrouble(c, crc, s, s.(queue := s.queue[1..]), ToAbsorb(s.queue[0]));
    hide Inv, StartFlush;
  }

  lemma OtherTrouble(c: Config, crc: Checksum, s: State, l: Label)
    requires c.Valid() && Enabled(c, s, l) && !l.Submit? && !l.Dequeue? && !l.Absorb? && !l.Tick? && !l.QueueEnd?
    ensures var t := Apply(c, crc, s, l);
      && (Troubled(s) || Fails(l) ==> Troubled(t)) && (Troubled(t) ==> Troubled(s) || Fails(l))
  {
    hide StartFlush, ClosedFrameBytes;
  }

  /** The batch is among the admitted calls, behind the frames that have their numbers. */
  lemma BatchNumbers(c: Config, crc: Checksum, s: State)
    requires Inv(c, crc, s)
    ensures s.writer.sequence + |s.writer.batch| <= |s.admitted| && s.writer.sequence + |s.writer.batch| + |Behind(s)| <= |s.admitted|
  {
    hide LocalOk, JobsOk, QueueBounds, AnswersOk, ReturnsOk;
  }

  lemma FlushTrouble(c: Config, crc: Checksum, s: State, t: State, after: After)
    requires Inv(c, crc, s) && !s.writer.place.Failing? && t == s.(queue := t.queue)
    ensures var u := StartFlush(crc, t, after);
      && (s.gate.poisoned ==> Troubled(u)) && (Troubled(u) ==> s.gate.poisoned || TooMany(u)) && u.admitted == s.admitted
  {
    BatchNumbers(c, crc, s);
    hide Inv, EncodeFrames, FramesOf, Behind;
  }

  lemma AbsorbTrouble(c: Config, crc: Checksum, s: State)
    requires Inv(c, crc, s) && s.writer.place.Absorbing?
    ensures var u := AbsorbStep(c, crc, s);
      && (s.gate.poisoned ==> Troubled(u)) && (Troubled(u) ==> s.gate.poisoned || TooMany(u)) && u.admitted == s.admitted
  {
    BatchNumbers(c, crc, s);
    assert |Behind(s)| >= 1;
    hide Inv, EncodeFrames, FramesOf, Behind;
  }

  /** Some system call before moment i failed. */
  ghost predicate Failed(ls: seq<Label>, i: nat) {
    exists k :: 0 <= k < i && k < |ls| && Fails(ls[k])
  }

  lemma {:induction false} TroubleIsFailure(c: Config, crc: Checksum, run: seq<State>, ls: seq<Label>, i: nat)
    requires IsTrace(c, crc, run, ls) && i < |run|
    ensures Failed(ls, i) ==> Troubled(run[i])
    ensures Troubled(run[i]) ==> Failed(ls, i) || TooMany(run[i])
    decreases i
  {
    hide Inv, Initial, Apply, Enabled, Troubled, Fails;
    if i == 0 {
      NoTrouble(c, crc);
    } else {
      TroubleIsFailure(c, crc, run, ls, i - 1);
      TraceIsRun(c, crc, run, ls);
      RunKeeps(c, crc, run, i - 1);
      assert Enabled(c, run[i - 1], ls[i - 1]) && run[i - 1 + 1] == Apply(c, crc, run[i - 1], ls[i - 1]);
      RunExtends(c, crc, run, i - 1, i);
      TroubleSpreads(c, crc, run[i - 1], ls[i - 1]);
    }
  }

  lemma NoTrouble(c: Config, crc: Checksum)
    requires c.Valid()
    ensures !Troubled(Initial(c, crc))
  {
  }

  /** At the end of a writer that was not poisoned every admitted frame is durable. */
  lemma DoneIsDurable(c: Config, crc: Checksum, s: State)
    requires Inv(c, crc, s) && s.writer.place == Done
    ensures !s.gate.poisoned ==> s.disk.durable == |s.admitted| <= MAX_INT64
    ensures !s.gate.poisoned ==> s.manifest == if s.gate.sealRequested then Some(|s.admitted|) else None
    ensures forall id: nat :: id in s.answers <==> id < |s.admitted|
  {
    hide JobsOk, ReturnsOk, DiskOk, DiskAt, Votes;
  }

  /**
   * How a store ends. It is poisoned exactly if a write, a sync or the close of the file failed, or more calls
   * were admitted than there are sequence numbers; otherwise every admitted call has its receipt, and Seal, where
   * it was requested, returns their number.
   */
  lemma EndsWell(c: Config, crc: Checksum, run: seq<State>, ls: seq<Label>)
    requires IsTrace(c, crc, run, ls) && run[|ls|].writer.place == Done
    ensures var s := run[|ls|];
      && (s.gate.poisoned <==> Failed(ls, |ls|) || TooMany(s))
      && (!Failed(ls, |ls|) && !TooMany(s) ==>
            && (forall id: nat | id < |s.admitted| :: id in s.answers && s.answers[id] == Confirmed(ReceiptOf(s.admitted, id)))
            && SealResult(s) == if s.gate.sealRequested then Some(|s.admitted|) else None)
      && (Failed(ls, |ls|) || TooMany(s) ==> SealResult(s) == None)
  {
    TraceIsRun(c, crc, run, ls);
    RunKeeps(c, crc, run, |ls|);
    RunAnswersExact(c, crc, run, |ls|);
    TroubleIsFailure(c, crc, run, ls, |ls|);
    DoneIsDurable(c, crc, run[|ls|]);
    hide IsTrace, IsRun, Inv, Failed, ReceiptOf;
  }

  /** A seal is requested only by a call that has seen the deadline. */
  lemma {:induction false} SealSawDeadline(c: Config, crc: Checksum, run: seq<State>, ls: seq<Label>, i: nat)
    requires IsTrace(c, crc, run, ls) && i < |run| && run[i].gate.sealRequested
    ensures exists k :: 0 <= k < i && ls[k].RequestSeal? && ls[k].now >= c.endsAt
    decreases i
  {
    hide Initial, Apply, Enabled;
    if i == 0 {
      NoSealYet(c, crc);
    } else {
      assert Enabled(c, run[i - 1], ls[i - 1]) && run[i - 1 + 1] == Apply(c, crc, run[i - 1], ls[i - 1]);
      OnlySealRequests(c, crc, run[i - 1], ls[i - 1]);
      if run[i - 1].gate.sealRequested { SealSawDeadline(c, crc, run, ls, i - 1); }
    }
  }

  lemma NoSealYet(c: Config, crc: Checksum)
    requires c.Valid()
    ensures !Initial(c, crc).gate.sealRequested
  {
  }

  lemma OnlySealRequests(c: Config, crc: Checksum, s: State, l: Label)
    requires c.Valid() && Enabled(c, s, l) && Apply(c, crc, s, l).gate.sealRequested
    ensures s.gate.sealRequested || (l.RequestSeal? && l.now >= c.endsAt)
  {
    if ByWriter(l) { WriterKeepsHistory(c, crc, s, l); } else { hide StartFlush, ClosedFrameBytes; }
  }
}
