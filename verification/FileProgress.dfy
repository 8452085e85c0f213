/**
 * What a sound store can still do (internal/filelog/store.go): as long as no system call fails, its writer ends
 * whatever it has begun, every admitted call gets its receipt, and Seal succeeds.
 */
module FileProgress {
  import opened Bytes
  import opened Wrappers
  import opened FileCodec
  import opened FileScan
  import opened FileProtocol
  import opened FileSafety
  import opened FileOutcomes

  /** The writer's next step when the system call it makes succeeds at once. */
  function GoodStep(s: State): Label {
    match s.writer.place
    case Writing(rest, _) => Write(|rest|, true)
    case _ => NextStep(s)
  }

  /** How many steps such a writer has left at most, once the queue is closed. */
  function PlaceWork(place: Place, batch: nat): nat {
    match place
    case Select => batch + 12
    case Absorbing(_) => batch + 18
    case Writing(_, after) => batch + 4 + AfterWork(after)
    case Syncing(after) => batch + 3 + AfterWork(after)
    case Failing(after) => batch + 3 + AfterWork(after)
    case Draining(pending) => if pending.Some? then 3 else 2
    case Answering(next, _, after) => (if next < batch then batch - next else 0) + 2 + AfterWork(after)
    case Finishing => 7
    case Publishing => 2
    case ClosingFile => 1
    case _ => 0
  }

  function AfterWork(after: After): nat {
    match after
    case ToSelect => 12
    case ToAbsorb(_) => 18
    case ToFinish => 7
    case ToPublish => 2
  }

  function Work(s: State): nat {
    20 * |s.queue| + PlaceWork(s.writer.place, |s.writer.batch|)
  }

  /** A store that has admitted no more calls than it can number and met no failure. */
  ghost predicate Sound(c: Config, crc: Checksum, s: State) {
    Inv(c, crc, s) && !Troubled(s) && !TooMany(s)
  }

  lemma Places(c: Config, crc: Checksum, s: State)
    requires Inv(c, crc, s)
    ensures s.writer.place.Writing? ==> s.writer.place.rest != []
    ensures s.writer.place in {Finishing, Publishing} || Publishes(s.writer.place) ==> s.writer.batch == []
    ensures s.writer.place.Draining? ==> s.gate.queueClosed
    ensures s.writer.place.Answering? ==> s.writer.place.after != ToPublish
  {
    hide FlowOk, DiskOk, Image, Marks, SealMarks;
  }

  lemma GoodIsEnabled(c: Config, crc: Checksum, s: State)
    requires Inv(c, crc, s) && s.writer.place != Done && (s.gate.queueClosed || s.writer.place != Select)
    ensures Enabled(c, s, GoodStep(s)) && !Fails(GoodStep(s)) && ByWriter(GoodStep(s))
  {
    Places(c, crc, s);
    hide Inv, Enabled, ByWriter, NextStep;
    NextStepEnabled(c, s);
    NextIsGood(c, s);
  }

  lemma NextIsGood(c: Config, s: State)
    requires Enabled(c, s, NextStep(s)) && ByWriter(NextStep(s)) && s.writer.place != Done
    requires s.writer.place.Writing? ==> s.writer.place.rest != []
    ensures Enabled(c, s, GoodStep(s)) && !Fails(GoodStep(s)) && ByWriter(GoodStep(s))
  {
  }

  /** From s to t the writer has come closer to its end; admissions and returned calls are as they were, and the gate but for a failure. */
  ghost predicate Nearer(s: State, t: State) {
    && Work(t) < Work(s) && t.admitted == s.admitted && t.returned == s.returned
    && (t.gate == s.gate || (s.writer.place.Failing? && t.gate == StopQueue(s.gate).(poisoned := true)))
  }

  lemma FlushWorks(crc: Checksum, s: State, after: After)
    ensures var t := StartFlush(crc, s, after);
      && t.admitted == s.admitted && t.gate == s.gate && t.returned == s.returned && t.queue == s.queue
      && PlaceWork(t.writer.place, |t.writer.batch|) <= |s.writer.batch| + 4 + AfterWork(after)
  {
    hide EncodeFrames, FramesOf;
  }

  lemma DequeueWorks(c: Config, crc: Checksum, s: State)
    requires s.writer.place == Select && s.queue != []
    ensures Nearer(s, DequeueStep(c, crc, s))
  {
    hide StartFlush;
    FlushWorks(crc, s.(queue := s.queue[1..]), ToAbsorb(s.queue[0]));
  }

  lemma QueueEndWorks(crc: Checksum, s: State)
    requires s.writer.place == Select
    ensures Nearer(s, StartFlush(crc, s, ToFinish))
  {
    hide StartFlush;
    FlushWorks(crc, s, ToFinish);
  }

  lemma AbsorbWorks(c: Config, crc: Checksum, s: State)
    requires s.writer.place.Absorbing?
    ensures Nearer(s, AbsorbStep(c, crc, s))
  {
    hide StartFlush;
    FlushWorks(crc, AbsorbMiddle(c, s), ToSelect);
  }

  lemma DiskWorks(s: State)
    requires s.writer.place.Writing? ==> s.writer.place.rest != []
    requires Publishes(s.writer.place) ==> s.writer.batch == []
    ensures s.writer.place.Writing? ==> Nearer(s, WriteStep(s, |s.writer.place.rest|, true))
    ensures s.writer.place.Syncing? ==> Nearer(s, SyncStep(s, true))
    ensures s.writer.place.Failing? ==> Nearer(s, FailStep(s))
  {
  }

  lemma AnswerWorks(s: State)
    requires s.writer.place.Answering? && s.writer.place.after != ToPublish
    ensures s.writer.place.next < |s.writer.batch| ==> Nearer(s, AnswerStep(s))
    ensures s.writer.place.next >= |s.writer.batch| ==> Nearer(s, EndFlushStep(s))
  {
  }

  lemma DrainWorks(s: State)
    requires s.writer.place.Draining?
    ensures Nearer(s, DrainStep(s))
  {
  }

  lemma EndWorks(crc: Checksum, s: State)
    requires s.writer.batch == [] || s.writer.place == ClosingFile
    ensures s.writer.place == Finishing ==> Nearer(s, CheckSealStep(crc, s))
    ensures s.writer.place == Publishing ==> Nearer(s, PublishStep(s))
    ensures s.writer.place == ClosingFile ==> Nearer(s, CloseFileStep(s, true))
  {
    hide ClosedFrameBytes;
  }

  lemma GroupingWorks(c: Config, crc: Checksum, s: State)
    requires c.Valid() && s.writer.place == Select && Enabled(c, s, GoodStep(s))
    ensures Nearer(s, Apply(c, crc, s, GoodStep(s)))
  {
    hide Nearer, StartFlush, DequeueStep;
    if s.queue != [] { DequeueWorks(c, crc, s); } else { QueueEndWorks(crc, s); }
  }

  lemma AbsorbingWorks(c: Config, crc: Checksum, s: State)
    requires c.Valid() && s.writer.place.Absorbing? && Enabled(c, s, GoodStep(s))
    ensures Nearer(s, Apply(c, crc, s, GoodStep(s)))
  {
    hide Nearer, AbsorbStep;
    AbsorbWorks(c, crc, s);
  }

  lemma DiskingWorks(c: Config, crc: Checksum, s: State)
    requires c.Valid() && Enabled(c, s, GoodStep(s)) && (s.writer.place.Writing? || s.writer.place.Syncing? || s.writer.place.Failing?)
    requires s.writer.place.Writing? ==> s.writer.place.rest != []
    requires Publishes(s.writer.place) ==> s.writer.batch == []
    ensures Nearer(s, Apply(c, crc, s, GoodStep(s)))
  {
    hide Nearer, WriteStep, SyncStep, FailStep;
    DiskWorks(s);
  }

  lemma AnsweringWorks(c: Config, crc: Checksum, s: State)
    requires c.Valid() && Enabled(c, s, GoodStep(s)) && s.writer.place.Answering? && s.writer.place.after != ToPublish
    ensures Nearer(s, Apply(c, crc, s, GoodStep(s)))
  {
    hide Nearer, AnswerStep, EndFlushStep;
    AnswerWorks(s);
  }

  lemma EndingWorks(c: Config, crc: Checksum, s: State)
    requires c.Valid() && Enabled(c, s, GoodStep(s))
    requires s.writer.place in {Finishing, Publishing, ClosingFile} || s.writer.place.Draining?
    requires s.writer.batch == [] || s.writer.place == ClosingFile || s.writer.place.Draining?
    ensures Nearer(s, Apply(c, crc, s, GoodStep(s)))
  {
    hide Nearer, CheckSealStep, PublishStep, CloseFileStep, DrainStep;
    if s.writer.place.Draining? { DrainWorks(s); } else { EndWorks(crc, s); }
  }

  /** A good step leaves the writer nearer to its end. */
  lemma GoodStepWorks(c: Config, crc: Checksum, s: State)
    requires c.Valid() && Inv(c, crc, s) && s.writer.place != Done && Enabled(c, s, GoodStep(s))
    ensures Nearer(s, Apply(c, crc, s, GoodStep(s)))
  {
    Places(c, crc, s);
    hide Inv, Nearer, Apply, Enabled, GoodStep;
    match s.writer.place
    case Select => GroupingWorks(c, crc, s);
    case Absorbing(_) => AbsorbingWorks(c, crc, s);
    case Writing(_, _) => DiskingWorks(c, crc, s);
    case Syncing(_) => DiskingWorks(c, crc, s);
    case Failing(_) => DiskingWorks(c, crc, s);
    case Answering(_, _, _) => AnsweringWorks(c, crc, s);
    case _ => EndingWorks(c, crc, s);
  }

  /** The good step of a sound store leaves it sound. */
  lemma StaysSound(c: Config, crc: Checksum, s: State)
    requires c.Valid() && Inv(c, crc, s) && Enabled(c, s, GoodStep(s)) && !Fails(GoodStep(s)) && Apply(c, crc, s, GoodStep(s)).admitted == s.admitted
    ensures var t := Apply(c, crc, s, GoodStep(s)); Inv(c, crc, t) && (Sound(c, crc, s) ==> Sound(c, crc, t))
  {
    hide Inv, Apply, Enabled, Troubled, Fails, GoodStep;
    StepKeeps(c, crc, s, GoodStep(s));
    TroubleSpreads(c, crc, s, GoodStep(s));
  }

  /** Steps from moment i on are the writer's own, and none fails. */
  ghost predicate OnlyGood(ls: seq<Label>, i: nat) {
    forall k | i <= k < |ls| :: ByWriter(ls[k]) && !Fails(ls[k])
  }

  /** Trace more goes on from trace run with good steps of the writer only, which leaves callers' affairs alone. */
  ghost predicate Continues(c: Config, crc: Checksum, run: seq<State>, ls: seq<Label>, more: seq<State>, mls: seq<Label>) {
    && IsTrace(c, crc, run, ls) && IsTrace(c, crc, more, mls) && run <= more && ls <= mls && OnlyGood(mls, |ls|)
    && Same(c, crc, run[|ls|], more[|mls|])
  }

  /** What the writer's good steps leave as it was. */
  ghost predicate Same(c: Config, crc: Checksum, s: State, t: State) {
    && Inv(c, crc, t) && t.admitted == s.admitted && t.returned == s.returned && t.gate.queueClosed
    && (Sound(c, crc, s) ==> Sound(c, crc, t) && t.gate == s.gate)
  }

  lemma GoodNext(c: Config, crc: Checksum, s: State)
    requires c.Valid() && Inv(c, crc, s) && s.gate.queueClosed && s.writer.place != Done
    ensures Enabled(c, s, GoodStep(s)) && !Fails(GoodStep(s)) && ByWriter(GoodStep(s))
    ensures var t := Apply(c, crc, s, GoodStep(s));
      Same(c, crc, s, t) && Work(t) < Work(s)
  {
    assert Sound(c, crc, s) ==> !s.writer.place.Failing?;
    hide Inv, Sound, Work, Apply, Enabled, GoodStep, Fails, ByWriter, Config.Valid;
    GoodIsEnabled(c, crc, s);
    GoodStepWorks(c, crc, s);
    StaysSound(c, crc, s);
  }

  lemma OneMore(c: Config, crc: Checksum, run: seq<State>, ls: seq<Label>) returns (more: seq<State>, mls: seq<Label>)
    requires IsTrace(c, crc, run, ls) && Inv(c, crc, run[|ls|]) && run[|ls|].gate.queueClosed && run[|ls|].writer.place != Done
    ensures Continues(c, crc, run, ls, more, mls) && Work(more[|mls|]) < Work(run[|ls|])
  {
    GoodNext(c, crc, run[|ls|]);
    more, mls := GoesGood(c, crc, run, ls, GoodStep(run[|ls|]));
  }

  lemma GoesGood(c: Config, crc: Checksum, run: seq<State>, ls: seq<Label>, l: Label) returns (more: seq<State>, mls: seq<Label>)
    requires IsTrace(c, crc, run, ls) && Enabled(c, run[|ls|], l) && ByWriter(l) && !Fails(l)
    requires Same(c, crc, run[|ls|], Apply(c, crc, run[|ls|], l))
    ensures Continues(c, crc, run, ls, more, mls) && more[|mls|] == Apply(c, crc, run[|ls|], l)
  {
    hide IsTrace, Same, Apply, Enabled, Fails, ByWriter;
    more, mls := GoesOn(c, crc, run, ls, l);
  }

  lemma ContinuesOn(c: Config, crc: Checksum, run: seq<State>, ls: seq<Label>, next: seq<State>, nls: seq<Label>, more: seq<State>, mls: seq<Label>)
    requires Continues(c, crc, run, ls, next, nls) && Continues(c, crc, next, nls, more, mls)
    ensures Continues(c, crc, run, ls, more, mls)
  {
    hide Sound, Inv, Fails, ByWriter, IsTrace;
    forall k | |ls| <= k < |mls| ensures ByWriter(mls[k]) && !Fails(mls[k]) {
      if k < |nls| { assert mls[k] == nls[k]; }
    }
  }

  /**
   * Once the queue is closed, whatever failed before, the run can go on by the writer's own successful steps until it
   * is done.
   */
  lemma {:induction false} CanFinish(c: Config, crc: Checksum, run: seq<State>, ls: seq<Label>)
    returns (more: seq<State>, mls: seq<Label>)
    requires IsTrace(c, crc, run, ls) && Inv(c, crc, run[|ls|]) && run[|ls|].gate.queueClosed
    ensures Continues(c, crc, run, ls, more, mls) && more[|mls|].writer.place == Done
    decreases Work(run[|ls|])
  {
    more, mls := run, ls;
    if run[|ls|].writer.place != Done {
      var next, nls := OneMore(c, crc, run, ls);
      hide Inv, Sound, Work, OnlyGood;
      more, mls := CanFinish(c, crc, next, nls);
      ContinuesOn(c, crc, run, ls, next, nls, more, mls);
    }
  }

  // ------------------------------------------------------- calls and seals

  ghost predicate GoesFrom(run: seq<State>, more: seq<State>) {
    run <= more
  }

  lemma GoesFurther(a: seq<State>, b: seq<State>, c: seq<State>)
    requires GoesFrom(a, b) && GoesFrom(b, c)
    ensures GoesFrom(a, c)
  {
  }

  /** What a run ends with when nothing fails: every call has its receipt, and Seal returns their number if requested. */
  ghost predicate AllConfirmed(s: State) {
    && s.writer.place == Done
    && (forall id: nat | id < |s.admitted| :: id in s.answers && s.answers[id] == Confirmed(ReceiptOf(s.admitted, id)))
    && SealResult(s) == if s.gate.sealRequested then Some(|s.admitted|) else None
  }

  lemma FinishConfirms(c: Config, crc: Checksum, run: seq<State>, ls: seq<Label>)
    requires IsTrace(c, crc, run, ls) && Sound(c, crc, run[|ls|]) && run[|ls|].writer.place == Done
    ensures AllConfirmed(run[|ls|])
  {
    TraceIsRun(c, crc, run, ls);
    RunAnswersExact(c, crc, run, |ls|);
    DoneIsDurable(c, crc, run[|ls|]);
    hide IsTrace, IsRun, Inv, ReceiptOf;
  }

  /** The writer is done and Seal returns this. */
  ghost predicate EndsWith(s: State, end: Option<nat>) {
    s.writer.place == Done && SealResult(s) == end
  }

  /** A sound store whose queue is open can be sealed, or closed: either way every admitted call has its receipt. */
  lemma CanEnd(c: Config, crc: Checksum, run: seq<State>, ls: seq<Label>, seal: bool) returns (more: seq<State>, mls: seq<Label>)
    requires IsTrace(c, crc, run, ls) && Sound(c, crc, run[|ls|]) && !run[|ls|].gate.queueClosed
    ensures IsTrace(c, crc, more, mls) && GoesFrom(run, more)
    ensures ls <= mls
    ensures |ls| < |mls| && mls[|ls|] == (if seal then RequestSeal(c.endsAt) else RequestClose) && OnlyGood(mls, |ls| + 1)
    ensures AllConfirmed(more[|mls|]) && more[|mls|].admitted == run[|ls|].admitted && more[|mls|].returned == run[|ls|].returned
    ensures EndsWith(more[|mls|], if seal then Some(|run[|ls|].admitted|) else None)
  {
    var s, l := run[|ls|], if seal then RequestSeal(c.endsAt) else RequestClose;
    assert c.Valid() && |run| == |ls| + 1 && !TooMany(s);
    hide IsTrace, Sound, Inv, Work, Apply, Enabled, AllConfirmed, Fails, Config.Valid, EndsWith;
    StopsQueue(c, crc, s, seal);
    StepSound(c, crc, s, l);
    SoundInv(c, crc, Apply(c, crc, s, l));
    var next, nls := GoesOn(c, crc, run, ls, l);
    more, mls := CanFinish(c, crc, next, nls);
    FinishConfirms(c, crc, more, mls);
    SealIsNumber(more[|mls|]);
    assert mls[|ls|] == nls[|ls|];
  }

  lemma SoundInv(c: Config, crc: Checksum, s: State)
    requires Sound(c, crc, s)
    ensures Inv(c, crc, s)
  {
  }

  lemma SealIsNumber(s: State)
    requires AllConfirmed(s)
    ensures EndsWith(s, if s.gate.sealRequested then Some(|s.admitted|) else None)
  {
  }

  lemma StopsQueue(c: Config, crc: Checksum, s: State, seal: bool)
    requires c.Valid() && Sound(c, crc, s) && !s.gate.queueClosed
    ensures var l := if seal then RequestSeal(c.endsAt) else RequestClose;
      && Enabled(c, s, l) && !Fails(l)
      && var t := Apply(c, crc, s, l);
      t.gate.queueClosed && t.gate.sealRequested == seal && t.admitted == s.admitted && t.returned == s.returned
  {
    assert Flags(s.gate, s.queue, s.writer.place);
    hide Sound;
  }

  lemma StepSound(c: Config, crc: Checksum, s: State, l: Label)
    requires c.Valid() && Sound(c, crc, s) && Enabled(c, s, l) && !Fails(l) && !TooMany(Apply(c, crc, s, l))
    ensures Sound(c, crc, Apply(c, crc, s, l))
  {
    hide Inv, Apply, Enabled, Troubled, Fails, TooMany;
    StepKeeps(c, crc, s, l);
    TroubleSpreads(c, crc, s, l);
  }

  lemma SubmitsOn(c: Config, crc: Checksum, run: seq<State>, ls: seq<Label>, inputs: Inputs, at: i64)
    returns (more: seq<State>, mls: seq<Label>)
    requires IsTrace(c, crc, run, ls) && Sound(c, crc, run[|ls|]) && !run[|ls|].gate.admissionClosed && |run[|ls|].admitted| < MAX_INT64
    requires ValidInputs(c, inputs) && c.InWindow(at) && run[|ls|].queuedVotes + |inputs| <= c.queuePerPartition
    ensures IsTrace(c, crc, more, mls) && GoesFrom(run, more) && Sound(c, crc, more[|mls|]) && !more[|mls|].gate.queueClosed
    ensures var s, t := run[|ls|], more[|mls|];
      t.admitted == s.admitted + [Job(|s.admitted|, inputs, at)] && t.returned == s.returned && |s.admitted| !in t.returned
  {
    CanSubmit(c, crc, run[|ls|], inputs, at);
    StepSound(c, crc, run[|ls|], Submit(inputs, false, at, at, false));
    NotReturned(c, crc, run, ls);
    hide IsTrace, Sound, Apply, Enabled, TooMany, Fails, Config.InWindow, ValidInputs;
    more, mls := GoesOn(c, crc, run, ls, Submit(inputs, false, at, at, false));
  }

  lemma TakesOn(c: Config, crc: Checksum, run: seq<State>, ls: seq<Label>, id: nat, end: Option<nat>)
    returns (more: seq<State>, mls: seq<Label>)
    requires IsTrace(c, crc, run, ls) && AllConfirmed(run[|ls|]) && id < |run[|ls|].admitted| && id !in run[|ls|].returned
    requires EndsWith(run[|ls|], end)
    ensures IsTrace(c, crc, more, mls) && GoesFrom(run, more) && EndsWith(more[|mls|], end)
    ensures var s, t := run[|ls|], more[|mls|];
      && id in t.returned && t.returned[id] == Confirmed(ReceiptOf(s.admitted, id))
  {
    TakesConfirmed(c, crc, run[|ls|], id);
    hide IsTrace, Apply, Enabled, SealResult, ReceiptOf;
    more, mls := GoesOn(c, crc, run, ls, Take(id));
  }

  lemma SubmitsAndSeals(c: Config, crc: Checksum, run: seq<State>, ls: seq<Label>, inputs: Inputs, at: i64)
    returns (more: seq<State>, mls: seq<Label>)
    requires IsTrace(c, crc, run, ls) && Sound(c, crc, run[|ls|]) && !run[|ls|].gate.admissionClosed && |run[|ls|].admitted| < MAX_INT64
    requires ValidInputs(c, inputs) && c.InWindow(at) && run[|ls|].queuedVotes + |inputs| <= c.queuePerPartition
    ensures IsTrace(c, crc, more, mls) && GoesFrom(run, more)
    ensures var id, t := |run[|ls|].admitted|, more[|mls|];
      && AllConfirmed(t) && EndsWith(t, Some(id + 1)) && id !in t.returned
      && |t.admitted| == id + 1 && t.admitted[id] == Job(id, inputs, at)
  {
    hide *;
    var first, fls := SubmitsOn(c, crc, run, ls, inputs, at);
    more, mls := CanEnd(c, crc, first, fls, true);
    GoesFurther(run, first, more);
  }

  /**
   * A frame can be acknowledged: in a sound store that is open and has room and a sequence number left, any valid
   * inputs can be submitted at any instant of the window, and the run can go on until the call returns its receipt
   * and Seal returns the number of calls.
   */
  lemma CanAcknowledge(c: Config, crc: Checksum, run: seq<State>, ls: seq<Label>, inputs: Inputs, at: i64)
    returns (more: seq<State>, mls: seq<Label>)
    requires IsTrace(c, crc, run, ls) && Sound(c, crc, run[|ls|]) && !run[|ls|].gate.admissionClosed && |run[|ls|].admitted| < MAX_INT64
    requires ValidInputs(c, inputs) && c.InWindow(at) && run[|ls|].queuedVotes + |inputs| <= c.queuePerPartition
    ensures IsTrace(c, crc, more, mls) && GoesFrom(run, more)
    ensures var id, t := |run[|ls|].admitted|, more[|mls|];
      && id in t.returned && t.returned[id] == Confirmed(Receipt(id, |inputs|, at))
      && EndsWith(t, Some(id + 1))
  {
    assert |run| == |ls| + 1;
    hide *;
    var id := |run[|ls|].admitted|;
    var next, nls := SubmitsAndSeals(c, crc, run, ls, inputs, at);
    more, mls := TakesOn(c, crc, next, nls, id, Some(id + 1));
    ReceiptIs(next[|nls|].admitted, id);
    GoesFurther(run, next, more);
  }

  lemma ReceiptIs(admitted: seq<Job>, id: nat)
    requires id < |admitted|
    ensures ReceiptOf(admitted, id) == Receipt(id, |admitted[id].inputs|, admitted[id].admitted)
  {
  }

  lemma CanSubmit(c: Config, crc: Checksum, s: State, inputs: Inputs, at: i64)
    requires c.Valid() && Sound(c, crc, s) && !s.gate.admissionClosed && ValidInputs(c, inputs) && c.InWindow(at)
    requires s.queuedVotes + |inputs| <= c.queuePerPartition && |s.admitted| < MAX_INT64
    ensures var l := Submit(inputs, false, at, at, false);
      && Enabled(c, s, l) && !Fails(l)
      && var t := Apply(c, crc, s, l);
      && t.admitted == s.admitted + [Job(|s.admitted|, inputs, at)] && t.gate == s.gate && t.returned == s.returned
      && !TooMany(t) && !t.gate.queueClosed
  {
    assert Flags(s.gate, s.queue, s.writer.place) && !s.gate.poisoned;
    hide Sound, SubmitStep, SubmitOutcomeOf, ValidInputs;
    SubmitIsExact(c, s, inputs, false, at, at, false);
    SubmitDoes(c, s, inputs, false, at, at, false);
  }

  lemma NotReturned(c: Config, crc: Checksum, run: seq<State>, ls: seq<Label>)
    requires IsTrace(c, crc, run, ls)
    ensures |run[|ls|].admitted| !in run[|ls|].returned
  {
    TraceIsRun(c, crc, run, ls);
    RunKeeps(c, crc, run, |ls|);
    hide IsTrace, IsRun, LocalOk, JobsOk, Fifo, QueueBounds, AnswersOk;
  }

  lemma TakesConfirmed(c: Config, crc: Checksum, s: State, id: nat)
    requires c.Valid() && AllConfirmed(s) && id < |s.admitted| && id !in s.returned
    ensures Enabled(c, s, Take(id))
    ensures var t := Apply(c, crc, s, Take(id));
      && id in t.returned && t.returned[id] == Confirmed(ReceiptOf(s.admitted, id))
      && t.writer.place == Done && SealResult(t) == SealResult(s)
  {
  }
}
