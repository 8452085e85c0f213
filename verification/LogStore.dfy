/**
 * One partition's writer (internal/votelog/store.go, internal/votelog/frame_submit.go): its gate, its queue
 * and the batch it commits, updated in place. Each method is a critical section or an action of the writer
 * goroutine and does to this owner what the LogProtocol step of the same name does.
 */
module LogStore {
  import opened Bits
  import opened Bytes
  import opened Wrappers
  import FileCodec
  import opened LogCodec
  import opened LogReplay
  import opened LogProtocol

  datatype Job = Job(id: nat, entry: Entry)

  /** What a caller is told after admission. */
  datatype Answer = Unknown | Receipt(offset: nat)

  datatype Verdict = Invalid | Unsure | Closed | Busy | NotOpen | Passed

  function Entries(jobs: seq<Job>): (es: seq<Entry>)
    ensures |es| == |jobs|
  {
    seq(|jobs|, i requires 0 <= i < |jobs| => jobs[i].entry)
  }

  function Size(e: Entry): nat {
    |VotesIn(e)|
  }

  function Votes(jobs: seq<Job>): nat {
    if jobs == [] then 0 else Size(jobs[0].entry) + Votes(jobs[1..])
  }

  lemma {:induction false} VotesConcat(a: seq<Job>, b: seq<Job>)
    ensures Votes(a + b) == Votes(a) + Votes(b)
  {
    if a == [] {
      assert a + b == b;
    } else {
      assert (a + b)[0] == a[0] && (a + b)[1..] == a[1..] + b;
      VotesConcat(a[1..], b);
    }
  }

  /** Jobs with consecutive numbers from n on. */
  ghost predicate Numbered(jobs: seq<Job>, n: nat) {
    forall i | 0 <= i < |jobs| :: jobs[i].id == n + i
  }

  /** An admitted entry: valid for this partition and no larger than a batch. */
  ghost predicate Fits(c: Config, hash: Hash, p: nat, e: Entry)
    requires c.Valid()
  {
    Admissible(c, hash, p, e) && 1 <= Size(e) <= c.batchSize
  }

  ghost predicate AllFit(c: Config, hash: Hash, p: nat, jobs: seq<Job>)
    requires c.Valid()
  {
    forall i | 0 <= i < |jobs| :: Fits(c, hash, p, jobs[i].entry)
  }

  /** The gate's answer, in the order of the checks, for an entry of this size. */
  function GateOf(w: Owner, failed: bool, cancelled: bool, c: Config, queuedVotes: nat, size: nat, now: int): Verdict {
    if w.closing || w.sealed.Some? then Verdict.Closed
    else if failed || cancelled then Unsure
    else if queuedVotes + size > c.queuePerPartition then Busy
    else if now < c.startsAt then NotOpen
    else if now >= c.endsAt then Verdict.Closed
    else Passed
  }

  /** The vote bounds: credits are those of the queue, and of what the deferred function dropped. */
  ghost predicate Bounds(c: Config, hash: Hash, p: nat, jobs: seq<Job>, batch: seq<Job>, queuedVotes: nat, leaked: nat,
                         batchVotes: nat, held: Option<Entry>)
    requires c.Valid()
  {
    && AllFit(c, hash, p, jobs) && AllFit(c, hash, p, batch)
    && queuedVotes == Votes(jobs) + leaked <= c.queuePerPartition
    && batchVotes == Votes(batch) <= c.batchSize
    && (held.Some? ==> Fits(c, hash, p, held.value) && queuedVotes + Size(held.value) <= c.queuePerPartition)
  }

  lemma BoundsSend(c: Config, hash: Hash, p: nat, jobs: seq<Job>, batch: seq<Job>, queuedVotes: nat, leaked: nat, batchVotes: nat, job: Job)
    requires c.Valid() && Bounds(c, hash, p, jobs, batch, queuedVotes, leaked, batchVotes, Some(job.entry))
    ensures Bounds(c, hash, p, jobs + [job], batch, queuedVotes + Size(job.entry), leaked, batchVotes, None)
    ensures Fits(c, hash, p, job.entry)
  {
    hide Fits, Size;
    VotesConcat(jobs, [job]);
  }

  lemma BoundsTake(c: Config, hash: Hash, p: nat, jobs: seq<Job>, batch: seq<Job>, queuedVotes: nat, leaked: nat, batchVotes: nat)
    requires c.Valid() && Bounds(c, hash, p, jobs, batch, queuedVotes, leaked, batchVotes, None)
    requires jobs != [] && batchVotes + Size(jobs[0].entry) <= c.batchSize
    ensures Size(jobs[0].entry) <= queuedVotes
    ensures Bounds(c, hash, p, jobs[1..], batch + [jobs[0]], queuedVotes - Size(jobs[0].entry), leaked, batchVotes + Size(jobs[0].entry), None)
  {
    hide Fits, Size;
    VotesConcat(batch, [jobs[0]]);
  }

  lemma BoundsDrop(c: Config, hash: Hash, p: nat, jobs: seq<Job>, batch: seq<Job>, queuedVotes: nat, batchVotes: nat, held: Option<Entry>)
    requires c.Valid() && Bounds(c, hash, p, jobs, batch, queuedVotes, 0, batchVotes, held)
    ensures Bounds(c, hash, p, jobs, [], queuedVotes, 0, 0, held)
    ensures Bounds(c, hash, p, [], batch, queuedVotes, Votes(jobs), batchVotes, held)
  {
    hide Fits, Size;
  }

  class Writer {
    const c: Config
    const hash: Hash
    const p: nat

    var place: Place
    var closing: bool
    var sealed: Option<nat>
    var failed: bool
    /** The store's context is over. Close sets this without the writer's lock. */
    var cancelled: bool
    var jobs: seq<Job>
    var batch: seq<Job>
    var queuedVotes: nat
    var batchVotes: nat
    var answers: map<nat, Answer>
    var calls: nat
    /** What a Submit that has passed the gate is about to send; it holds the lock until it has. */
    var held: Option<Entry>
    /** The writer goroutine has answered what was left, without the lock, and returned. */
    var over: bool

    /** Votes of jobs that the deferred function answered: their credits are never returned. */
    ghost var leaked: nat
    ghost var clock: Clock

    ghost function View(): Owner
      reads this`place, this`closing, this`sealed, this`jobs, this`batch
    {
      Owner(place, closing, sealed, Entries(jobs), Entries(batch))
    }

    /** The place of a writer after its recovery: what it commits is its batch, or CLOSED when nothing is left. */
    ghost predicate PlaceOk()
      reads this`place, this`batch, this`jobs, this`closing
    {
      match place
      case Serving => true
      case Producing(work) => Commits(work)
      case Ending(work, _) => Commits(work)
      case Stopped => true
      case _ => false
    }

    ghost predicate Commits(work: Work)
      reads this`batch, this`jobs, this`closing
    {
      if work == WorkClosed then batch == [] && jobs == [] && closing
      else work == WorkBatch(Entries(batch)) && batch != []
    }

    ghost predicate Bounded()
      reads this`jobs, this`batch, this`queuedVotes, this`leaked, this`batchVotes, this`held, this`over
    {
      c.Valid() && Bounds(c, hash, p, jobs, batch, queuedVotes, leaked, batchVotes, held) && (!over ==> leaked == 0)
    }

    /** Jobs are answered in the order of their numbers. */
    ghost predicate Ordered()
      reads this`jobs, this`batch, this`calls, this`answers
    {
      InOrder(jobs, batch, calls, answers)
    }

    /** The lock, the gate and how the goroutine can have ended. */
    ghost predicate Gated()
      reads this`place, this`closing, this`sealed, this`failed, this`cancelled, this`over, this`held, this`jobs, this`batch, this`answers
    {
      && p < c.partitions && PlaceOk()
      && (sealed.Some? ==> place == Stopped && closing && jobs == [] && batch == [] && AllReceipts())
      && (place != Stopped ==> !failed && !over && AllReceipts())
      && (closing || failed ==> held.None?)
      && (over ==> batch == [] && (failed || cancelled || sealed.Some?))
    }

    ghost predicate Timed()
      reads this`clock, this`calls, this`held, this`cancelled, this`over
    {
      Times(clock, calls, held.Some?, cancelled, over)
    }

    ghost predicate Late()
      reads this`clock, this`calls, this`cancelled, this`over, this`answers
    {
      over ==> Lates(clock, calls, cancelled, answers)
    }

    /** At most one job can be sent after the deferred function has run: the one that was held then. */
    ghost predicate AtMostOneLeft()
      reads this`over, this`jobs, this`held
    {
      over ==> |jobs| + (if held.Some? then 1 else 0) <= 1
    }

    ghost predicate Valid()
      reads this
    {
      Bounded() && Ordered() && Gated() && Timed() && Late() && AtMostOneLeft()
    }

    /** Every answer so far is a receipt. */
    ghost predicate AllReceipts()
      reads this`answers
    {
      forall id: nat | id in answers :: answers[id].Receipt?
    }

    constructor (c: Config, hash: Hash, p: nat)
      requires c.Valid() && p < c.partitions
      ensures Valid() && View() == Owner(Serving, false, None, [], []) && !failed && !cancelled && calls == 0 && !over && held.None?
      ensures this.c == c && this.hash == hash && this.p == p
    {
      this.c, this.hash, this.p := c, hash, p;
      place, closing, sealed, failed, cancelled, over, held := Serving, false, None, false, false, false, None;
      jobs, batch, queuedVotes, batchVotes, answers, calls := [], [], 0, 0, map[], 0;
      leaked, clock := 0, Clock(0, map[], map[], 0, 0);
    }

    // ------------------------------------------------------------ callers

    /** The gate's critical section up to the send: it ends with the lock still held exactly if it passes. */
    method Check(entry: Entry, now: int) returns (v: Verdict)
      requires Valid() && held.None? && 1 <= Size(entry) <= c.batchSize
      requires c.startsAt <= now < c.endsAt ==> Admissible(c, hash, p, entry)
      modifies this`held, this`clock
      ensures Valid() && View() == old(View())
      ensures v == GateOf(View(), failed, cancelled, c, queuedVotes, Size(entry), now)
      ensures held == if v == Passed then Some(entry) else None
    {
      if sealed.Some? || closing {
        return Verdict.Closed;
      }
      if failed || cancelled {
        return Unsure;
      }
      if queuedVotes + Size(entry) > c.queuePerPartition {
        return Busy;
      }
      if now < c.startsAt {
        return NotOpen;
      }
      if now >= c.endsAt {
        return Verdict.Closed;
      }
      assert Fits(c, hash, p, entry);
      hide Fits, Admissible, Config.Valid, Votes, Entries, AllFit, Times, InOrder;
      held := Some(entry);
      PassTimes(clock, calls, over);
      clock := clock.Pass(calls);
      v := Passed;
    }

    /** The send that ends the critical section. */
    method Send()
      requires Valid() && held.Some?
      modifies this`jobs, this`queuedVotes, this`calls, this`held, this`clock
      ensures Valid() && held.None? && calls == old(calls) + 1
      ensures queuedVotes == old(queuedVotes) + Size(old(held).value)
      ensures View() == old(View()).(jobs := old(View()).jobs + [old(held).value])
      ensures place == Stopped || (Accepts(old(View())) && Admissible(c, hash, p, old(held).value))
    {
      hide Bounds, Fits, Size, Config.Valid, InOrder, Times, Lates, AllReceipts, Admissible, Numbered;
      var entry := held.value;
      var job := Job(calls, entry);
      BoundsSend(c, hash, p, jobs, batch, queuedVotes, leaked, batchVotes, job);
      FitMeans(c, hash, p, entry);
      OrderMore(jobs, batch, calls, answers, job);
      SendTimes(clock, calls, cancelled, over, answers);
      assert Entries(jobs + [job]) == Entries(jobs) + [entry];
      hide Entries;
      jobs := jobs + [job];
      queuedVotes := queuedVotes + Size(entry);
      clock := clock.Send(calls);
      calls := calls + 1;
      held := None;
    }

    /** Submit of one vote routed to this partition, up to the send. */
    method CheckVote(token: Token, choice: u32, now: int, gone: bool) returns (v: Verdict)
      requires Valid() && held.None? && Partition(c, hash, token) == p
      modifies this`held, this`clock
      ensures Valid() && View() == old(View())
      ensures token == ZERO_TOKEN || !c.ValidChoice(choice) <==> v == Invalid
      ensures v != Invalid && gone ==> v == Unsure
      ensures v != Invalid && !gone ==> v == GateOf(View(), failed, cancelled, c, queuedVotes, 1, now)
      ensures if v == Passed then c.startsAt <= now < c.endsAt && held == Some(One(Ballot(FileCodec.Vote(token, choice, now)))) else held.None?
    {
      hide Ordered, Gated, Timed, GateOf;
      assert c.batchSize >= 1;
      if token == ZERO_TOKEN || !c.ValidChoice(choice) {
        return Invalid;
      }
      if gone {
        return Unsure;
      }
      GateIsExact(View(), failed, cancelled, c, queuedVotes, 1, now);
      var stamp := if c.startsAt <= now < c.endsAt then now else c.startsAt;
      v := Check(One(Ballot(FileCodec.Vote(token, choice, stamp))), now);
    }

    /** SubmitFrame up to the send: all its votes are for this partition and get one admission instant. */
    method CheckFrame(inputs: seq<FileCodec.Input>, now: int, gone: bool) returns (v: Verdict)
      requires Valid() && held.None? && (inputs != [] ==> Partition(c, hash, inputs[0].token) == p)
      modifies this`held, this`clock
      ensures Valid() && View() == old(View())
      ensures v == Invalid <==>
              || |inputs| == 0 || |inputs| > c.batchSize || |inputs| > MAX_FRAME_VOTES
              || exists i | 0 <= i < |inputs| ::
                   inputs[i].token == ZERO_TOKEN || !c.ValidChoice(inputs[i].choice) || Partition(c, hash, inputs[i].token) != p
      ensures v != Invalid && gone ==> v == Unsure
      ensures v != Invalid && !gone ==> v == GateOf(View(), failed, cancelled, c, queuedVotes, |inputs|, now)
      ensures if v == Passed then c.startsAt <= now < c.endsAt && 1 <= |inputs| <= MAX_FRAME_VOTES && held == Some(Many(FileCodec.Stamp(inputs, now)))
              else held.None?
    {
      hide Ordered, Gated, Timed, GateOf, Partition, Config.ValidChoice;
      assert c.Valid();
      if |inputs| == 0 || |inputs| > c.batchSize || |inputs| > MAX_FRAME_VOTES {
        return Invalid;
      }
      for i := 0 to |inputs|
        invariant forall k | 0 <= k < i ::
                    inputs[k].token != ZERO_TOKEN && c.ValidChoice(inputs[k].choice) && Partition(c, hash, inputs[k].token) == p
      {
        if inputs[i].token == ZERO_TOKEN || !c.ValidChoice(inputs[i].choice) || Partition(c, hash, inputs[i].token) != p {
          return Invalid;
        }
      }
      if gone {
        return Unsure;
      }
      GateIsExact(View(), failed, cancelled, c, queuedVotes, |inputs|, now);
      var stamp: i64 := if c.startsAt <= now < c.endsAt then now else c.startsAt;
      StampedFits(c, hash, p, inputs, stamp);
      v := Check(Many(FileCodec.Stamp(inputs, stamp)), now);
    }

    /** What a caller that waits for its job's answer is told, now or when the store's context ends. */
    method Await(id: nat, gone: bool) returns (a: Option<Answer>)
      requires Valid() && id < calls
      ensures a == if id in answers then Some(answers[id]) else if gone || cancelled then Some(Unknown) else None
    {
      if id in answers {
        return Some(answers[id]);
      }
      a := if gone || cancelled then Some(Unknown) else None;
    }

    /** Seal's own critical section, once the deadline has passed. */
    method RequestSeal()
      requires Valid() && held.None?
      modifies this`closing
      ensures Valid() && View() == (if old(sealed).Some? || old(failed) then old(View()) else old(View()).(closing := true))
    {
      hide Bounded, Ordered, Timed;
      if sealed.Some? || failed {
        return;
      }
      closing := true;
    }

    /** Close ends the store's context at any moment, also between a Submit's check and its send. */
    method Cancel()
      requires Valid()
      modifies this`cancelled, this`clock
      ensures Valid() && cancelled && View() == old(View()) && held == old(held)
    {
      hide Bounded, Ordered, AllReceipts, PlaceOk, Times, Lates;
      if !cancelled {
        CancelTimes(clock, calls, held.Some?, over, answers);
        clock := clock.Cancel();
        cancelled := true;
      }
    }

    // ------------------------------------------------- the writer goroutine

    /** Moves the first job into the batch; its votes no longer count as queued. */
    method TakeJob()
      requires Valid() && place == Serving && held.None? && jobs != [] && batchVotes + Size(jobs[0].entry) <= c.batchSize
      modifies this`jobs, this`batch, this`queuedVotes, this`batchVotes
      ensures Valid() && jobs == old(jobs)[1..] && batch == old(batch) + [old(jobs)[0]]
      ensures batchVotes == old(batchVotes) + Size(old(jobs)[0].entry) && queuedVotes == old(queuedVotes) - Size(old(jobs)[0].entry)
      ensures View() == old(View()).(jobs := old(View()).jobs[1..], batch := old(View()).batch + [old(View()).jobs[0]])
    {
      hide Bounds, Fits, Timed, Late, InOrder, Size, Config.Valid, AllReceipts;
      var job := jobs[0];
      BoundsTake(c, hash, p, jobs, batch, queuedVotes, leaked, batchVotes);
      OrderMoves(jobs, batch, calls, answers);
      assert Entries(jobs[1..]) == Entries(jobs)[1..] && Entries(batch + [job]) == Entries(batch) + [Entries(jobs)[0]];
      hide Entries;
      queuedVotes := queuedVotes - Size(job.entry);
      batchVotes := batchVotes + Size(job.entry);
      batch, jobs := batch + [job], jobs[1..];
    }

    /** flush up to the transaction: the batch is what is committed. */
    method Flush()
      requires Valid() && place == Serving && batch != []
      modifies this`place
      ensures Valid() && place == Producing(WorkBatch(View().batch))
      ensures View() == old(View()).(place := Producing(WorkBatch(old(View()).batch)))
    {
      hide Bounded, Ordered, Timed;
      place := Producing(WorkBatch(Entries(batch)));
    }

    /** CLOSED is committed once the queue and the batch are empty behind a closed gate. */
    method BeginClosed()
      requires Valid() && place == Serving && closing && sealed.None? && jobs == [] && batch == []
      modifies this`place
      ensures Valid() && View() == old(View()).(place := Producing(WorkClosed))
    {
      hide Bounded, Ordered, Timed;
      place := Producing(WorkClosed);
    }

    /** ProduceSync succeeded: the broker has given the records offsets from first on. */
    method Produced(first: nat)
      requires Valid() && place.Producing?
      modifies this`place
      ensures Valid() && View() == old(View()).(place := Ending(old(place).work, first))
    {
      hide Bounded, Ordered, Timed;
      place := Ending(place.work, first);
    }

    /** Answers jobs with consecutive numbers: with their own record's offset, or as unknown. */
    method AnswerAll(js: seq<Job>, first: Option<nat>, ghost n: nat)
      requires Numbered(js, n) && Answered(answers, n)
      modifies this`answers
      ensures Told(old(answers), answers, js, first, n)
    {
      hide Told, Answered;
      NothingTold(answers, js, first, n);
      for i := 0 to |js|
        modifies this`answers
        invariant Told(old(answers), answers, js[..i], first, n)
      {
        ToldMore(old(answers), answers, js, first, n, i);
        answers := answers[js[i].id := AnswerOf(first, i)];
      }
      assert js[..|js|] == js;
    }

    /** EndTransaction succeeded: the callers of a batch get receipts, a CLOSED seals the writer. */
    method Committed()
      requires Valid() && place.Ending?
      modifies this`place, this`batch, this`batchVotes, this`answers, this`sealed
      ensures Valid() && View() == LogProtocol.Committed(old(View()), old(place).first)
      ensures old(place).work != WorkClosed ==> sealed == old(sealed) && Receipts(old(batch), old(place).first)
      ensures Keeps(old(answers))
    {
      hide Timed, Fits, Size, Config.Valid, InOrder, Told;
      NotOver();
      OrderedParts();
      if place.work == WorkClosed {
        sealed := Some(place.first);
        place := Stopped;
        return;
      }
      ghost var before, n := answers, calls - |jobs| - |batch|;
      AnswerAll(batch, Some(place.first), n);
      ToldOrdered(jobs, batch, calls, before, answers, Some(place.first));
      ToldKeeps(before, answers, batch, Some(place.first), n);
      ToldEach(before, answers, batch, Some(place.first), n);
      ToldReceipts(before, answers, batch, place.first, n);
      BoundsDrop(c, hash, p, jobs, batch, queuedVotes, batchVotes, held);
      hide Bounds, Votes;
      batch, batchVotes := [], 0;
      assert Entries([]) == [];
      place := Serving;
    }

    /** The callers of these jobs have receipts, from this offset on. */
    ghost predicate Receipts(js: seq<Job>, first: nat)
      reads this`answers
    {
      forall i | 0 <= i < |js| :: js[i].id in answers && answers[js[i].id] == Receipt(first + i)
    }

    /** Answers given stay. */
    ghost predicate Keeps(before: map<nat, Answer>)
      reads this`answers
    {
      Extends(before, answers)
    }

    lemma NotOver()
      requires Valid() && place != Stopped
      ensures !over && !failed
    {
      hide Timed, Ordered, Bounded;
    }

    /** Any step of the transaction failed: the callers of its batch are told nothing is known. */
    method Failed()
      requires Valid() && (place.Producing? || place.Ending?)
      modifies this`place, this`batch, this`batchVotes, this`answers
      ensures Valid() && place == Stopped && !over && batch == [] && Keeps(old(answers))
      ensures forall i | 0 <= i < |old(batch)| :: old(batch)[i].id in answers && answers[old(batch)[i].id] == Unknown
    {
      hide Timed, Fits, Size, Config.Valid, InOrder, Told;
      NotOver();
      DropBatch();
    }

    /** fail, under the lock. */
    method MarkFailed()
      requires Valid() && held.None? && place == Stopped && sealed.None?
      modifies this`failed
      ensures Valid() && failed
    {
      hide Bounded, Ordered, Timed;
      failed := true;
    }

    /**
     * The deferred function of run, without the lock: what is in the batch and the queue is answered as unknown
     * and keeps its credits. A Submit that holds the lock sends after it.
     */
    method Finish()
      requires Valid() && !over && (failed || sealed.Some? || (cancelled && place == Serving))
      modifies this`place, this`batch, this`batchVotes, this`jobs, this`answers, this`over, this`leaked, this`clock
      ensures Valid() && over && place == Stopped && jobs == [] && batch == [] && Keeps(old(answers)) && Answered(answers, calls)
    {
      hide Bounded, Ordered, Timed, Late;
      if sealed.Some? {
        Leave();
        return;
      }
      DropBatch();
      DropJobs();
    }

    method DropBatch()
      requires Valid() && !over && sealed.None?
      modifies this`place, this`batch, this`batchVotes, this`answers
      ensures Valid() && place == Stopped && batch == [] && Keeps(old(answers))
      ensures forall i | 0 <= i < |old(batch)| :: old(batch)[i].id in answers && answers[old(batch)[i].id] == Unknown
    {
      hide Timed, Fits, Size, Config.Valid, InOrder, Told, AllReceipts, Extends, Commits;
      OrderedParts();
      ghost var before, n := answers, calls - |jobs| - |batch|;
      AnswerAll(batch, None, n);
      ToldOrdered(jobs, batch, calls, before, answers, None);
      ToldKeeps(before, answers, batch, None, n);
      ToldEach(before, answers, batch, None, n);
      BoundsDrop(c, hash, p, jobs, batch, queuedVotes, batchVotes, held);
      hide Bounds, Votes;
      place, batch, batchVotes := Stopped, [], 0;
    }

    method DropJobs()
      requires Valid() && !over && place == Stopped && batch == [] && (failed || cancelled) && sealed.None?
      modifies this`jobs, this`answers, this`over, this`leaked, this`clock
      ensures Valid() && over && jobs == [] && Keeps(old(answers))
      ensures Answered(answers, calls)
    {
      hide Fits, Size, Config.Valid, InOrder, Told, AllReceipts, Answered, Times, Lates, Extends, Numbered, Strands, Commits;
      OrderedParts();
      ghost var before, n := answers, calls - |jobs|;
      AnswerAll(jobs, None, n);
      ToldAllJobs(jobs, calls, before, answers);
      ToldKeeps(before, answers, jobs, None, n);
      DrainTimes(clock, calls, held.Some?, cancelled, answers);
      BoundsDrop(c, hash, p, jobs, batch, queuedVotes, batchVotes, held);
      hide Bounds, Votes;
      leaked, jobs, over := Votes(jobs), [], true;
      clock := clock.Drain();
    }

    /** After a success nothing is left to answer. */
    method Leave()
      requires Valid() && !over && sealed.Some?
      modifies this`over, this`clock
      ensures Valid() && over && jobs == [] && batch == [] && Answered(answers, calls)
    {
      SealedAnswered();
      hide Fits, Size, Config.Valid, Answered, AllReceipts, Ordered, Times, Lates;
      DrainTimes(clock, calls, held.Some?, cancelled, answers);
      over, clock := true, clock.Drain();
    }

    lemma SealedAnswered()
      requires Valid() && sealed.Some?
      ensures jobs == [] && batch == [] && Answered(answers, calls)
    {
    }

    lemma OrderedParts()
      requires Ordered()
      ensures |batch| + |jobs| <= calls
      ensures Numbered(batch, calls - |jobs| - |batch|) && Numbered(jobs, calls - |jobs|) && Answered(answers, calls - |jobs| - |batch|)
    {
    }

    // ------------------------------------------------------- the loop of run

    /** flush as a whole, with what became of the transaction. */
    method FlushNow(reply: Reply) returns (ok: bool)
      requires Valid() && place == Serving
      modifies this`place, this`batch, this`batchVotes, this`answers, this`sealed
      ensures Valid() && batch == [] && batchVotes == 0 && sealed == old(sealed) && Keeps(old(answers))
      ensures ok <==> place == Serving
      ensures !ok ==> place == Stopped && !over
      ensures ok && old(batch) != [] ==> reply.Done? && Receipts(old(batch), reply.first)
    {
      hide Bounded, Ordered, Timed, Late, Receipts;
      if batch == [] {
        EmptyBatch();
        return true;
      }
      Flush();
      ok := Transact(reply);
    }

    lemma EmptyBatch()
      requires Valid() && batch == []
      ensures batchVotes == 0
    {
    }

    /** commit: begin, produce and end of one transaction. */
    method Transact(reply: Reply) returns (ok: bool)
      requires Valid() && place.Producing?
      modifies this`place, this`batch, this`batchVotes, this`answers, this`sealed
      ensures Valid() && (ok <==> reply.Done?) && batch == [] && batchVotes == 0 && Keeps(old(answers))
      ensures !ok ==> place == Stopped && !over && sealed == old(sealed)
      ensures ok && old(place).work != WorkClosed ==> place == Serving && sealed == old(sealed) && Receipts(old(batch), reply.first)
      ensures ok && old(place).work == WorkClosed ==> place == Stopped && !over && sealed == Some(reply.first)
    {
      hide Bounded, Ordered, Timed, Late, Receipts, Keeps;
      NotOver();
      match reply {
        case NotProduced =>
          Failed();
          ok := false;
        case NotCommitted(first) =>
          Produced(first);
          Failed();
          ok := false;
        case Done(first) =>
          Produced(first);
          Committed();
          ok := true;
      }
      EmptyBatch();
    }

    /**
     * appendJob: a batch that the job does not fit is committed first, and one that the job fills afterwards.
     * The job's votes stop counting as queued when it is in the batch.
     */
    method AppendJob(before: Reply, after: Reply) returns (ok: bool)
      requires Valid() && place == Serving && held.None? && jobs != []
      modifies this`place, this`batch, this`batchVotes, this`answers, this`sealed, this`jobs, this`queuedVotes
      ensures Valid() && sealed == old(sealed) && Keeps(old(answers))
      ensures !ok ==> place == Stopped && !over
      ensures var job := old(jobs)[0];
        var fits := old(batchVotes) + Size(job.entry) <= c.batchSize;
        var gathered := if fits then old(batch) + [job] else [job];
        ok ==>
          && place == Serving && jobs == old(jobs)[1..] && queuedVotes == old(queuedVotes) - Size(job.entry)
          && batchVotes < c.batchSize
          && (!fits && old(batch) != [] ==> before.Done? && Receipts(old(batch), before.first))
          && (if Votes(gathered) < c.batchSize then batch == gathered else batch == [] && after.Done? && Receipts(gathered, after.first))
    {
      hide Ordered, Timed, Late, Fits, Size, Entries;
      SizesOk(0);
      ghost var told := answers;
      ghost var job := jobs[0];
      if batchVotes + Size(jobs[0].entry) > c.batchSize {
        ok := FlushNow(before);
        if !ok {
          return;
        }
      }
      ghost var first := answers;
      TakeJob();
      assert [] + [job] == [job];
      if batchVotes < c.batchSize {
        return true;
      }
      ok := FlushNow(after);
      ReceiptsKept(told, first, old(batch));
    }

    /** Receipts outlast later answers. */
    lemma ReceiptsKept(before: map<nat, Answer>, between: map<nat, Answer>, js: seq<Job>)
      requires Keeps(between) && forall id | id in before :: id in between && between[id] == before[id]
      ensures Keeps(before)
      ensures forall first: nat | (forall i | 0 <= i < |js| :: js[i].id in between && between[js[i].id] == Receipt(first + i)) ::
                Receipts(js, first)
    {
    }

    /** The seal case: what was admitted is committed, then CLOSED. Its gate is closed, so no Submit is half done. */
    method SealNow(replies: nat -> Reply) returns (ok: bool)
      requires Valid() && place == Serving && closing && sealed.None?
      modifies this`place, this`batch, this`batchVotes, this`answers, this`sealed, this`jobs, this`queuedVotes
      ensures Valid() && place == Stopped && !over && (ok <==> sealed.Some?)
      ensures ok ==> jobs == [] && batch == [] && AllReceipts()
    {
      hide Bounded, Ordered, Timed, Late, AllReceipts;
      var n := 0;
      while jobs != []
        invariant Valid() && place == Serving && sealed.None?
        decreases |jobs|
      {
        ok := AppendJob(replies(n), replies(n + 1));
        if !ok {
          return;
        }
        n := n + 2;
      }
      ok := FlushNow(replies(n));
      if !ok {
        return;
      }
      BeginClosed();
      ok := Transact(replies(n + 1));
    }

    /** The channel of QueuePerPartition places has room for what a Submit is about to send. */
    lemma SendHasRoom()
      requires Valid() && held.Some?
      ensures |jobs| < c.queuePerPartition
    {
      JobsWithinVotes(c, hash, p, jobs);
    }

    /** Once the goroutine is over, what has no answer is exactly what was sent too late, at most one job. */
    lemma OverMeans()
      requires Valid() && over
      ensures forall id: nat | id < calls :: id !in answers <==> Strands(clock, id)
      ensures forall id: nat | id < calls :: id in answers || cancelled
      ensures batch == [] && |jobs| <= 1 && (forall id: nat | id < calls :: id !in answers <==> |jobs| == 1 && id == calls - 1)
      ensures queuedVotes == Votes(jobs) + leaked
      ensures sealed.Some? ==> forall id: nat | id < calls :: id in answers && answers[id].Receipt?
    {
    }

    lemma SizesOk(i: nat)
      requires Valid() && i < |jobs|
      ensures 1 <= Size(jobs[i].entry) <= c.batchSize && 1 <= c.batchSize
    {
      FitMeans(c, hash, p, jobs[i].entry);
    }
  }

  /** What became of one transaction: not produced, produced but not known to be committed, or committed. */
  datatype Reply = NotProduced | NotCommitted(first: nat) | Done(first: nat)

  // ----------------------------------------------------------- whole lives

  /** What callers do and which case of the writer's select comes next, in any interleaving. */
  datatype Event =
    | CallSubmit(token: Token, choice: u32, now: int, gone: bool)
    | CallSubmitFrame(inputs: seq<FileCodec.Input>, now: int, gone: bool)
    | CallSend
    | CallSeal
    | CallClose
    | OnJob
    | OnTick
    | OnSeal
    | OnFailed
    | OnReturn

  function EventSize(e: Event): nat {
    match e
    case CallSubmitFrame(inputs, _, _) => |inputs|
    case _ => 1
  }

  function EventTime(e: Event): int {
    match e
    case CallSubmit(_, _, now, _) => now
    case CallSubmitFrame(_, now, _) => now
    case _ => 0
  }

  /** A caller acts: what needs the lock waits while a Submit holds it. */
  method CallArrives(w: Writer, e: Event)
    requires w.Valid()
    modifies w`jobs, w`queuedVotes, w`calls, w`held, w`clock, w`closing, w`cancelled
    ensures w.Valid() && w.c.Valid()
    ensures var free, gate := old(w.held).None?, GateOf(w.View(), w.failed, w.cancelled, w.c, w.queuedVotes, EventSize(e), EventTime(e));
      match e
      case CallSubmit(token, choice, _, gone) =>
        free && Partition(w.c, w.hash, token) == w.p ==>
          (w.held.Some? <==> token != ZERO_TOKEN && w.c.ValidChoice(choice) && !gone && gate == Passed)
      case CallSubmitFrame(inputs, _, gone) =>
        free && inputs != [] && Partition(w.c, w.hash, inputs[0].token) == w.p ==>
          (w.held.Some? <==>
             && |inputs| <= w.c.batchSize && |inputs| <= MAX_FRAME_VOTES && !gone && gate == Passed
             && forall i | 0 <= i < |inputs| ::
                  inputs[i].token != ZERO_TOKEN && w.c.ValidChoice(inputs[i].choice) && Partition(w.c, w.hash, inputs[i].token) == w.p)
      case CallSend => w.held.None? && w.calls == old(w.calls) + if free then 0 else 1
      case CallSeal => free ==> w.closing || w.sealed.Some? || w.failed
      case CallClose => w.cancelled
      case _ => w.calls == old(w.calls) && w.held == old(w.held) && w.closing == old(w.closing) && w.cancelled == old(w.cancelled)
  {
    ValidConfig(w);
    hide Writer.Valid, Partition;
    match e {
      case CallSubmit(token, choice, now, gone) =>
        if w.held.None? && Partition(w.c, w.hash, token) == w.p {
          var v := w.CheckVote(token, choice, now, gone);
        }
      case CallSubmitFrame(inputs, now, gone) =>
        if w.held.None? && (inputs == [] || Partition(w.c, w.hash, inputs[0].token) == w.p) {
          var v := w.CheckFrame(inputs, now, gone);
        }
      case CallSend => if w.held.Some? { w.Send(); }
      case CallSeal => if w.held.None? { w.RequestSeal(); }
      case CallClose => w.Cancel();
      case _ =>
    }
  }

  lemma ValidConfig(w: Writer)
    requires w.Valid()
    ensures w.c.Valid()
  {
  }

  /**
   * The writer goroutine goes on: a case of its select, the end of a failure under the lock, or its return,
   * after a failure or success or because the context is over.
   */
  method WriterGoes(w: Writer, e: Event, replies: nat -> Reply, n: nat)
    requires w.Valid() && (w.place == Serving || w.place == Stopped) && (w.place == Serving ==> w.sealed.None?)
    modifies w
    ensures w.Valid() && (w.place == Serving || w.place == Stopped) && (w.place == Serving ==> w.sealed.None?)
    ensures match e
            case OnJob =>
              old(w.place) == Serving && old(w.held).None? && old(w.jobs) != [] ==> w.place == Stopped || |w.jobs| == |old(w.jobs)| - 1
            case OnTick => old(w.place) == Serving ==> w.batch == []
            case OnSeal => old(w.place) == Serving && old(w.closing) ==> w.place == Stopped
            case OnFailed => old(w.place) == Stopped && old(w.held).None? && old(w.sealed).None? ==> w.failed
            case OnReturn => old(w.failed) || old(w.sealed).Some? || (old(w.cancelled) && old(w.place) == Serving) ==> w.over
            case _ => w.place == old(w.place) && w.jobs == old(w.jobs) && w.batch == old(w.batch)
  {
    hide Writer.Valid;
    match e {
      case OnJob =>
        if w.place == Serving && w.held.None? && w.jobs != [] { var alive := w.AppendJob(replies(n), replies(n + 1)); }
      case OnTick =>
        if w.place == Serving { var alive := w.FlushNow(replies(n)); }
      case OnSeal =>
        if w.place == Serving && w.closing { var sealed := w.SealNow(replies); }
      case OnFailed =>
        if w.place == Stopped && w.held.None? && w.sealed.None? { w.MarkFailed(); }
      case OnReturn =>
        if !w.over && (w.failed || w.sealed.Some? || (w.cancelled && w.place == Serving)) { w.Finish(); }
      case _ =>
    }
  }

  /**
   * The life of a writer, whatever the interleaving: the vote bounds hold throughout, and when its goroutine
   * has returned and no Submit is half done, every admitted job has one answer except one that passed the gate
   * before the context ended and was sent after the goroutine had answered its queue. A sealed writer has
   * given receipts for all jobs, and where an answer is missing the context is over, which its caller sees.
   */
  method Run(c: Config, hash: Hash, p: nat, events: seq<Event>, replies: nat -> Reply) returns (w: Writer)
    requires c.Valid() && p < c.partitions
    ensures w.Valid() && w.over && w.held.None?
    ensures forall id: nat | id < w.calls :: id !in w.answers <==> Strands(w.clock, id)
    ensures forall id: nat | id < w.calls :: id in w.answers || w.cancelled
    ensures |w.jobs| <= 1 && forall id: nat | id < w.calls :: id !in w.answers <==> |w.jobs| == 1 && id == w.calls - 1
    ensures w.sealed.Some? ==> forall id: nat | id < w.calls :: id in w.answers && w.answers[id].Receipt?
  {
    hide Writer.Valid;
    w := new Writer(c, hash, p);
    for i := 0 to |events|
      invariant fresh(w) && w.Valid() && (w.place == Serving || w.place == Stopped) && (w.place == Serving ==> w.sealed.None?)
    {
      CallArrives(w, events[i]);
      WriterGoes(w, events[i], replies, i);
    }
    Settle(w);
    w.OverMeans();
  }

  /** The writer goroutine ends its failure if it is in one, returns at Close at the latest, and a held job is sent. */
  method Settle(w: Writer)
    requires w.Valid() && (w.place == Serving || w.place == Stopped) && (w.place == Serving ==> w.sealed.None?)
    modifies w
    ensures w.Valid() && w.over && w.held.None?
  {
    hide Writer.Valid;
    if !w.over && w.place == Stopped && w.sealed.None? {
      if w.held.Some? {
        w.Send();
      }
      w.MarkFailed();
    }
    if !w.over {
      w.Cancel();
      w.Finish();
    }
    if w.held.Some? {
      w.Send();
    }
  }

  /** A job can be stranded: Submit passes the gate, Close ends the context, run returns, Submit sends. */
  method StrandOne(c: Config, hash: Hash, p: nat, token: Token, choice: u32, now: int) returns (w: Writer)
    requires c.Valid() && token != ZERO_TOKEN && c.ValidChoice(choice) && c.startsAt <= now < c.endsAt && p == Partition(c, hash, token)
    ensures w.Valid() && w.over && w.calls == 1 && 0 !in w.answers && Strands(w.clock, 0) && w.cancelled && w.queuedVotes == 1
  {
    hide Writer.Valid, Partition, Config.ValidChoice;
    w := new Writer(c, hash, p);
    EmptyQueue(w);
    var v := w.CheckVote(token, choice, now, false);
    w.Cancel();
    w.Finish();
    w.Send();
    w.OverMeans();
  }

  lemma EmptyQueue(w: Writer)
    requires w.Valid() && w.View() == Owner(Serving, false, None, [], []) && !w.over
    ensures w.queuedVotes == 0 && 1 <= w.c.queuePerPartition && w.jobs == []
  {
    assert |Entries(w.jobs)| == |w.jobs|;
  }

  // ------------------------------------------------------------- the clock

  /** When each job passed the gate and was sent, when the context ended and when the deferred function ran. */
  datatype Clock = Clock(time: nat, passed: map<nat, nat>, sent: map<nat, nat>, cancelled: nat, drained: nat)
  {
    function Pass(id: nat): Clock {
      this.(passed := passed[id := time], time := time + 1)
    }

    function Send(id: nat): Clock {
      this.(sent := sent[id := time], time := time + 1)
    }

    function Cancel(): Clock {
      this.(cancelled := time, time := time + 1)
    }

    function Drain(): Clock {
      this.(drained := time, time := time + 1)
    }
  }

  /** A job that is held when the deferred function has run passed the gate before the context ended. */
  ghost predicate Times(k: Clock, calls: nat, held: bool, cancelled: bool, over: bool) {
    && (forall id: nat :: id in k.sent <==> id < calls)
    && (forall id: nat :: id in k.passed <==> id < calls || (id == calls && held))
    && (forall id | id in k.sent :: k.sent[id] < k.time) && (forall id | id in k.passed :: k.passed[id] < k.time)
    && (cancelled ==> k.cancelled < k.time && (held ==> k.passed[calls] < k.cancelled))
    && (over ==> k.drained < k.time && (held ==> cancelled && k.cancelled < k.drained))
  }

  /** The schedule that leaves a job without an answer: it was sent last, having passed the gate first. */
  predicate Strands(k: Clock, id: nat) {
    id in k.sent && id in k.passed && k.passed[id] < k.cancelled < k.drained < k.sent[id]
  }

  /** Once the goroutine is over, unanswered is exactly what was sent after that; it passed before the context ended. */
  ghost predicate Lates(k: Clock, calls: nat, cancelled: bool, answers: map<nat, Answer>) {
    forall id: nat | id < calls && id in k.sent :: (id !in answers <==> Strands(k, id)) && (id !in answers ==> cancelled)
  }

  lemma PassTimes(k: Clock, calls: nat, over: bool)
    requires Times(k, calls, false, false, over) && !over
    ensures Times(k.Pass(calls), calls, true, false, over)
  {
  }

  lemma SendTimes(k: Clock, calls: nat, cancelled: bool, over: bool, answers: map<nat, Answer>)
    requires Times(k, calls, true, cancelled, over) && calls !in answers && (over ==> Lates(k, calls, cancelled, answers))
    ensures Times(k.Send(calls), calls + 1, false, cancelled, over)
    ensures over ==> Lates(k.Send(calls), calls + 1, cancelled, answers)
  {
    assert forall id: nat | id < calls :: Strands(k.Send(calls), id) == Strands(k, id);
  }

  lemma CancelTimes(k: Clock, calls: nat, held: bool, over: bool, answers: map<nat, Answer>)
    requires Times(k, calls, held, false, over) && (over ==> Lates(k, calls, false, answers) && !held)
    ensures Times(k.Cancel(), calls, held, true, over)
    ensures over ==> Lates(k.Cancel(), calls, true, answers)
  {
  }

  lemma DrainTimes(k: Clock, calls: nat, held: bool, cancelled: bool, answers: map<nat, Answer>)
    requires Times(k, calls, held, cancelled, false) && Answered(answers, calls) && (held ==> cancelled)
    ensures Times(k.Drain(), calls, held, cancelled, true) && Lates(k.Drain(), calls, cancelled, answers)
  {
  }

  // --------------------------------------------------------------- answers

  /** Exactly the first n jobs have an answer. */
  ghost predicate Answered(answers: map<nat, Answer>, n: int) {
    forall id: nat :: id in answers <==> id < n
  }

  ghost predicate InOrder(jobs: seq<Job>, batch: seq<Job>, calls: nat, answers: map<nat, Answer>) {
    && |batch| + |jobs| <= calls
    && Numbered(batch, calls - |jobs| - |batch|) && Numbered(jobs, calls - |jobs|)
    && Answered(answers, calls - |jobs| - |batch|)
  }

  lemma OrderMore(jobs: seq<Job>, batch: seq<Job>, calls: nat, answers: map<nat, Answer>, job: Job)
    requires InOrder(jobs, batch, calls, answers) && job.id == calls
    ensures InOrder(jobs + [job], batch, calls + 1, answers) && calls !in answers
  {
  }

  lemma OrderMoves(jobs: seq<Job>, batch: seq<Job>, calls: nat, answers: map<nat, Answer>)
    requires InOrder(jobs, batch, calls, answers) && jobs != []
    ensures InOrder(jobs[1..], batch + [jobs[0]], calls, answers)
  {
  }

  /** Jobs numbered from n on were answered, and nothing else changed. */
  ghost predicate Told(before: map<nat, Answer>, after: map<nat, Answer>, js: seq<Job>, first: Option<nat>, n: nat) {
    && Answered(before, n) && Answered(after, n + |js|)
    && (forall id | id in before :: id in after && after[id] == before[id])
    && (forall i | 0 <= i < |js| :: n + i in after && after[n + i] == AnswerOf(first, i))
  }

  lemma NothingTold(answers: map<nat, Answer>, js: seq<Job>, first: Option<nat>, n: nat)
    requires Answered(answers, n)
    ensures Told(answers, answers, js[..0], first, n)
  {
  }

  lemma ToldMore(before: map<nat, Answer>, after: map<nat, Answer>, js: seq<Job>, first: Option<nat>, n: nat, i: nat)
    requires i < |js| && Numbered(js, n) && Told(before, after, js[..i], first, n)
    ensures Told(before, after[js[i].id := AnswerOf(first, i)], js[..i + 1], first, n)
  {
  }

  lemma ToldOrdered(jobs: seq<Job>, batch: seq<Job>, calls: nat, before: map<nat, Answer>, after: map<nat, Answer>, first: Option<nat>)
    requires InOrder(jobs, batch, calls, before) && Told(before, after, batch, first, calls - |jobs| - |batch|)
    ensures InOrder(jobs, [], calls, after)
  {
  }

  lemma ToldAllJobs(jobs: seq<Job>, calls: nat, before: map<nat, Answer>, after: map<nat, Answer>)
    requires InOrder(jobs, [], calls, before) && Told(before, after, jobs, None, calls - |jobs|)
    ensures InOrder([], [], calls, after) && Answered(after, calls)
  {
  }

  lemma ToldEach(before: map<nat, Answer>, after: map<nat, Answer>, js: seq<Job>, first: Option<nat>, n: nat)
    requires Told(before, after, js, first, n) && Numbered(js, n)
    ensures forall i | 0 <= i < |js| :: js[i].id in after && after[js[i].id] == AnswerOf(first, i)
  {
  }

  ghost predicate Extends(before: map<nat, Answer>, after: map<nat, Answer>) {
    forall id | id in before :: id in after && after[id] == before[id]
  }

  lemma ToldKeeps(before: map<nat, Answer>, after: map<nat, Answer>, js: seq<Job>, first: Option<nat>, n: nat)
    requires Told(before, after, js, first, n)
    ensures Extends(before, after)
  {
  }

  lemma ToldReceipts(before: map<nat, Answer>, after: map<nat, Answer>, js: seq<Job>, first: nat, n: nat)
    requires Told(before, after, js, Some(first), n) && forall id: nat | id in before :: before[id].Receipt?
    ensures forall id: nat | id in after :: after[id].Receipt?
  {
    forall id: nat | id in after ensures after[id].Receipt? {
      if id !in before {
        var i := id - n;
        assert n + i in after && after[n + i] == AnswerOf(Some(first), i);
      }
    }
  }

  /** What the i-th of some jobs is told. */
  function AnswerOf(first: Option<nat>, i: nat): Answer {
    match first
    case None => Unknown
    case Some(offset) => Receipt(offset + i)
  }

  lemma FitMeans(c: Config, hash: Hash, p: nat, e: Entry)
    requires c.Valid() && Fits(c, hash, p, e)
    ensures Admissible(c, hash, p, e) && 1 <= Size(e) <= c.batchSize
  {
  }

  /** Every job has a vote at least. */
  lemma {:induction false} JobsWithinVotes(c: Config, hash: Hash, p: nat, jobs: seq<Job>)
    requires c.Valid() && AllFit(c, hash, p, jobs)
    ensures |jobs| <= Votes(jobs)
    decreases |jobs|
  {
    hide Fits;
    if jobs != [] {
      assert Fits(c, hash, p, jobs[0].entry);
      JobsWithinVotes(c, hash, p, jobs[1..]);
      FitMeans(c, hash, p, jobs[0].entry);
    }
  }

  /**
   * What each answer of the gate says: Closed exactly of a writer that is closing or sealed, or of a call that would
   * pass earlier but reads an instant past the window; Unsure exactly of a failed or cancelled one that is not; Busy
   * exactly of an open, live one without room for the votes; NotOpen exactly of a call that would pass later but
   * reads an instant before the window; and Passed exactly in the remaining case.
   */
  lemma GateIsExact(w: Owner, failed: bool, cancelled: bool, c: Config, queuedVotes: nat, size: nat, now: int)
    ensures var v := GateOf(w, failed, cancelled, c, queuedVotes, size, now);
      var open, live := !w.closing && w.sealed.None?, !failed && !cancelled;
      var room := queuedVotes + size <= c.queuePerPartition;
      && v != Invalid
      && (v == Verdict.Closed <==> !open || (live && room && c.startsAt <= now && c.endsAt <= now))
      && (v == Unsure <==> open && !live)
      && (v == Busy <==> open && live && !room)
      && (v == NotOpen <==> open && live && room && now < c.startsAt)
      && (v == Passed <==> open && live && room && c.startsAt <= now < c.endsAt)
  {
  }

  /** A stamped frame of valid inputs for this partition is admissible. */
  lemma StampedFits(c: Config, hash: Hash, p: nat, inputs: seq<FileCodec.Input>, now: i64)
    requires c.Valid() && 1 <= |inputs| <= MAX_FRAME_VOTES && |inputs| <= c.batchSize && c.startsAt <= now < c.endsAt
    requires forall i | 0 <= i < |inputs| ::
               inputs[i].token != ZERO_TOKEN && c.ValidChoice(inputs[i].choice) && Partition(c, hash, inputs[i].token) == p
    ensures Fits(c, hash, p, Many(FileCodec.Stamp(inputs, now))) && Size(Many(FileCodec.Stamp(inputs, now))) == |inputs|
  {
    hide Partition, Config.ValidChoice;
  }
}
