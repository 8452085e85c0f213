/**
 * The store itself (internal/filelog/store.go): its fields and the locals of its writer goroutine, updated
 * in place. Each method is one critical section or one writer action, and is proved to be the step of
 * FileProtocol that it implements; the protocol's theorems are about every interleaving of these.
 */
module FileStore {
  import opened Bytes
  import opened Wrappers
  import opened FileCodec
  import opened FileBuffers
  import opened FileScan
  import opened FileProtocol

  class Store {
    const c: Config
    const crc: Checksum

    var admissionClosed: bool
    var queueClosed: bool
    var sealRequested: bool
    var poisoned: bool
    var manifest: Option<nat>
    var queuedVotes: int
    var queue: seq<Job>

    var place: Place
    var batch: seq<Job>
    var votes: nat
    var sequence: nat
    var timerArmed: bool

    var file: seq<u8>
    var synced: nat
    var answers: map<nat, Answer>
    var calls: nat

    ghost var returned: map<nat, Answer>
    ghost var admitted: seq<Job>
    ghost var tried: nat
    ghost var durable: nat
    ghost var closing: bool

    ghost function Flags(): Gate
      reads this`admissionClosed, this`queueClosed, this`sealRequested, this`poisoned
    {
      Gate(admissionClosed, queueClosed, sealRequested, poisoned)
    }

    ghost function Locals(): Writer
      reads this`place, this`batch, this`votes, this`sequence, this`timerArmed
    {
      Writer(place, batch, votes, sequence, timerArmed)
    }

    ghost function Storage(): Disk
      reads this`file, this`synced, this`tried, this`durable, this`closing
    {
      Disk(file, synced, tried, durable, closing)
    }

    ghost function View(): State
      reads this
    {
      State(Flags(), manifest, queuedVotes, queue, Locals(), Storage(), answers, returned, admitted)
    }

    ghost predicate Valid()
      reads this`calls, this`admitted
    {
      c.Valid() && calls == |admitted|
    }

    constructor (c: Config, crc: Checksum)
      requires c.Valid()
      ensures Valid() && View() == Initial(c, crc) && this.c == c && this.crc == crc
    {
      this.c, this.crc := c, crc;
      admissionClosed, queueClosed, sealRequested, poisoned := false, false, false, false;
      manifest, queuedVotes, queue := None, 0, [];
      place, batch, votes, sequence, timerArmed := Select, [], 0, 0, false;
      var header := MakeFileHeader(crc, c);
      file, synced := header[..], FILE_HEADER_BYTES;
      answers, calls := map[], 0;
      returned, admitted, tried, durable, closing := map[], [], 0, 0, false;
    }

    method StopQueueLocked()
      modifies this`admissionClosed, this`queueClosed
      ensures admissionClosed && queueClosed
    {
      admissionClosed := true;
      if !queueClosed {
        queueClosed := true;
      }
    }

    method InputsInvalid(inputs: seq<Input>) returns (bad: bool)
      ensures bad <==> |inputs| == 0 || |inputs| > MAX_FRAME_VOTES || |inputs| > c.batchSize
                       || exists v | v in inputs :: !ValidInput(c, v)
    {
      if |inputs| == 0 || |inputs| > MAX_FRAME_VOTES || |inputs| > c.batchSize {
        return true;
      }
      for i := 0 to |inputs|
        invariant forall k | 0 <= k < i :: ValidInput(c, inputs[k])
      {
        if !ValidInput(c, inputs[i]) {
          assert inputs[i] in inputs;
          return true;
        }
      }
      return false;
    }

    /**
     * SubmitFrame up to enqueuing; `observed` and `admission` are its two readings of the clock, `gone` and
     * `cancelled` those of its context.
     */
    method SubmitFrame(inputs: seq<Input>, gone: bool, observed: int, admission: int, cancelled: bool) returns (outcome: SubmitOutcome)
      requires Valid()
      modifies this`admissionClosed, this`queuedVotes, this`queue, this`admitted, this`calls
      ensures Valid()
      ensures outcome == SubmitOutcomeOf(c, old(View()), inputs, gone, observed, admission, cancelled)
      ensures View() == SubmitStep(c, old(View()), inputs, gone, observed, admission, cancelled)
    {
      hide Locals, Storage;
      var bad := InputsInvalid(inputs);
      if bad {
        return Invalid;
      }
      hide ValidInput;
      if gone {
        return Cancelled;
      }
      if poisoned {
        return Poisoned;
      }
      if admissionClosed {
        return Closed;
      }
      if observed >= c.endsAt {
        admissionClosed := true;
        return Closed;
      }
      if observed < c.startsAt {
        return NotOpen;
      }
      if queuedVotes + |inputs| > c.queuePerPartition {
        return Busy;
      }
      if admission < c.startsAt {
        return NotOpen;
      }
      if admission >= c.endsAt {
        admissionClosed := true;
        return Closed;
      }
      if cancelled {
        return Cancelled;
      }
      outcome := Admitted(calls);
      Enqueue(Job(calls, inputs, admission));
    }

    /** The send to the queue, with its votes charged. */
    method Enqueue(j: Job)
      requires Valid() && j.id == calls
      modifies this`queuedVotes, this`queue, this`admitted, this`calls
      ensures Valid() && queuedVotes == old(queuedVotes) + |j.inputs|
      ensures queue == old(queue) + [j] && admitted == old(admitted) + [j]
    {
      queuedVotes := queuedVotes + |j.inputs|;
      queue := queue + [j];
      admitted := admitted + [j];
      calls := calls + 1;
    }

    /** The select at the end of SubmitFrame: the answer, or the context's end. */
    method Await(id: nat, cancelled: bool) returns (a: Answer)
      requires Valid() && id < calls && id !in returned
      requires cancelled || id in answers
      modifies this`returned
      ensures Valid()
      ensures View() == Apply(c, crc, old(View()), if cancelled then Abandon(id) else Take(id))
      ensures id in returned && a == returned[id]
    {
      hide Flags, Locals, Storage;
      a := if cancelled then Unknown else answers[id];
      returned := returned[id := a];
    }

    /** Seal's second critical section, reached only after the clock showed the deadline. */
    method RequestSeal(ghost now: int)
      requires Valid() && now >= c.endsAt
      modifies this`sealRequested, this`admissionClosed, this`queueClosed
      ensures Valid()
      ensures View() == if old(queueClosed) then old(View()) else Apply(c, crc, old(View()), FileProtocol.RequestSeal(now))
    {
      hide Locals, Storage;
      if !queueClosed {
        sealRequested := true;
        StopQueueLocked();
      }
    }

    method RequestClose()
      requires Valid()
      modifies this`admissionClosed, this`queueClosed
      ensures Valid() && View() == Apply(c, crc, old(View()), FileProtocol.RequestClose)
    {
      hide Locals, Storage;
      StopQueueLocked();
    }

    /** Encodes each job's entries, as SubmitFrame does, and finishes its frame at its sequence number. */
    method BuildGroup(jobs: seq<Job>, first: u64) returns (data: seq<u8>)
      requires first + |jobs| <= MAX_INT64
      ensures data == EncodeFrames(crc, FramesOf(jobs), first)
    {
      hide VoteFrameBytes, FrameBytes, Payload, Stamp;
      data := [];
      ghost var fs := FramesOf(jobs);
      assert fs[..0] == [];
      for i := 0 to |jobs|
        invariant data == EncodeFrames(crc, fs[..i], first)
      {
        var bytes := BuildFrame(jobs[i], first + i);
        data := data + bytes;
        assert fs[..i + 1] == fs[..i] + [fs[i]];
        EncodeAppend(crc, fs[..i], [fs[i]], first);
        assert EncodeFrames(crc, [fs[i]], first + i) == VoteFrameBytes(crc, first + i, fs[i]) + [];
      }
      assert fs[..|jobs|] == fs;
    }

    method BuildFrame(j: Job, n: u64) returns (bytes: seq<u8>)
      ensures bytes == VoteFrameBytes(crc, n, Stamp(j.inputs, j.admitted))
    {
      var b := EncodeInputs(j.inputs, j.admitted);
      assert b[FRAME_HEADER_BYTES..] == Payload(Stamp(j.inputs, j.admitted));
      assert b[24..32] == Zeros(8);
      FinishFrame(crc, b, n, KIND_VOTES, |j.inputs|);
      bytes := b[..];
    }

    method StartFlush(after: After)
      requires Valid()
      modifies this`place, this`timerArmed, this`tried
      ensures Valid() && View() == FileProtocol.StartFlush(crc, old(View()), after)
    {
      hide EncodeFrames, FramesOf, Flags;
      if |batch| == 0 {
        place := Resume(after);
        return;
      }
      timerArmed := false;
      if |batch| > MAX_INT64 - sequence {
        place := Failing(after);
        return;
      }
      var data := BuildGroup(batch, sequence);
      tried := sequence + |batch|;
      place := Writing(data, after);
    }

    method Dequeue()
      requires Valid() && place == Select && queue != []
      modifies this`queue, this`place, this`timerArmed, this`tried
      ensures Valid() && View() == DequeueStep(c, crc, old(View()))
    {
      hide FlushWriter, Flags;
      var j := queue[0];
      queue := queue[1..];
      if votes + |j.inputs| > c.batchSize {
        // the dequeued job stays charged to the queue while the previous batch syncs
        StartFlush(ToAbsorb(j));
      } else {
        place := Absorbing(j);
      }
    }

    method Release()
      requires Valid() && place.Absorbing?
      modifies this`queuedVotes, this`batch, this`votes, this`place, this`timerArmed
      ensures Valid() && View() == AbsorbMiddle(c, old(View()))
    {
      hide Flags, Storage, AbsorbWriter;
      var j := place.job;
      queuedVotes := queuedVotes - |j.inputs|;
      Append(j);
    }

    /** The job joins the batch; the first one starts the linger timer. */
    method Append(j: Job)
      modifies this`batch, this`votes, this`place, this`timerArmed
      ensures Locals() == AbsorbWriter(c, old(Locals()), j)
    {
      batch := batch + [j];
      votes := votes + |j.inputs|;
      place := Select;
      if votes == |j.inputs| && c.linger > 0 {
        timerArmed := true;
      }
    }

    method Absorb()
      requires Valid() && place.Absorbing?
      modifies this`queuedVotes, this`batch, this`votes, this`place, this`timerArmed, this`tried
      ensures Valid() && View() == AbsorbStep(c, crc, old(View()))
    {
      hide FileProtocol.StartFlush, AbsorbMiddle;
      Release();
      assert View().writer.votes == votes;
      if votes >= c.batchSize || c.linger == 0 {
        StartFlush(ToSelect);
      }
    }

    /** One call of the write hook, which took n bytes and returned an error or not. */
    method WriteOnce(n: nat, ok: bool)
      requires Valid() && place.Writing? && n <= |place.rest|
      modifies this`file, this`place
      ensures Valid() && View() == WriteStep(old(View()), n, ok) && WritesTo(old(View()), View())
      ensures file == old(file) + old(place.rest)[..n]
      ensures place == if !ok || n == 0 then Failing(old(place.after))
                       else if n == |old(place.rest)| then Syncing(old(place.after))
                       else Writing(old(place.rest)[n..], old(place.after))
    {
      hide Flags;
      var rest, after := place.rest[n..], place.after;
      file := file + place.rest[..n];
      if !ok || n == 0 {
        place := Failing(after);
      } else if |rest| == 0 {
        place := Syncing(after);
      } else {
        place := Writing(rest, after);
      }
    }

    /**
     * writeAll: one protocol step for each call of the hook, until everything is appended, or an error
     * leaves a cut.
     */
    method WriteAll() returns (ghost run: seq<State>)
      requires Valid() && place.Writing? && place.rest != []
      modifies this`file, this`place
      ensures Valid() && (place == Syncing(old(place.after)) || place == Failing(old(place.after)))
      ensures IsWriteRun(run) && run[0] == old(View()) && run[|run| - 1] == View()
      ensures old(file) <= file <= old(file) + old(place.rest)
      ensures place.Syncing? ==> file == old(file) + old(place.rest)
    {
      hide WriteStep, WritesTo;
      run := [View()];
      while place.Writing?
        invariant Valid()
        invariant IsWriteRun(run) && run[0] == old(View()) && run[|run| - 1] == View()
        invariant old(file) <= file
        invariant match place
                  case Writing(rest, after) => rest != [] && after == old(place.after) && file + rest == old(file) + old(place.rest)
                  case Syncing(after) => after == old(place.after) && file == old(file) + old(place.rest)
                  case Failing(after) => after == old(place.after) && file <= old(file) + old(place.rest)
                  case _ => false
        decreases place.Writing?, if place.Writing? then |place.rest| else 0
      {
        var n: nat, ok: bool := *, *;
        if n > |place.rest| {
          n, ok := 0, false; // a count outside the buffer is answered as a short write
        }
        ghost var before, rest := file, place.rest;
        WriteOnce(n, ok);
        assert before + rest[..n] + rest[n..] == before + rest;
        run := run + [View()];
      }
    }

    method Sync(ok: bool)
      requires Valid() && place.Syncing?
      modifies this`synced, this`place, this`durable
      ensures Valid() && View() == SyncStep(old(View()), ok)
    {
      hide Flags;
      if !ok {
        place := Failing(place.after);
        return;
      }
      synced, durable := |file|, tried;
      place := if place.after == ToPublish then Publishing else Answering(0, true, place.after);
    }

    /** fail: only the first error is kept, and the queue is stopped in any case. */
    method Poison()
      modifies this`poisoned, this`admissionClosed, this`queueClosed
      ensures Flags() == StopQueue(old(Flags())).(poisoned := true)
    {
      if !poisoned {
        poisoned := true;
      }
      StopQueueLocked();
    }

    method Fail()
      requires Valid() && place.Failing?
      modifies this`poisoned, this`admissionClosed, this`queueClosed, this`place
      ensures Valid() && View() == FailStep(old(View()))
    {
      hide Storage, Flags;
      Poison();
      place := if place.after == ToPublish then ClosingFile else Answering(0, false, place.after);
    }

    method AnswerNext()
      requires Valid() && place.Answering? && place.next < |batch|
      modifies this`answers, this`place
      ensures Valid() && View() == AnswerStep(old(View()))
    {
      hide Flags, Storage;
      var j := batch[place.next];
      if place.ok {
        answers := answers[j.id := Confirmed(Receipt(sequence + place.next, |j.inputs|, j.admitted))];
      } else {
        answers := answers[j.id := Unknown];
      }
      place := Answering(place.next + 1, place.ok, place.after);
    }

    method EndFlush()
      requires Valid() && place.Answering? && place.next >= |batch|
      modifies this`sequence, this`batch, this`votes, this`place
      ensures Valid() && View() == EndFlushStep(old(View()))
    {
      hide Flags, Storage;
      if place.ok {
        sequence := sequence + |batch|;
      }
      batch, votes := [], 0;
      place := if place.ok then Resume(place.after) else GiveUp(place.after);
    }

    method DrainNext()
      requires Valid() && place.Draining?
      modifies this`queuedVotes, this`queue, this`answers, this`place
      ensures Valid() && View() == DrainStep(old(View()))
    {
      hide Flags, Storage;
      if place.pending.Some? {
        var j := place.pending.value;
        queuedVotes := queuedVotes - |j.inputs|;
        answers := answers[j.id := Unknown];
        place := Draining(None);
      } else if |queue| != 0 {
        var j := queue[0];
        queue := queue[1..];
        queuedVotes := queuedVotes - |j.inputs|;
        answers := answers[j.id := Unknown];
      } else {
        place := ClosingFile;
      }
    }

    /** The CLOSED frame: a header alone. */
    method BuildClosed(n: u64) returns (data: seq<u8>)
      ensures data == ClosedFrameBytes(crc, n)
    {
      var b := new u8[FRAME_HEADER_BYTES](_ => 0);
      assert b[FRAME_HEADER_BYTES..] == [] && b[24..32] == Zeros(8);
      FinishFrame(crc, b, n, KIND_CLOSED, 0);
      data := b[..];
    }

    method CheckSeal()
      requires Valid() && place == Finishing && sequence <= MAX_INT64
      modifies this`closing, this`place
      ensures Valid() && View() == CheckSealStep(crc, old(View()))
    {
      hide ClosedFrameBytes;
      if sealRequested {
        var data := BuildClosed(sequence);
        closing := true;
        place := Writing(data, ToPublish);
      } else {
        place := ClosingFile;
      }
    }

    method Publish()
      requires Valid() && place == Publishing
      modifies this`manifest, this`place
      ensures Valid() && View() == PublishStep(old(View()))
    {
      hide Flags, Storage;
      manifest := Some(sequence);
      place := ClosingFile;
    }

    method CloseFile(ok: bool)
      requires Valid() && place == ClosingFile
      modifies this`poisoned, this`admissionClosed, this`queueClosed, this`place
      ensures Valid() && View() == CloseFileStep(old(View()), ok)
    {
      hide Storage, Flags;
      if !ok {
        Poison();
      }
      place := Done;
    }

    /** What Seal returns when the writer is done: the manifest's offset, or an error. */
    method SealOutcome() returns (end: Option<nat>)
      requires Valid() && place == Done
      ensures end == if View().gate.poisoned then None else View().manifest
    {
      if poisoned {
        return None;
      }
      return manifest;
    }
  }
}
