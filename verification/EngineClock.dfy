/**
 * What the engine's answers say about the clock and the seal: which call is accepted, refused as early or late,
 * or finds its shard full, in every interleaving (internal/votecore/engine.go).
 */
module EngineClock {
  import opened EngineTable
  import opened EngineProtocol

  predicate ReadOpen(s: State, id: nat) {
    id in s.flags && !s.flags[id]
  }

  predicate ReadSealed(s: State, id: nat) {
    id in s.flags && s.flags[id]
  }

  /** The call read the flag as not set, and then an instant in the poll's window. */
  predicate ReadInside(c: Config, s: State, id: nat) {
    ReadOpen(s, id) && id in s.readings && c.startNS <= s.readings[id] < c.endNS
  }

  predicate ReadEarly(c: Config, s: State, id: nat) {
    ReadOpen(s, id) && id in s.readings && s.readings[id] < c.startNS
  }

  predicate ReadLate(c: Config, s: State, id: nat) {
    ReadOpen(s, id) && id in s.readings && c.endNS <= s.readings[id]
  }

  /** What a call in this place has read. */
  ghost predicate ReadsFit(c: Config, s: State, id: nat)
    requires id < |s.calls|
  {
    var call := s.calls[id];
    && (call.Waiting? || call.Locked? || call.Looking? ==> id !in s.flags && id !in s.readings)
    && (call.Open? || call.Clocking? ==> ReadOpen(s, id) && id !in s.readings)
    && (call.InWindow? ==> ReadInside(c, s, id))
    && (call.Late? ==> ReadLate(c, s, id))
    && (call.StillOpen? ==> ReadOpen(s, id) && id in s.readings && s.readings[id] < c.endNS)
    && (call.Closing? ==> ReadSealed(s, id) || ReadLate(c, s, id))
    && (Passed(call, |s.shards|).Some? ==> s.sealed && (ReadSealed(s, id) || ReadLate(c, s, id)))
    && (ReadSealed(s, id) ==> s.sealed && id !in s.readings)
  }

  /** What the answer to a submission says about it. */
  ghost predicate AnswerFits(c: Config, s: State, id: nat)
    requires id < |s.calls|
  {
    var call := s.calls[id];
    && (Submits(call) ==> ValidInput(c, call.input))
    && (HasResult(call) ==>
          && (call.result.status == Invalid <==> !ValidInput(c, call.input))
          && (call.result.status in {Accepted, Duplicate, CapacityExceeded} ==> ReadInside(c, s, id))
          && (call.result.status == NotOpen ==> ReadEarly(c, s, id))
          && (call.result.status == Closed ==> s.sealed && (ReadSealed(s, id) || ReadLate(c, s, id))))
  }

  /** The flag is set only after some call has read an instant at or past the deadline. */
  ghost predicate FlagFits(c: Config, s: State) {
    s.sealed ==> exists id: nat :: id < |s.calls| && ReadLate(c, s, id)
  }

  ghost predicate Clocked(c: Config, s: State) {
    && c.Valid()
    && (forall id: nat | id < |s.calls| :: ReadsFit(c, s, id) && AnswerFits(c, s, id))
    && (forall id: nat | id in s.flags || id in s.readings :: id < |s.calls|)
    && FlagFits(c, s)
  }

  lemma OwnReads(c: Config, hash: Hash, s: State, id: nat, now: int)
    requires Clocked(c, s) && Enabled(c, hash, s, id)
    ensures var t := Apply(c, hash, s, id, now); id < |t.calls| && ReadsFit(c, t, id)
  {
    assert ReadsFit(c, s, id);
    hide Partition, StoreNext, StoreResult, ValidInput, AddShard, Clocked, Config.Valid, AnswerFits;
  }

  lemma OwnAnswer(c: Config, hash: Hash, s: State, id: nat, now: int)
    requires Clocked(c, s) && Enabled(c, hash, s, id)
    ensures var t := Apply(c, hash, s, id, now); id < |t.calls| && AnswerFits(c, t, id)
  {
    assert ReadsFit(c, s, id) && AnswerFits(c, s, id);
    StoreStatus(s.shards[ShardOf(c, hash, s.calls[id])], s.calls[id]);
    hide Partition, StoreNext, StoreResult, ValidInput, AddShard, Clocked, Config.Valid;
  }

  lemma StoreStatus(s: Shard, call: Call)
    ensures call.InWindow? ==> StoreResult(s, call.input).status in {Accepted, Duplicate, CapacityExceeded}
  {
  }

  lemma OtherReads(c: Config, hash: Hash, s: State, id: nat, now: int, u: nat)
    requires Clocked(c, s) && Enabled(c, hash, s, id) && u < |s.calls| && u != id
    ensures var t := Apply(c, hash, s, id, now); u < |t.calls| && ReadsFit(c, t, u) && AnswerFits(c, t, u)
  {
    assert ReadsFit(c, s, u) && AnswerFits(c, s, u);
    hide Partition, StoreNext, StoreResult, ValidInput, AddShard, Clocked, Act, Config.Valid;
  }

  lemma FlagKeeps(c: Config, hash: Hash, s: State, id: nat, now: int)
    requires Clocked(c, s) && Enabled(c, hash, s, id)
    ensures FlagFits(c, Apply(c, hash, s, id, now))
  {
    var t := Apply(c, hash, s, id, now);
    assert ReadsFit(c, s, id);
    if s.sealed {
      var u: nat :| u < |s.calls| && ReadLate(c, s, u);
      if u == id { OwnKeepsLate(c, hash, s, id, now); }
      hide Partition, StoreNext, StoreResult, ValidInput, AddShard, Clocked, Act, Config.Valid, ReadsFit;
      assert ReadLate(c, t, u);
    } else if t.sealed {
      hide Partition, StoreNext, StoreResult, ValidInput, AddShard, Act, Config.Valid;
      assert ReadLate(c, t, id);
    }
  }

  /** A call reads the flag and the clock once. */
  lemma OwnKeepsLate(c: Config, hash: Hash, s: State, id: nat, now: int)
    requires Clocked(c, s) && Enabled(c, hash, s, id) && ReadLate(c, s, id)
    ensures ReadLate(c, Apply(c, hash, s, id, now), id)
  {
    assert ReadsFit(c, s, id);
    hide Partition, StoreNext, StoreResult, ValidInput, AddShard, Clocked, Act, Config.Valid;
  }

  lemma StepClocked(c: Config, hash: Hash, s: State, id: nat, now: int)
    requires Clocked(c, s) && Enabled(c, hash, s, id)
    ensures Clocked(c, Apply(c, hash, s, id, now))
  {
    var t := Apply(c, hash, s, id, now);
    FlagKeeps(c, hash, s, id, now);
    forall u: nat | u < |t.calls| ensures ReadsFit(c, t, u) && AnswerFits(c, t, u) {
      if u == id { OwnReads(c, hash, s, id, now); OwnAnswer(c, hash, s, id, now); } else { OtherReads(c, hash, s, id, now, u); }
    }
    hide ReadsFit, AnswerFits, FlagFits, Partition, StoreNext, StoreResult, AddShard, Act;
  }

  lemma BeginClocked(c: Config, s: State, call: Call)
    requires Clocked(c, s) && Fresh(call) && (call.Waiting? ==> ValidInput(c, call.input))
    requires call.Returned? ==> !ValidInput(c, call.input)
    ensures Clocked(c, s.(calls := s.calls + [call]))
  {
    var t := s.(calls := s.calls + [call]);
    hide ValidInput, Config.Valid;
    forall u: nat | u < |t.calls| ensures ReadsFit(c, t, u) && AnswerFits(c, t, u) {
      if u < |s.calls| { assert ReadsFit(c, s, u) && AnswerFits(c, s, u) && t.calls[u] == s.calls[u]; }
    }
    hide ReadsFit, AnswerFits;
    if t.sealed {
      var u: nat :| u < |s.calls| && ReadLate(c, s, u);
      assert ReadLate(c, t, u);
    }
  }

  lemma BeginIsRight(c: Config, call: Call)
    requires call == Looking || call.Finding? || exists input :: call == Begin(c, input)
    ensures Fresh(call) && (call.Waiting? ==> ValidInput(c, call.input)) && (call.Returned? ==> !ValidInput(c, call.input))
  {
  }

  lemma {:induction false} RunClocked(c: Config, hash: Hash, run: seq<State>, i: nat)
    requires IsRun(c, hash, run) && i < |run|
    ensures Clocked(c, run[i])
    decreases i
  {
    hide Clocked, Initial, Apply, Enabled, Begin;
    if i == 0 {
      NothingRead(c);
    } else {
      RunClocked(c, hash, run, i - 1);
      var s, t := run[i - 1], run[i];
      assert Step(c, hash, s, run[i - 1 + 1]);
      if id: nat, now :| Enabled(c, hash, s, id) && t == Apply(c, hash, s, id, now) {
        StepClocked(c, hash, s, id, now);
      } else {
        var call :| t == s.(calls := s.calls + [call]) && (call == Looking || call.Finding? || exists input :: call == Begin(c, input));
        BeginIsRight(c, call);
        BeginClocked(c, s, call);
      }
    }
  }

  lemma NothingRead(c: Config)
    requires c.Valid()
    ensures Clocked(c, Initial(c))
  {
  }

  /**
   * Every answer in every run says exactly what its call read under the lock: Invalid exactly for an invalid
   * input; else Closed exactly if it read the flag as set or an instant at or past the deadline, NotOpen exactly
   * if it read one before the start, and one of the others exactly if it read one inside the window.
   */
  lemma AnswersFollowClock(c: Config, hash: Hash, run: seq<State>, i: nat, id: nat)
    requires IsRun(c, hash, run) && i < |run| && id < |run[i].calls| && HasResult(run[i].calls[id])
    ensures var s, call := run[i], run[i].calls[id];
      && (call.result.status == Invalid <==> !ValidInput(c, call.input))
      && (ValidInput(c, call.input) ==>
            && (call.result.status == Closed <==> ReadSealed(s, id) || ReadLate(c, s, id))
            && (call.result.status == NotOpen <==> ReadEarly(c, s, id))
            && (call.result.status in {Accepted, Duplicate, CapacityExceeded} <==> ReadInside(c, s, id)))
      && (call.result.status == Closed ==> s.sealed)
  {
    RunClocked(c, hash, run, i);
    assert ReadsFit(c, run[i], id) && AnswerFits(c, run[i], id);
    hide IsRun, Clocked, ValidInput;
  }

  /**
   * Seal is refused exactly if it read the flag as not set and an instant before the deadline; and nobody sets the
   * flag before some call has read an instant at or past it.
   */
  lemma SealsFollowClock(c: Config, hash: Hash, run: seq<State>, i: nat, id: nat)
    requires IsRun(c, hash, run) && i < |run| && id < |run[i].calls|
    ensures var s, call := run[i], run[i].calls[id];
      && (call.StillOpen? ==> ReadOpen(s, id) && id in s.readings && s.readings[id] < c.endNS)
      && (call.Sealed? ==> ReadSealed(s, id) || ReadLate(c, s, id))
      && (s.sealed ==> exists u: nat :: u < |s.calls| && ReadLate(c, s, u))
  {
    RunClocked(c, hash, run, i);
    assert ReadsFit(c, run[i], id);
    hide IsRun;
  }
}
