/**
 * What a call does when nobody interferes (internal/votecore/engine.go): Submit answers as one first-choice map
 * would, Lookup tells what that map holds, Seal returns its totals once the deadline has passed.
 */
module EngineAlone {
  import opened Bits
  import opened Bytes
  import opened Wrappers
  import opened EngineTable
  import opened EngineProtocol

  /** The state after up to n actions of one call, with the clock at `now` throughout. */
  function Alone(c: Config, hash: Hash, s: State, id: nat, now: int, n: nat): State
    requires c.shards >= 1
    decreases n
  {
    if n == 0 || !Enabled(c, hash, s, id) then s else Alone(c, hash, Apply(c, hash, s, id, now), id, now, n - 1)
  }

  /** What the call has made of the state: its own place, the shards, the flag and the lock of shard i. */
  ghost predicate Became(s: State, t: State, id: nat, call: Call, shards: seq<Shard>, sealed: bool, i: nat, lock: Option<nat>)
    requires id < |s.calls| && i < |s.locks|
  {
    && t.calls == s.calls[id := call] && t.shards == shards && t.sealed == sealed && t.locks == s.locks[i := lock]
  }

  /** One action of the call, as far as it concerns others. */
  lemma OneAction(c: Config, hash: Hash, s: State, id: nat, now: int)
    requires c.shards >= 1 && Enabled(c, hash, s, id)
    ensures var t, call, i := Apply(c, hash, s, id, now), s.calls[id], ShardOf(c, hash, s.calls[id]);
      var after := Act(c, call, s.shards[i], s.sealed, |s.shards|, now);
      && i < |s.shards| == |s.locks|
      && t.calls == s.calls[id := after]
      && t.shards == (if call.InWindow? then s.shards[i := StoreNext(s.shards[i], call.input)] else s.shards)
      && t.sealed == (s.sealed || call.Late? || call.Closing?)
      && t.locks == (if Wants(c, hash, call).Some? then s.locks[i := Some(id)]
                     else if Holds(c, hash, call).Some? && Holds(c, hash, after).None? then s.locks[i := None] else s.locks)
  {
    hide Partition, StoreNext, AddShard, Act;
    if Wants(c, hash, s.calls[id]).None? && Holds(c, hash, s.calls[id]).Some? {
      assert ShardOf(c, hash, s.calls[id]) == Holds(c, hash, s.calls[id]).value;
    }
  }

  /** A finished call stays where it is. */
  lemma Rests(c: Config, hash: Hash, s: State, id: nat, now: int, n: nat)
    requires c.shards >= 1 && id < |s.calls| && Finished(s.calls[id])
    ensures Alone(c, hash, s, id, now, n) == s
  {
  }

  // ---------------------------------------------------------------- Submit

  /** A submission that holds the lock of its shard. */
  ghost predicate Inside(c: Config, hash: Hash, s: State, id: nat, input: Input) {
    && c.shards >= 1 && id < |s.calls| && |s.locks| == |s.shards| && Partition(c, hash, input.token) < |s.shards|
  }

  lemma BecameFrom(s: State, t: State, u: State, id: nat, call: Call, shards: seq<Shard>, sealed: bool, i: nat, lock: Option<nat>)
    requires id < |s.calls| && i < |s.locks| && |t.calls| == |s.calls| && t.calls == s.calls[id := t.calls[id]] && t.locks == s.locks
    requires Became(t, u, id, call, shards, sealed, i, lock)
    ensures Became(s, u, id, call, shards, sealed, i, lock)
  {
  }

  lemma AloneStep(c: Config, hash: Hash, s: State, id: nat, now: int, n: nat, input: Input)
    requires Inside(c, hash, s, id, input) && n >= 1
    requires s.calls[id] in {Locked(input), Open(input), Late(input), InWindow(input)}
    ensures Enabled(c, hash, s, id) && Alone(c, hash, s, id, now, n) == Alone(c, hash, Apply(c, hash, s, id, now), id, now, n - 1)
  {
    hide Partition, Apply;
  }

  lemma FromLeaving(c: Config, hash: Hash, s: State, id: nat, now: int, n: nat, input: Input, r: Result)
    requires Inside(c, hash, s, id, input) && s.calls[id] == Leaving(input, r) && n >= 1
    ensures var i := Partition(c, hash, input.token);
      Became(s, Alone(c, hash, s, id, now, n), id, Returned(input, r), s.shards, s.sealed, i, None)
  {
    OneAction(c, hash, s, id, now);
    hide Partition, Apply;
    Rests(c, hash, Apply(c, hash, s, id, now), id, now, n - 1);
  }

  lemma FromLate(c: Config, hash: Hash, s: State, id: nat, now: int, n: nat, input: Input)
    requires Inside(c, hash, s, id, input) && s.calls[id] == Late(input) && n >= 2
    ensures var i := Partition(c, hash, input.token);
      Became(s, Alone(c, hash, s, id, now, n), id, Returned(input, Result(Closed, 0)), s.shards, true, i, None)
  {
    OneAction(c, hash, s, id, now);
    hide Partition, Apply;
    FromLeaving(c, hash, Apply(c, hash, s, id, now), id, now, n - 1, input, Result(Closed, 0));
  }

  lemma FromInWindow(c: Config, hash: Hash, s: State, id: nat, now: int, n: nat, input: Input)
    requires Inside(c, hash, s, id, input) && s.calls[id] == InWindow(input) && n >= 2
    ensures var i := Partition(c, hash, input.token);
      Became(s, Alone(c, hash, s, id, now, n), id, Returned(input, StoreResult(s.shards[i], input)),
             s.shards[i := StoreNext(s.shards[i], input)], s.sealed, i, None)
  {
    OneAction(c, hash, s, id, now);
    hide Partition, Apply, StoreNext, StoreResult;
    FromLeaving(c, hash, Apply(c, hash, s, id, now), id, now, n - 1, input,
                StoreResult(s.shards[Partition(c, hash, input.token)], input));
  }

  /** From reading the clock on, with the flag read as not set. */
  lemma FromOpen(c: Config, hash: Hash, s: State, id: nat, now: int, n: nat, input: Input)
    requires Inside(c, hash, s, id, input) && s.calls[id] == Open(input) && n >= 3 && c.startNS < c.endNS
    ensures var i := Partition(c, hash, input.token);
      Became(s, Alone(c, hash, s, id, now, n), id,
             Returned(input, if now < c.startNS then Result(NotOpen, 0) else if now >= c.endNS then Result(Closed, 0)
                             else StoreResult(s.shards[i], input)),
             if c.startNS <= now < c.endNS then s.shards[i := StoreNext(s.shards[i], input)] else s.shards,
             s.sealed || now >= c.endNS, i, None)
  {
    OneAction(c, hash, s, id, now);
    AloneStep(c, hash, s, id, now, n, input);
    hide Partition, Apply, StoreNext, StoreResult, Alone, Enabled, Became;
    var t, u, i := Apply(c, hash, s, id, now), Alone(c, hash, s, id, now, n), Partition(c, hash, input.token);
    if now < c.startNS {
      FromLeaving(c, hash, t, id, now, n - 1, input, Result(NotOpen, 0));
      BecameFrom(s, t, u, id, Returned(input, Result(NotOpen, 0)), s.shards, s.sealed, i, None);
    } else if now >= c.endNS {
      FromLate(c, hash, t, id, now, n - 1, input);
      BecameFrom(s, t, u, id, Returned(input, Result(Closed, 0)), s.shards, true, i, None);
    } else {
      FromInWindow(c, hash, t, id, now, n - 1, input);
      BecameFrom(s, t, u, id, Returned(input, StoreResult(s.shards[i], input)), s.shards[i := StoreNext(s.shards[i], input)], s.sealed, i, None);
    }
  }

  lemma FromLocked(c: Config, hash: Hash, s: State, id: nat, now: int, n: nat, input: Input)
    requires Inside(c, hash, s, id, input) && s.calls[id] == Locked(input) && n >= 4 && c.startNS < c.endNS && ValidInput(c, input)
    ensures var i := Partition(c, hash, input.token);
      Became(s, Alone(c, hash, s, id, now, n), id,
             Returned(input, SubmitResult(c, s.shards[i], s.sealed, input, now)),
             s.shards[i := SubmitNext(c, s.shards[i], s.sealed, input, now).0],
             SubmitNext(c, s.shards[i], s.sealed, input, now).1, i, None)
  {
    OneAction(c, hash, s, id, now);
    AloneStep(c, hash, s, id, now, n, input);
    hide Partition, Apply, StoreNext, StoreResult, ValidInput, Alone, Enabled, Became;
    var t, u, i := Apply(c, hash, s, id, now), Alone(c, hash, s, id, now, n), Partition(c, hash, input.token);
    assert s.shards[i := s.shards[i]] == s.shards;
    if s.sealed {
      FromLeaving(c, hash, t, id, now, n - 1, input, Result(Closed, 0));
      BecameFrom(s, t, u, id, Returned(input, Result(Closed, 0)), s.shards, true, i, None);
    } else {
      FromOpen(c, hash, t, id, now, n - 1, input);
      BecameFrom(s, t, u, id, Returned(input, SubmitResult(c, s.shards[i], s.sealed, input, now)),
                 s.shards[i := SubmitNext(c, s.shards[i], s.sealed, input, now).0],
                 SubmitNext(c, s.shards[i], s.sealed, input, now).1, i, None);
    }
  }

  lemma FromWaiting(c: Config, hash: Hash, s: State, id: nat, now: int, input: Input)
    requires Inside(c, hash, s, id, input) && s.calls[id] == Waiting(input) && c.startNS < c.endNS && ValidInput(c, input)
    requires s.locks[Partition(c, hash, input.token)] == None
    ensures var i := Partition(c, hash, input.token);
      Became(s, Alone(c, hash, s, id, now, 5), id,
             Returned(input, SubmitResult(c, s.shards[i], s.sealed, input, now)),
             s.shards[i := SubmitNext(c, s.shards[i], s.sealed, input, now).0],
             SubmitNext(c, s.shards[i], s.sealed, input, now).1, i, None)
  {
    OneAction(c, hash, s, id, now);
    AloneNext(c, hash, s, id, now, 5);
    hide Partition, Apply, Alone, Enabled, SubmitResult, SubmitNext, ValidInput;
    FromLocked(c, hash, Apply(c, hash, s, id, now), id, now, 4, input);
    var i := Partition(c, hash, input.token);
    assert s.locks[i := Some(id)][i := None] == s.locks[i := None];
  }

  /**
   * A submission that finds its shard's lock free and is not interfered with takes at most five actions and gives
   * the answer of one first-choice map, or CapacityExceeded for a new token of a full shard; the table and the
   * flag then are as that map's, and the lock is free again.
   */
  lemma SubmitAlone(c: Config, hash: Hash, s: State, id: nat, now: int, input: Input)
    requires Inv(c, hash, s) && id < |s.calls| && s.calls[id] == Waiting(input)
    requires forall lock | lock in s.locks :: lock == None
    ensures var t, i := Alone(c, hash, s, id, now, 5), Partition(c, hash, input.token);
      var plain := FirstChoice(c, Table(s.shards), s.sealed, input, now);
      && t.locks == s.locks && |t.calls| == |s.calls| && (forall u: nat | u < |s.calls| && u != id :: t.calls[u] == s.calls[u])
      && i < |s.shards|
      && if plain.status == Accepted && |s.shards[i].votes| >= s.shards[i].capacity
         then t.calls[id] == Returned(input, Result(CapacityExceeded, 0)) && t.shards == s.shards && !t.sealed
         else t.calls[id] == Returned(input, plain) && (Table(t.shards), t.sealed) == FirstChoiceNext(c, Table(s.shards), s.sealed, input, now)
  {
    assert ResultOk(c, hash, s, id);
    assert c.Valid() && ValidInput(c, input) && ShardsOk(c, hash, s.shards) && |s.locks| == |s.shards|;
    SubmitRefinesFirstChoice(c, hash, s.shards, s.sealed, input, now);
    var i := Partition(c, hash, input.token);
    assert s.locks[i] in s.locks;
    hide Inv, ShardsOk, Partition, Alone, Enabled, SubmitResult, SubmitNext, ValidInput, FirstChoice, FirstChoiceNext, Table, ResultOk;
    FromWaiting(c, hash, s, id, now, input);
    assert s.locks[i := None] == s.locks;
    assert s.shards[i := s.shards[i]] == s.shards;
  }

  // ---------------------------------------------------------------- Lookup

  lemma AloneNext(c: Config, hash: Hash, s: State, id: nat, now: int, n: nat)
    requires c.shards >= 1 && Enabled(c, hash, s, id) && n >= 1
    ensures Alone(c, hash, s, id, now, n) == Alone(c, hash, Apply(c, hash, s, id, now), id, now, n - 1)
  {
  }

  /** An action that stores nothing: the call moves on, and the lock of its shard is taken, kept or given back. */
  ghost predicate Moves(c: Config, hash: Hash, s: State, t: State, id: nat, now: int, call: Call, i: nat, lock: Option<nat>)
    requires c.shards >= 1
  {
    && Enabled(c, hash, s, id) && i < |s.locks| && t == Apply(c, hash, s, id, now)
    && t.shards == s.shards && t.calls == s.calls[id := call] && t.locks == s.locks[i := lock]
    && t.sealed == (s.sealed || call.Summing? || call.Sealed?)
  }

  lemma Finds(c: Config, hash: Hash, s: State, id: nat, now: int, token: Token)
    requires c.shards >= 1 && id < |s.calls| && |s.locks| == |s.shards| && s.calls[id] == Finding(token)
    requires Partition(c, hash, token) < |s.locks| && s.locks[Partition(c, hash, token)] == None
    ensures var i := Partition(c, hash, token);
      var votes := s.shards[i].votes;
      Moves(c, hash, s, Apply(c, hash, s, id, now), id, now, Found(token, if token in votes then Some(votes[token]) else None), i, Some(id))
  {
    hide Partition;
  }

  lemma Tells(c: Config, hash: Hash, s: State, id: nat, now: int, token: Token, choice: Option<u32>)
    requires c.shards >= 1 && id < |s.calls| && |s.locks| == |s.shards| && s.calls[id] == Found(token, choice)
    requires Partition(c, hash, token) < |s.locks|
    ensures Moves(c, hash, s, Apply(c, hash, s, id, now), id, now, Answered(token, choice), Partition(c, hash, token), None)
  {
    hide Partition;
  }

  lemma FindsThenTells(c: Config, hash: Hash, s: State, id: nat, now: int, token: Token)
    requires c.shards >= 1 && id < |s.calls| && |s.locks| == |s.shards| && s.calls[id] == Finding(token)
    requires Partition(c, hash, token) < |s.locks| && s.locks[Partition(c, hash, token)] == None
    ensures var t, votes := Alone(c, hash, s, id, now, 2), s.shards[Partition(c, hash, token)].votes;
      && t.calls == s.calls[id := Answered(token, if token in votes then Some(votes[token]) else None)]
      && t.shards == s.shards && t.sealed == s.sealed && t.locks == s.locks
  {
    hide Partition, Apply, Alone, Enabled;
    Finds(c, hash, s, id, now, token);
    var t, i := Apply(c, hash, s, id, now), Partition(c, hash, token);
    var votes := s.shards[i].votes;
    Tells(c, hash, t, id, now, token, if token in votes then Some(votes[token]) else None);
    AloneNext(c, hash, s, id, now, 2);
    AloneNext(c, hash, t, id, now, 1);
    NoMore(c, hash, Apply(c, hash, t, id, now), id, now);
    assert s.locks[i := Some(id)][i := None] == s.locks;
  }

  /** Lookup that finds the lock free tells what the table holds. */
  lemma LookupAlone(c: Config, hash: Hash, s: State, id: nat, now: int, token: Token)
    requires Inv(c, hash, s) && id < |s.calls| && s.calls[id] == Finding(token)
    requires forall lock | lock in s.locks :: lock == None
    ensures var t := Alone(c, hash, s, id, now, 2);
      && t.calls == s.calls[id := Answered(token, if token in Table(s.shards) then Some(Table(s.shards)[token]) else None)]
      && t.shards == s.shards && t.sealed == s.sealed && t.locks == s.locks
  {
    assert c.Valid() && ShardsOk(c, hash, s.shards) && |s.locks| == |s.shards| == c.shards;
    hide Inv, Partition, Table, Alone, Enabled, Config.Valid, ShardOk, Moves;
    PartitionIsRemainder(c, hash, token);
    TableLookup(c, hash, s.shards, token);
    assert s.locks[Partition(c, hash, token)] in s.locks;
    FindsThenTells(c, hash, s, id, now, token);
  }

  lemma NoMore(c: Config, hash: Hash, s: State, id: nat, now: int)
    requires c.shards >= 1
    ensures Alone(c, hash, s, id, now, 0) == s
  {
  }

  // ------------------------------------------------------------------ Seal

  ghost predicate Free(s: State) {
    |s.locks| == |s.shards| && forall i | 0 <= i < |s.locks| :: s.locks[i] == None
  }

  lemma Locks(c: Config, hash: Hash, s: State, id: nat, now: int, k: nat, sum: Snapshot)
    requires c.shards >= 1 && id < |s.calls| && Free(s) && k < |s.shards| && s.calls[id] == Summing(k, sum)
    ensures Moves(c, hash, s, Apply(c, hash, s, id, now), id, now, Holding(k, sum), k, Some(id))
  {
    hide Partition, AddShard;
  }

  lemma Counts(c: Config, hash: Hash, s: State, id: nat, now: int, k: nat, sum: Snapshot)
    requires c.shards >= 1 && id < |s.calls| && |s.locks| == |s.shards| && k < |s.shards| && s.locks[k] == Some(id) && s.calls[id] == Holding(k, sum)
    ensures Moves(c, hash, s, Apply(c, hash, s, id, now), id, now, Releasing(k, AddShard(sum, s.shards[k])), k, Some(id))
  {
    hide Partition, AddShard;
  }

  lemma Unlocks(c: Config, hash: Hash, s: State, id: nat, now: int, k: nat, sum: Snapshot)
    requires c.shards >= 1 && id < |s.calls| && |s.locks| == |s.shards| && k < |s.shards| && s.sealed && s.calls[id] == Releasing(k, sum)
    ensures Moves(c, hash, s, Apply(c, hash, s, id, now), id, now,
                  if k + 1 < |s.shards| then Summing(k + 1, sum) else Sealed(sum), k, None)
  {
    hide Partition, AddShard;
  }

  /** Adding one shard takes three actions. */
  lemma FromSumming(c: Config, hash: Hash, s: State, id: nat, now: int, k: nat, sum: Snapshot, n: nat) returns (t: State)
    requires c.shards >= 1 && id < |s.calls| && Free(s) && k < |s.shards| && s.sealed && s.calls[id] == Summing(k, sum) && n >= 3
    ensures Alone(c, hash, s, id, now, n) == Alone(c, hash, t, id, now, n - 3)
    ensures t.shards == s.shards && t.sealed && t.locks == s.locks
    ensures t.calls == s.calls[id := if k + 1 < |s.shards| then Summing(k + 1, AddShard(sum, s.shards[k])) else Sealed(AddShard(sum, s.shards[k]))]
  {
    hide AddShard, Partition, Apply, Alone, Enabled;
    Locks(c, hash, s, id, now, k, sum);
    AloneNext(c, hash, s, id, now, n);
    var u := Apply(c, hash, s, id, now);
    Counts(c, hash, u, id, now, k, sum);
    AloneNext(c, hash, u, id, now, n - 1);
    var v := Apply(c, hash, u, id, now);
    Unlocks(c, hash, v, id, now, k, AddShard(sum, s.shards[k]));
    AloneNext(c, hash, v, id, now, n - 2);
    t := Apply(c, hash, v, id, now);
    assert s.locks[k := Some(id)][k := Some(id)][k := None] == s.locks;
  }

  /** The call is at the end with this snapshot's totals; nothing else has changed but the flag. */
  ghost predicate HasSealed(s: State, t: State, id: nat) {
    && t.shards == s.shards && t.sealed && t.locks == s.locks && id < |s.calls| == |t.calls|
    && t.calls[id].Sealed? && Adds(t.calls[id].snapshot, s.shards)
    && (forall u: nat | u < |s.calls| && u != id :: t.calls[u] == s.calls[u])
  }

  lemma {:induction false} SumsAlone(c: Config, hash: Hash, s: State, id: nat, now: int, k: nat, sum: Snapshot, n: nat)
    requires c.shards >= 1 && id < |s.calls| && Free(s) && k < |s.shards| && s.sealed && s.calls[id] == Summing(k, sum)
    requires Adds(sum, s.shards[..k]) && n >= 3 * (|s.shards| - k)
    ensures HasSealed(s, Alone(c, hash, s, id, now, n), id)
    decreases |s.shards| - k
  {
    hide AddShard, Partition, Adds, Alone;
    var t := FromSumming(c, hash, s, id, now, k, sum, n);
    AddsNext(sum, s.shards, k);
    if k + 1 < |s.shards| {
      SumsAlone(c, hash, t, id, now, k + 1, AddShard(sum, s.shards[k]), n - 3);
    } else {
      assert s.shards[..k + 1] == s.shards;
      Rests(c, hash, t, id, now, n - 3);
    }
  }

  lemma FromClosing(c: Config, hash: Hash, s: State, id: nat, now: int, n: nat)
    requires c.shards >= 1 && id < |s.calls| && s.calls[id] == Closing && Free(s) && |s.shards| >= 1 && n >= 1 + 3 * |s.shards|
    ensures HasSealed(s, Alone(c, hash, s, id, now, n), id)
  {
    hide Partition, NoVotes, Alone, Adds;
    SetsFlag(c, hash, s, id, now);
    AloneNext(c, hash, s, id, now, n);
    var t := Apply(c, hash, s, id, now);
    hide Apply;
    NothingAdded(s.shards);
    SumsAlone(c, hash, t, id, now, 0, NoVotes(), n - 1);
  }

  lemma SetsFlag(c: Config, hash: Hash, s: State, id: nat, now: int)
    requires c.shards >= 1 && id < |s.calls| && s.calls[id] == Closing && Free(s) && |s.shards| >= 1
    ensures Enabled(c, hash, s, id)
    ensures var t := Apply(c, hash, s, id, now);
      t.shards == s.shards && t.sealed && t.locks == s.locks && t.calls == s.calls[id := Summing(0, NoVotes())]
  {
    hide NoVotes;
  }

  /** Seal's two readings: of the flag, and, if that is not set, of the clock. */
  lemma LooksFirst(c: Config, hash: Hash, s: State, id: nat, now: int)
    requires c.shards >= 1 && id < |s.calls| && s.calls[id] in {Looking, Clocking} && Free(s) && |s.shards| >= 1
    ensures Enabled(c, hash, s, id)
    ensures var t := Apply(c, hash, s, id, now);
      && t.shards == s.shards && t.sealed == s.sealed && t.locks == s.locks
      && t.calls == s.calls[id := if s.calls[id] == Looking then (if s.sealed then Closing else Clocking)
                                  else if now < c.endNS then StillOpen else Closing]
  {
  }

  /** Seal that finds all locks free is refused before the deadline, unless the flag is set, and else returns the totals. */
  lemma SealAlone(c: Config, hash: Hash, s: State, id: nat, now: int)
    requires Inv(c, hash, s) && id < |s.calls| && s.calls[id] == Looking
    requires forall i | 0 <= i < |s.locks| :: s.locks[i] == None
    ensures var t := Alone(c, hash, s, id, now, 3 + 3 * |s.shards|);
      && t.shards == s.shards && t.locks == s.locks && |t.calls| == |s.calls|
      && (forall u: nat | u < |s.calls| && u != id :: t.calls[u] == s.calls[u])
      && if !s.sealed && now < c.endNS then t.calls[id] == StillOpen && !t.sealed
         else t.calls[id].Sealed? && t.sealed && SnapshotOf(t.calls[id].snapshot, Table(s.shards))
  {
    assert c.Valid() && ShardsOk(c, hash, s.shards) && Free(s) && |s.shards| == c.shards >= 1;
    hide Inv, ShardsOk, Table, Config.Valid, Alone, SnapshotOf, Adds;
    FromLooking(c, hash, s, id, now);
    var t := Alone(c, hash, s, id, now, 3 + 3 * |s.shards|);
    if s.sealed || now >= c.endNS { SealedTotals(c, hash, s, t, id); }
  }

  lemma FromLooking(c: Config, hash: Hash, s: State, id: nat, now: int)
    requires c.shards >= 1 && id < |s.calls| && s.calls[id] == Looking && Free(s) && |s.shards| >= 1
    ensures var t := Alone(c, hash, s, id, now, 3 + 3 * |s.shards|);
      if s.sealed || now >= c.endNS then HasSealed(s, t, id)
      else t.calls == s.calls[id := StillOpen] && t.shards == s.shards && t.locks == s.locks && !t.sealed
  {
    hide Alone, Enabled, Apply, HasSealed, Free;
    var n := 3 + 3 * |s.shards|;
    LooksFirst(c, hash, s, id, now);
    AloneNext(c, hash, s, id, now, n);
    var t := Apply(c, hash, s, id, now);
    SameFree(s, t);
    if s.sealed {
      FromClosing(c, hash, t, id, now, n - 1);
      SealedFrom(s, t, Alone(c, hash, s, id, now, n), id);
    } else {
      LooksFirst(c, hash, t, id, now);
      AloneNext(c, hash, t, id, now, n - 1);
      var u := Apply(c, hash, t, id, now);
      SameFree(t, u);
      if now < c.endNS {
        Rests(c, hash, u, id, now, n - 2);
      } else {
        FromClosing(c, hash, u, id, now, n - 2);
        SealedFrom(s, u, Alone(c, hash, s, id, now, n), id);
      }
    }
  }

  lemma SameFree(s: State, t: State)
    requires Free(s) && t.locks == s.locks && t.shards == s.shards
    ensures Free(t)
  {
  }

  lemma SealedFrom(s: State, t: State, u: State, id: nat)
    requires id < |s.calls| && |t.calls| == |s.calls| && t.calls == s.calls[id := t.calls[id]]
    requires t.shards == s.shards && t.locks == s.locks && HasSealed(t, u, id)
    ensures HasSealed(s, u, id)
  {
    hide Adds;
  }

  lemma SealedTotals(c: Config, hash: Hash, s: State, t: State, id: nat)
    requires ShardsOk(c, hash, s.shards) && id < |t.calls| && t.calls[id].Sealed? && Adds(t.calls[id].snapshot, s.shards)
    ensures SnapshotOf(t.calls[id].snapshot, Table(s.shards))
  {
    hide ShardsOk, Table, SumVotes, SumCounts, SnapshotOf;
    SumsAreSnapshot(c, hash, s.shards, t.calls[id].snapshot.total, t.calls[id].snapshot.counts);
  }
}
