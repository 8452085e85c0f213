/**
 * Concurrent Submit, Seal and Lookup calls on the engine, interleaved at every lock operation, atomic
 * flag access and clock reading (internal/votecore/engine.go).
 */
module EngineProtocol {
  import opened Bits
  import opened Bytes
  import opened Wrappers
  import opened EngineTable

  /** Where one call stands between two atomic actions. */
  datatype Call =
    | Waiting(input: Input)               // a valid submission before its shard's lock
    | Locked(input: Input)
    | Open(input: Input)                  // the seal was read as not set
    | InWindow(input: Input)              // the clock was read inside the window
    | Late(input: Input)                  // the clock was read at or past the deadline
    | Leaving(input: Input, result: Result)
    | Returned(input: Input, result: Result)
    | Looking                             // Seal before reading the flag
    | Clocking                            // Seal before reading the clock
    | Closing                             // Seal before setting the flag
    | Summing(next: nat, sum: Snapshot)   // Seal before the lock of shard `next`
    | Holding(next: nat, sum: Snapshot)
    | Releasing(next: nat, sum: Snapshot) // shard `next` is added, its lock still held
    | Sealed(snapshot: Snapshot)
    | StillOpen
    | Finding(token: Token)
    | Found(token: Token, choice: Option<u32>)     // Lookup has read and still holds the lock
    | Answered(token: Token, choice: Option<u32>)

  /**
   * History: which call put each token in the table, and what each call read, when it did, as the seal's flag and
   * as the time.
   */
  datatype State = State(
    shards: seq<Shard>, sealed: bool, locks: seq<Option<nat>>, calls: seq<Call>,
    winners: map<Token, nat>, flags: map<nat, bool>, readings: map<nat, int>)

  function Initial(c: Config): State
    requires c.shards >= 1
  {
    State(EmptyShards(c), false, seq(c.shards, _ => None), [], map[], map[], map[])
  }

  // ---------------------------------------------------------------- steps

  function Begin(c: Config, input: Input): Call {
    if ValidInput(c, input) then Waiting(input) else Returned(input, Result(Invalid, 0))
  }

  /** The lock a call waits for in its current place. */
  function Wants(c: Config, hash: Hash, call: Call): Option<nat>
    requires c.shards >= 1
  {
    match call
    case Waiting(input) => Some(Partition(c, hash, input.token))
    case Summing(next, _) => Some(next)
    case Finding(token) => Some(Partition(c, hash, token))
    case _ => None
  }

  /** The lock a call holds in its current place. */
  function Holds(c: Config, hash: Hash, call: Call): Option<nat>
    requires c.shards >= 1
  {
    match call
    case Locked(input) => Some(Partition(c, hash, input.token))
    case Open(input) => Some(Partition(c, hash, input.token))
    case InWindow(input) => Some(Partition(c, hash, input.token))
    case Late(input) => Some(Partition(c, hash, input.token))
    case Leaving(input, _) => Some(Partition(c, hash, input.token))
    case Holding(next, _) => Some(next)
    case Releasing(next, _) => Some(next)
    case Found(token, _) => Some(Partition(c, hash, token))
    case _ => None
  }

  function AddShard(sum: Snapshot, s: Shard): Snapshot {
    Snapshot(sum.total + |s.votes|,
             seq(32, b requires 0 <= b < 32 =>
               (if b < |sum.counts| then sum.counts[b] else 0) + (if b < |s.counts| then s.counts[b] else 0)))
  }

  function NoVotes(): Snapshot {
    Snapshot(0, seq(32, _ => 0))
  }

  /** How a call's own place changes when it acts on shard s with the clock at `now`. */
  function Act(c: Config, call: Call, s: Shard, sealed: bool, shards: nat, now: int): Call {
    match call
    case Waiting(input) => Locked(input)
    case Locked(input) => if sealed then Leaving(input, Result(Closed, 0)) else Open(input)
    case Open(input) =>
      if now < c.startNS then Leaving(input, Result(NotOpen, 0))
      else if now >= c.endNS then Late(input) else InWindow(input)
    case InWindow(input) => Leaving(input, StoreResult(s, input))
    case Late(input) => Leaving(input, Result(Closed, 0))
    case Leaving(input, result) => Returned(input, result)
    case Looking => if sealed then Closing else Clocking
    case Clocking => if now < c.endNS then StillOpen else Closing
    case Closing => if shards == 0 then Sealed(NoVotes()) else Summing(0, NoVotes())
    case Summing(next, sum) => Holding(next, sum)
    case Holding(next, sum) => Releasing(next, AddShard(sum, s))
    case Releasing(next, sum) => if next + 1 < shards then Summing(next + 1, sum) else Sealed(sum)
    case Finding(token) => Found(token, if token in s.votes then Some(s.votes[token]) else None)
    case Found(token, choice) => Answered(token, choice)
    case _ => call
  }

  predicate Finished(call: Call) {
    call.Returned? || call.Sealed? || call.StillOpen? || call.Answered?
  }

  /** The shard a call acts on: the one whose lock it wants or holds. */
  function ShardOf(c: Config, hash: Hash, call: Call): nat
    requires c.shards >= 1
  {
    match Wants(c, hash, call)
    case Some(i) => i
    case None => match Holds(c, hash, call)
      case Some(i) => i
      case None => 0
  }

  predicate Enabled(c: Config, hash: Hash, s: State, id: nat)
    requires c.shards >= 1
  {
    && id < |s.calls| && !Finished(s.calls[id])
    && |s.locks| == |s.shards| && ShardOf(c, hash, s.calls[id]) < |s.shards|
    && match Wants(c, hash, s.calls[id])
       case Some(i) => s.locks[i] == None
       case None => true
  }

  function Apply(c: Config, hash: Hash, s: State, id: nat, now: int): State
    requires c.shards >= 1 && Enabled(c, hash, s, id)
  {
    var call, i := s.calls[id], ShardOf(c, hash, s.calls[id]);
    var after := Act(c, call, s.shards[i], s.sealed, |s.shards|, now);
    State(
      if call.InWindow? then s.shards[i := StoreNext(s.shards[i], call.input)] else s.shards,
      s.sealed || call.Late? || call.Closing?,
      if Wants(c, hash, call).Some? then s.locks[i := Some(id)]
      else if Holds(c, hash, call).Some? && Holds(c, hash, after).None? then s.locks[i := None]
      else s.locks,
      s.calls[id := after],
      if call.InWindow? && after.result.status == Accepted then s.winners[call.input.token := id] else s.winners,
      if call.Locked? || call.Looking? then s.flags[id := s.sealed] else s.flags,
      if call.Open? || call.Clocking? then s.readings[id := now] else s.readings)
  }

  ghost predicate Step(c: Config, hash: Hash, s: State, t: State)
    requires c.shards >= 1
  {
    || (exists id, now :: Enabled(c, hash, s, id) && t == Apply(c, hash, s, id, now))
    || (exists input :: t == s.(calls := s.calls + [Begin(c, input)]))
    || t == s.(calls := s.calls + [Looking])
    || (exists token :: t == s.(calls := s.calls + [Finding(token)]))
  }

  ghost predicate IsRun(c: Config, hash: Hash, run: seq<State>) {
    && c.Valid()
    && run != []
    && run[0] == Initial(c)
    && forall i | 0 <= i < |run| - 1 :: Step(c, hash, run[i], run[i + 1])
  }

  // ------------------------------------------------------------ invariant

  ghost predicate LocksOk(c: Config, hash: Hash, s: State)
    requires c.shards >= 1
  {
    && |s.locks| == |s.shards|
    && (forall i | 0 <= i < |s.locks| && s.locks[i].Some? ::
          s.locks[i].value < |s.calls| && Holds(c, hash, s.calls[s.locks[i].value]) == Some(i))
    && (forall id | 0 <= id < |s.calls| && Holds(c, hash, s.calls[id]).Some? ::
          var i := Holds(c, hash, s.calls[id]).value; i < |s.locks| && s.locks[i] == Some(id))
  }

  predicate Submits(call: Call) {
    call.Waiting? || call.Locked? || call.Open? || call.InWindow? || call.Late?
  }

  /** A submission that read the flag as not set and may still store. */
  predicate MayStore(call: Call) {
    call.Open? || call.InWindow?
  }

  predicate HasResult(call: Call) {
    call.Leaving? || call.Returned?
  }

  predicate WasAccepted(call: Call) {
    HasResult(call) && call.result.status == Accepted
  }

  /** How many shards a Seal call has added, None before it set the flag. */
  function Passed(call: Call, shards: nat): Option<nat> {
    match call
    case Summing(next, _) => Some(next)
    case Holding(next, _) => Some(next)
    case Releasing(next, _) => Some(next + 1)
    case Sealed(_) => Some(shards)
    case _ => None
  }

  function SumOf(call: Call): Snapshot {
    match call
    case Summing(_, sum) => sum
    case Holding(_, sum) => sum
    case Releasing(_, sum) => sum
    case Sealed(sum) => sum
    case _ => NoVotes()
  }

  ghost predicate Adds(sum: Snapshot, shards: seq<Shard>) {
    && sum.total == SumVotes(shards)
    && |sum.counts| == 32
    && forall b | 0 <= b < 32 :: sum.counts[b] == SumCounts(shards, b)
  }

  /** A seal's sum is that of the shards it passed, and no call may still store in one of those. */
  ghost predicate SealOk(c: Config, hash: Hash, s: State, u: nat)
    requires c.shards >= 1 && u < |s.calls|
  {
    var p := Passed(s.calls[u], |s.shards|);
    p.Some? ==>
      && s.sealed && p.value <= |s.shards|
      && (s.calls[u].Summing? ==> p.value < |s.shards|)
      && Adds(SumOf(s.calls[u]), s.shards[..p.value])
      && forall t | 0 <= t < |s.calls| && MayStore(s.calls[t]) :: p.value <= Partition(c, hash, s.calls[t].input.token)
  }

  ghost predicate ResultOk(c: Config, hash: Hash, s: State, t: nat)
    requires c.shards >= 1 && t < |s.calls|
  {
    var call := s.calls[t];
    && (Submits(call) ==> ValidInput(c, call.input))
    && (WasAccepted(call) ==>
          && call.input.token in s.winners && s.winners[call.input.token] == t
          && call.result.choice == call.input.choice)
    && (HasResult(call) && call.result.status == Duplicate ==>
          Stored(c, hash, s.shards, call.input.token, call.result.choice))
    && (call.Found? && call.choice.Some? ==> Stored(c, hash, s.shards, call.token, call.choice.value))
    && (call.Answered? && call.choice.Some? ==> Stored(c, hash, s.shards, call.token, call.choice.value))
  }

  ghost predicate Stored(c: Config, hash: Hash, shards: seq<Shard>, token: Token, choice: u32)
    requires c.shards >= 1
  {
    var i := Partition(c, hash, token);
    i < |shards| && token in shards[i].votes && shards[i].votes[token] == choice
  }

  /** Every stored token has its one accepted call, with its choice; nothing else is stored. */
  ghost predicate WinnersOk(c: Config, hash: Hash, s: State)
    requires c.shards >= 1
  {
    && (forall token | token in s.winners ::
          && s.winners[token] < |s.calls| && WasAccepted(s.calls[s.winners[token]])
          && s.calls[s.winners[token]].input.token == token
          && Stored(c, hash, s.shards, token, s.calls[s.winners[token]].result.choice))
    && (forall i, token | 0 <= i < |s.shards| && token in s.shards[i].votes :: token in s.winners)
  }

  ghost predicate Inv(c: Config, hash: Hash, s: State) {
    && ShardsOk(c, hash, s.shards)
    && LocksOk(c, hash, s)
    && (forall u | 0 <= u < |s.calls| :: SealOk(c, hash, s, u))
    && (forall t | 0 <= t < |s.calls| :: ResultOk(c, hash, s, t))
    && WinnersOk(c, hash, s)
  }

  lemma InitialInv(c: Config, hash: Hash)
    requires c.Valid()
    ensures Inv(c, hash, Initial(c))
  {
    EmptyShardsOk(c, hash);
    hide ShardsOk, Partition;
  }

  // ---------------------------------------------------- a new call begins

  /** The places a call can begin at. */
  predicate Fresh(call: Call) {
    call == Looking || call.Finding? || call.Waiting? || (call.Returned? && call.result.status == Invalid)
  }

  lemma BeginKeepsLocks(c: Config, hash: Hash, s: State, call: Call)
    requires c.shards >= 1 && LocksOk(c, hash, s) && Fresh(call)
    ensures LocksOk(c, hash, s.(calls := s.calls + [call]))
  {
    assert Holds(c, hash, call).None?;
    hide Partition, Holds;
  }

  lemma BeginKeepsWinners(c: Config, hash: Hash, s: State, call: Call)
    requires c.shards >= 1 && WinnersOk(c, hash, s)
    ensures WinnersOk(c, hash, s.(calls := s.calls + [call]))
  {
    hide Stored;
  }

  lemma BeginKeepsCall(c: Config, hash: Hash, s: State, call: Call, u: nat)
    requires c.shards >= 1 && u <= |s.calls| && Fresh(call) && (call.Waiting? ==> ValidInput(c, call.input))
    requires u < |s.calls| ==> SealOk(c, hash, s, u) && ResultOk(c, hash, s, u)
    ensures var t := s.(calls := s.calls + [call]); SealOk(c, hash, t, u) && ResultOk(c, hash, t, u)
  {
    hide Adds, Stored, Partition, ValidInput;
  }

  lemma BeginKeeps(c: Config, hash: Hash, s: State, call: Call)
    requires Inv(c, hash, s) && Fresh(call) && (call.Waiting? ==> ValidInput(c, call.input))
    ensures Inv(c, hash, s.(calls := s.calls + [call]))
  {
    var t := s.(calls := s.calls + [call]);
    hide ShardsOk, LocksOk, SealOk, ResultOk, WinnersOk, ValidInput;
    assert c.shards >= 1 by { ShardsPositive(c, hash, s.shards); }
    BeginKeepsLocks(c, hash, s, call);
    BeginKeepsWinners(c, hash, s, call);
    forall u | 0 <= u < |t.calls| ensures SealOk(c, hash, t, u) && ResultOk(c, hash, t, u) {
      BeginKeepsCall(c, hash, s, call, u);
    }
  }

  lemma ShardsPositive(c: Config, hash: Hash, shards: seq<Shard>)
    requires ShardsOk(c, hash, shards)
    ensures c.Valid() && c.shards >= 1 && |shards| == c.shards
  {
  }

  // ------------------------------------------------------- a call advances

  /** Two calls never hold the same shard's lock. */
  lemma LockExcludes(c: Config, hash: Hash, s: State, t: nat, u: nat)
    requires c.shards >= 1 && LocksOk(c, hash, s) && t < |s.calls| && u < |s.calls|
    requires Holds(c, hash, s.calls[t]).Some? && Holds(c, hash, s.calls[t]) == Holds(c, hash, s.calls[u])
    ensures t == u
  {
  }

  /** An action takes the lock it wants, keeps the one it holds, or gives that one up. */
  lemma ActLocks(c: Config, hash: Hash, call: Call, s: Shard, sealed: bool, shards: nat, now: int)
    requires c.shards >= 1
    ensures var after := Act(c, call, s, sealed, shards, now);
      && (Wants(c, hash, call).Some? ==> Holds(c, hash, call).None? && Holds(c, hash, after) == Wants(c, hash, call))
      && (Wants(c, hash, call).None? ==> Holds(c, hash, after).None? || Holds(c, hash, after) == Holds(c, hash, call))
  {
    hide Partition, StoreResult, AddShard;
  }

  lemma LocksKeep(c: Config, hash: Hash, s: State, id: nat, now: int)
    requires c.shards >= 1 && LocksOk(c, hash, s) && Enabled(c, hash, s, id)
    ensures LocksOk(c, hash, Apply(c, hash, s, id, now))
  {
    var i := ShardOf(c, hash, s.calls[id]);
    ActLocks(c, hash, s.calls[id], s.shards[i], s.sealed, |s.shards|, now);
    hide Partition, StoreNext, Act, Holds, Wants;
  }

  lemma ShardsKeep(c: Config, hash: Hash, s: State, id: nat, now: int)
    requires Inv(c, hash, s) && Enabled(c, hash, s, id)
    ensures ShardsOk(c, hash, Apply(c, hash, s, id, now).shards)
  {
    assert ResultOk(c, hash, s, id);
    hide LocksOk, WinnersOk, SealOk, ResultOk, Partition, ValidInput, StoreNext, Act;
    if s.calls[id].InWindow? {
      var i := ShardOf(c, hash, s.calls[id]);
      assert ShardOk(c, hash, s.shards[i], i);
      StoreKeeps(c, hash, s.shards[i], s.calls[id].input);
      ShardUpdate(c, hash, s.shards, i, StoreNext(s.shards[i], s.calls[id].input));
    }
  }

  // ---------------------------------------------- stored votes stay stored

  lemma StoredStays(c: Config, hash: Hash, shards: seq<Shard>, i: nat, input: Input, token: Token, choice: u32)
    requires c.shards >= 1 && i < |shards| && i == Partition(c, hash, input.token)
    requires forall t | t in shards[i].votes :: shards[i].votes[t] != 0
    requires Stored(c, hash, shards, token, choice)
    ensures Stored(c, hash, shards[i := StoreNext(shards[i], input)], token, choice)
  {
    hide Partition, CountChoice;
  }

  lemma VotesNonzero(c: Config, hash: Hash, shards: seq<Shard>, i: nat)
    requires ShardsOk(c, hash, shards) && i < |shards|
    ensures forall t | t in shards[i].votes :: shards[i].votes[t] != 0 && Partition(c, hash, t) == i
  {
    hide Partition;
    assert ShardOk(c, hash, shards[i], i);
  }

  lemma SumsOfPrefix(shards: seq<Shard>, i: nat, s: Shard, p: nat, sum: Snapshot)
    requires p <= i < |shards| && Adds(sum, shards[..p])
    ensures Adds(sum, shards[i := s][..p])
  {
    assert shards[i := s][..p] == shards[..p];
  }

  lemma AddsNext(sum: Snapshot, shards: seq<Shard>, n: nat)
    requires n < |shards| && Adds(sum, shards[..n])
    ensures Adds(AddShard(sum, shards[n]), shards[..n + 1])
  {
    assert shards[..n + 1][..n] == shards[..n];
  }

  /** A submission becomes able to store only by reading the flag as not set. */
  lemma ActMayStore(c: Config, call: Call, s: Shard, sealed: bool, shards: nat, now: int)
    ensures var after := Act(c, call, s, sealed, shards, now);
      MayStore(after) ==> after.input == call.input && (MayStore(call) || (call.Locked? && !sealed))
  {
    hide StoreResult, AddShard;
  }

  lemma OtherSealKeeps(c: Config, hash: Hash, s: State, id: nat, now: int, u: nat)
    requires Inv(c, hash, s) && Enabled(c, hash, s, id) && u < |s.calls| && u != id
    ensures SealOk(c, hash, Apply(c, hash, s, id, now), u)
  {
    assert SealOk(c, hash, s, u);
    hide Inv, Adds, Partition, StoreNext, Act;
    var t, i := Apply(c, hash, s, id, now), ShardOf(c, hash, s.calls[id]);
    ActMayStore(c, s.calls[id], s.shards[i], s.sealed, |s.shards|, now);
    var p := Passed(s.calls[u], |s.shards|);
    if p.Some? && s.calls[id].InWindow? {
      SumsOfPrefix(s.shards, i, StoreNext(s.shards[i], s.calls[id].input), p.value, SumOf(s.calls[u]));
    }
  }

  lemma ActSeal(c: Config, call: Call, s: Shard, sealed: bool, shards: nat, now: int)
    requires Passed(call, shards).Some? ==> Passed(call, shards).value <= shards
    requires call.Summing? || call.Holding? || call.Releasing? ==> call.next < shards
    ensures var after := Act(c, call, s, sealed, shards, now);
      var p := Passed(after, shards);
      && (after.Summing? ==> p.value < shards)
      && (p.Some? ==>
            || (call.Closing? && p.value == 0 && SumOf(after) == NoVotes())
            || (p == Passed(call, shards) && SumOf(after) == SumOf(call))
            || (call.Holding? && p.value == call.next + 1 && SumOf(after) == AddShard(call.sum, s)))
  {
    hide AddShard, StoreResult;
  }

  /** A seal that holds shard n's lock may count it as passed: nobody else can be about to store there. */
  lemma HoldingPasses(c: Config, hash: Hash, s: State, id: nat)
    requires c.shards >= 1 && id < |s.calls| && LocksOk(c, hash, s) && SealOk(c, hash, s, id)
    requires s.calls[id].Holding? && s.calls[id].next < |s.shards|
    ensures Adds(AddShard(s.calls[id].sum, s.shards[s.calls[id].next]), s.shards[..s.calls[id].next + 1])
    ensures forall u | 0 <= u < |s.calls| && MayStore(s.calls[u]) :: s.calls[id].next + 1 <= Partition(c, hash, s.calls[u].input.token)
  {
    var call := s.calls[id];
    assert Adds(call.sum, s.shards[..call.next]) by { hide Partition, Adds, LocksOk; }
    assert forall u | 0 <= u < |s.calls| && MayStore(s.calls[u]) :: call.next <= Partition(c, hash, s.calls[u].input.token) by { hide Adds, LocksOk; }
    hide SealOk, LocksOk, Adds, AddShard, Partition, Holds;
    AddsNext(call.sum, s.shards, call.next);
    forall u | 0 <= u < |s.calls| && MayStore(s.calls[u]) ensures Partition(c, hash, s.calls[u].input.token) != call.next {
      StorerHolds(c, hash, s.calls[u], call);
      if Partition(c, hash, s.calls[u].input.token) == call.next { LockExcludes(c, hash, s, u, id); }
    }
  }

  lemma StorerHolds(c: Config, hash: Hash, call: Call, seal: Call)
    requires c.shards >= 1 && MayStore(call) && seal.Holding?
    ensures Holds(c, hash, call) == Some(Partition(c, hash, call.input.token)) && Holds(c, hash, seal) == Some(seal.next)
  {
  }

  /** The three ways a Seal call comes to its place: it just set the flag, it moved on, it passed a shard. */
  lemma SealMoves(c: Config, hash: Hash, s: State, t: State, id: nat)
    requires c.shards >= 1 && id < |s.calls| && LocksOk(c, hash, s) && SealOk(c, hash, s, id)
    requires t.shards == s.shards && |t.calls| == |s.calls| && t.sealed && !MayStore(t.calls[id])
    requires forall u | 0 <= u < |s.calls| && u != id :: t.calls[u] == s.calls[u]
    requires Passed(t.calls[id], |s.shards|).Some?
    requires t.calls[id].Summing? ==> t.calls[id].next < |s.shards|
    requires var p := Passed(t.calls[id], |s.shards|);
      || (p.value == 0 && SumOf(t.calls[id]) == NoVotes())
      || (p == Passed(s.calls[id], |s.shards|) && SumOf(t.calls[id]) == SumOf(s.calls[id]))
      || (s.calls[id].Holding? && s.calls[id].next < |s.shards| && p.value == s.calls[id].next + 1
          && SumOf(t.calls[id]) == AddShard(s.calls[id].sum, s.shards[s.calls[id].next]))
    ensures SealOk(c, hash, t, id)
  {
    hide LocksOk, Partition, Adds, AddShard, NoVotes, Holds;
    var p := Passed(t.calls[id], |s.shards|).value;
    if p == 0 && SumOf(t.calls[id]) == NoVotes() {
      NothingAdded(s.shards);
    } else if Some(p) != Passed(s.calls[id], |s.shards|) {
      HoldingPasses(c, hash, s, id);
    }
  }

  lemma OwnSealKeeps(c: Config, hash: Hash, s: State, id: nat, now: int)
    requires Inv(c, hash, s) && Enabled(c, hash, s, id)
    ensures SealOk(c, hash, Apply(c, hash, s, id, now), id)
  {
    assert SealOk(c, hash, s, id) && LocksOk(c, hash, s) && |s.shards| >= 1;
    var call := s.calls[id];
    var i := ShardOf(c, hash, call);
    var after := Act(c, call, s.shards[i], s.sealed, |s.shards|, now);
    var p := Passed(call, |s.shards|);
    assert p.Some? ==> p.value <= |s.shards| && s.sealed;
    SealFields(c, hash, s, id, now);
    hide Inv, Apply, Enabled, LocksOk, Partition, Act, Adds, AddShard, StoreNext, SealOk;
    if Passed(after, |s.shards|).Some? {
      ActSeal(c, call, s.shards[i], s.sealed, |s.shards|, now);
      ActMayStore(c, call, s.shards[i], s.sealed, |s.shards|, now);
      SealMoves(c, hash, s, Apply(c, hash, s, id, now), id);
    } else {
      NotSealing(c, hash, Apply(c, hash, s, id, now), id);
    }
  }

  /** An action of a Seal call changes no shard, and one that counts as passed has the flag set. */
  lemma SealFields(c: Config, hash: Hash, s: State, id: nat, now: int)
    requires c.shards >= 1 && Enabled(c, hash, s, id)
    ensures var t, call, i := Apply(c, hash, s, id, now), s.calls[id], ShardOf(c, hash, s.calls[id]);
      && i < |s.shards| && t.calls == s.calls[id := Act(c, call, s.shards[i], s.sealed, |s.shards|, now)]
      && |t.shards| == |s.shards| && (s.sealed || call.Closing? ==> t.sealed)
      && (Passed(t.calls[id], |s.shards|).Some? ==> t.shards == s.shards)
  {
    hide Partition, StoreNext, StoreResult, AddShard;
  }

  lemma NotSealing(c: Config, hash: Hash, s: State, u: nat)
    requires c.shards >= 1 && u < |s.calls| && Passed(s.calls[u], |s.shards|).None?
    ensures SealOk(c, hash, s, u)
  {
  }

  lemma NothingAdded(shards: seq<Shard>)
    ensures Adds(NoVotes(), shards[..0])
  {
  }

  /** The fields an action changes. */
  lemma ApplyFields(c: Config, hash: Hash, s: State, id: nat, now: int)
    requires c.shards >= 1 && Enabled(c, hash, s, id)
    ensures var t, call, i := Apply(c, hash, s, id, now), s.calls[id], ShardOf(c, hash, s.calls[id]);
      && i < |s.shards| && t.calls == s.calls[id := Act(c, call, s.shards[i], s.sealed, |s.shards|, now)]
      && t.shards == (if call.InWindow? then s.shards[i := StoreNext(s.shards[i], call.input)] else s.shards)
      && t.winners == (if call.InWindow? && StoreResult(s.shards[i], call.input).status == Accepted
                       then s.winners[call.input.token := id] else s.winners)
  {
    hide Partition, StoreNext, StoreResult, AddShard;
  }

  lemma StoredStand(c: Config, hash: Hash, s: State, id: nat, token: Token, choice: u32)
    requires Inv(c, hash, s) && Enabled(c, hash, s, id) && s.calls[id].InWindow? && Stored(c, hash, s.shards, token, choice)
    ensures var i := ShardOf(c, hash, s.calls[id]);
      Stored(c, hash, s.shards[i := StoreNext(s.shards[i], s.calls[id].input)], token, choice)
  {
    var i := ShardOf(c, hash, s.calls[id]);
    VotesNonzero(c, hash, s.shards, i);
    hide Inv, Partition, StoreNext, Stored;
    StoredStays(c, hash, s.shards, i, s.calls[id].input, token, choice);
  }

  /** What one store does to the table and the history of winners. */
  lemma StoreEffect(c: Config, hash: Hash, s: State, id: nat, now: int)
    requires c.shards >= 1 && id < |s.calls| && Inv(c, hash, s) && Enabled(c, hash, s, id)
    ensures var t := Apply(c, hash, s, id, now);
      && (forall token, choice | Stored(c, hash, s.shards, token, choice) :: Stored(c, hash, t.shards, token, choice))
      && (forall token | token in s.winners :: token in t.winners && t.winners[token] == s.winners[token])
  {
    hide *;
    ApplyFields(c, hash, s, id, now);
    if s.calls[id].InWindow? {
      NewWinnerIsNew(c, hash, s, id);
      forall token, choice | Stored(c, hash, s.shards, token, choice) ensures Stored(c, hash, Apply(c, hash, s, id, now).shards, token, choice) {
        StoredStand(c, hash, s, id, token, choice);
      }
    }
  }

  lemma OtherResultKeeps(c: Config, hash: Hash, s: State, id: nat, now: int, u: nat)
    requires Inv(c, hash, s) && Enabled(c, hash, s, id) && u < |s.calls| && u != id
    ensures ResultOk(c, hash, Apply(c, hash, s, id, now), u)
  {
    assert ResultOk(c, hash, s, u);
    var t := Apply(c, hash, s, id, now);
    assert u < |t.calls| && t.calls[u] == s.calls[u] by { ApplyFields(c, hash, s, id, now); }
    StoreEffect(c, hash, s, id, now);
    hide *;
    ResultStays(c, hash, s, t, u);
  }

  /** A call's result depends on what is stored and won only in ways that stay. */
  lemma ResultStays(c: Config, hash: Hash, s: State, t: State, u: nat)
    requires c.shards >= 1 && u < |s.calls| && u < |t.calls| && t.calls[u] == s.calls[u] && ResultOk(c, hash, s, u)
    requires forall token, choice | Stored(c, hash, s.shards, token, choice) :: Stored(c, hash, t.shards, token, choice)
    requires forall token | token in s.winners :: token in t.winners && t.winners[token] == s.winners[token]
    ensures ResultOk(c, hash, t, u)
  {
    hide Stored, ValidInput;
  }

  /** An accepted store is of a token nobody won before. */
  lemma NewWinnerIsNew(c: Config, hash: Hash, s: State, id: nat)
    requires Inv(c, hash, s) && id < |s.calls| && s.calls[id].InWindow? && ShardOf(c, hash, s.calls[id]) < |s.shards|
    ensures var input := s.calls[id].input;
      StoreResult(s.shards[ShardOf(c, hash, s.calls[id])], input).status == Accepted ==> input.token !in s.winners
  {
    var i, input := ShardOf(c, hash, s.calls[id]), s.calls[id].input;
    VotesNonzero(c, hash, s.shards, i);
    assert WinnersOk(c, hash, s);
    hide Inv, Partition;
  }

  /** Where a call's result comes from: it had it, it just stored, or it was turned away. */
  lemma ActResult(c: Config, call: Call, s: Shard, sealed: bool, shards: nat, now: int)
    ensures var after := Act(c, call, s, sealed, shards, now);
      && (Submits(after) ==> Submits(call) && after.input == call.input)
      && (HasResult(after) ==>
            || (HasResult(call) && after.input == call.input && after.result == call.result)
            || (call.InWindow? && after.input == call.input && after.result == StoreResult(s, call.input))
            || (Submits(call) && (after.result.status == Closed || after.result.status == NotOpen)))
      && (HasResult(call) ==> HasResult(after) && after.input == call.input && after.result == call.result)
      && (after.Found? ==> call == Finding(after.token) && (after.choice.Some? ==> after.token in s.votes && after.choice.value == s.votes[after.token]))
      && (after.Answered? ==> (call.Found? || call.Answered?) && after.token == call.token && after.choice == call.choice)
  {
    hide AddShard, StoreResult;
  }

  lemma OwnResultKeeps(c: Config, hash: Hash, s: State, id: nat, now: int)
    requires Inv(c, hash, s) && Enabled(c, hash, s, id)
    ensures ResultOk(c, hash, Apply(c, hash, s, id, now), id)
  {
    hide Inv, Apply, ResultOk, Partition;
    if s.calls[id].InWindow? { OwnResultStored(c, hash, s, id, now); } else { OwnResultMoved(c, hash, s, id, now); }
  }

  lemma OwnResultStored(c: Config, hash: Hash, s: State, id: nat, now: int)
    requires Inv(c, hash, s) && Enabled(c, hash, s, id) && s.calls[id].InWindow?
    ensures ResultOk(c, hash, Apply(c, hash, s, id, now), id)
  {
    assert c.shards >= 1;
    OwnStore(c, hash, s, id, now);
    ApplyFields(c, hash, s, id, now);
    hide Inv, Apply, Enabled, Stored, Partition, ValidInput, Act, StoreNext, StoreResult;
  }

  lemma OwnResultMoved(c: Config, hash: Hash, s: State, id: nat, now: int)
    requires Inv(c, hash, s) && Enabled(c, hash, s, id) && !s.calls[id].InWindow?
    ensures ResultOk(c, hash, Apply(c, hash, s, id, now), id)
  {
    assert ResultOk(c, hash, s, id);
    var call, i := s.calls[id], ShardOf(c, hash, s.calls[id]);
    ActResult(c, call, s.shards[i], s.sealed, |s.shards|, now);
    ApplyFields(c, hash, s, id, now);
    hide Inv, Apply, Enabled, Partition, ValidInput, Act, StoreNext, StoreResult;
  }

  lemma OwnStore(c: Config, hash: Hash, s: State, id: nat, now: int)
    requires Inv(c, hash, s) && Enabled(c, hash, s, id) && s.calls[id].InWindow?
    ensures var call, t := s.calls[id], Apply(c, hash, s, id, now);
      var r := StoreResult(s.shards[ShardOf(c, hash, call)], call.input);
      && t.calls[id] == Leaving(call.input, r)
      && (r.status == Accepted ==>
            && r.choice == call.input.choice && t.winners == s.winners[call.input.token := id]
            && Stored(c, hash, t.shards, call.input.token, r.choice))
      && (r.status == Duplicate ==> Stored(c, hash, t.shards, call.input.token, r.choice))
  {
    hide Inv, Partition, ValidInput, CountChoice;
  }

  lemma WinnersKeep(c: Config, hash: Hash, s: State, id: nat, now: int)
    requires Inv(c, hash, s) && Enabled(c, hash, s, id)
    ensures WinnersOk(c, hash, Apply(c, hash, s, id, now))
  {
    var call, i := s.calls[id], ShardOf(c, hash, s.calls[id]);
    var t := Apply(c, hash, s, id, now);
    assert WinnersOk(c, hash, s);
    ActResult(c, call, s.shards[i], s.sealed, |s.shards|, now);
    StoreEffect(c, hash, s, id, now);
    if call.InWindow? {
      OwnStore(c, hash, s, id, now);
      NewWinnerIsNew(c, hash, s, id);
      forall k, token | 0 <= k < |t.shards| && token in t.shards[k].votes ensures token in t.winners {
        hide Inv, Partition, ValidInput, Act, StoreResult, CountChoice;
      }
    }
    hide Inv, ResultOk, Partition, Act, StoreNext, StoreResult, ValidInput, Stored;
    WinnersStand(c, hash, s, t, id);
  }

  lemma WinnersStand(c: Config, hash: Hash, s: State, t: State, id: nat)
    requires c.shards >= 1 && WinnersOk(c, hash, s) && id < |s.calls| && |t.calls| == |s.calls|
    requires forall u | 0 <= u < |s.calls| && u != id :: t.calls[u] == s.calls[u]
    requires WasAccepted(s.calls[id]) ==> HasResult(t.calls[id]) && t.calls[id].input == s.calls[id].input && t.calls[id].result == s.calls[id].result
    requires forall token, choice | Stored(c, hash, s.shards, token, choice) :: Stored(c, hash, t.shards, token, choice)
    requires forall token | token in s.winners :: token in t.winners && t.winners[token] == s.winners[token]
    requires forall k, token | 0 <= k < |t.shards| && token in t.shards[k].votes :: token in t.winners
    requires forall token | token in t.winners && token !in s.winners ::
               && t.winners[token] == id && WasAccepted(t.calls[id]) && t.calls[id].input.token == token
               && Stored(c, hash, t.shards, token, t.calls[id].result.choice)
    ensures WinnersOk(c, hash, t)
  {
    hide Stored, Partition;
  }

  lemma StepKeeps(c: Config, hash: Hash, s: State, id: nat, now: int)
    requires Inv(c, hash, s) && Enabled(c, hash, s, id)
    ensures Inv(c, hash, Apply(c, hash, s, id, now))
  {
    var t := Apply(c, hash, s, id, now);
    ShardsKeep(c, hash, s, id, now);
    assert LocksOk(c, hash, t) by { LocksKeep(c, hash, s, id, now); }
    WinnersKeep(c, hash, s, id, now);
    forall u | 0 <= u < |t.calls| ensures SealOk(c, hash, t, u) && ResultOk(c, hash, t, u) {
      if u == id {
        OwnSealKeeps(c, hash, s, id, now);
        OwnResultKeeps(c, hash, s, id, now);
      } else {
        OtherSealKeeps(c, hash, s, id, now, u);
        OtherResultKeeps(c, hash, s, id, now, u);
      }
    }
    hide Apply, SealOk, ResultOk, WinnersOk, LocksOk, ShardsOk;
  }
}
