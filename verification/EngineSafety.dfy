/** What every interleaving of the engine's calls guarantees: an exact table and a seal that is a barrier. */
module EngineSafety {
  import opened Bits
  import opened Bytes
  import opened Wrappers
  import opened EngineTable
  import opened EngineProtocol

  lemma {:induction false} RunKeeps(c: Config, hash: Hash, run: seq<State>, i: nat)
    requires IsRun(c, hash, run) && i < |run|
    ensures Inv(c, hash, run[i])
    decreases i
  {
    hide Inv, Initial, Apply, Enabled, Begin;
    if i == 0 {
      InitialInv(c, hash);
    } else {
      RunKeeps(c, hash, run, i - 1);
      var s, t := run[i - 1], run[i];
      assert Step(c, hash, s, run[i - 1 + 1]);
      if id: nat, now :| Enabled(c, hash, s, id) && t == Apply(c, hash, s, id, now) {
        StepKeeps(c, hash, s, id, now);
      } else {
        var call :| t == s.(calls := s.calls + [call]) && (call == Looking || call.Finding? || exists input :: call == Begin(c, input));
        BeginIsFresh(c, call);
        BeginKeeps(c, hash, s, call);
      }
    }
  }

  lemma BeginIsFresh(c: Config, call: Call)
    requires call == Looking || call.Finding? || exists input :: call == Begin(c, input)
    ensures Fresh(call) && (call.Waiting? ==> ValidInput(c, call.input))
  {
  }

  /** A call that can no longer be accepted once the flag is set: it has not read it as unset. */
  predicate Barred(call: Call) {
    !MayStore(call) && !WasAccepted(call)
  }

  /** From one state to a later one: the flag stays set, finished calls keep their result, barred calls stay barred. */
  ghost predicate Extends(s: State, t: State) {
    && (s.sealed ==> t.sealed)
    && |s.calls| <= |t.calls|
    && (forall id | 0 <= id < |s.calls| && Finished(s.calls[id]) :: t.calls[id] == s.calls[id])
    && (s.sealed ==>
          && (forall id | 0 <= id < |s.calls| && Barred(s.calls[id]) :: Barred(t.calls[id]))
          && (forall id | |s.calls| <= id < |t.calls| :: Barred(t.calls[id])))
  }

  lemma StepExtends(c: Config, hash: Hash, s: State, t: State)
    requires c.Valid() && Step(c, hash, s, t)
    ensures Extends(s, t)
  {
    if id: nat, now :| Enabled(c, hash, s, id) && t == Apply(c, hash, s, id, now) {
      var i := ShardOf(c, hash, s.calls[id]);
      ActMayStore(c, s.calls[id], s.shards[i], s.sealed, |s.shards|, now);
      ActResult(c, s.calls[id], s.shards[i], s.sealed, |s.shards|, now);
      hide Act, Partition, StoreNext;
    } else {
      hide Enabled, Apply;
    }
  }

  lemma {:induction false} RunExtends(c: Config, hash: Hash, run: seq<State>, i: nat, j: nat)
    requires IsRun(c, hash, run) && i <= j < |run|
    ensures Extends(run[i], run[j])
    decreases j
  {
    hide Initial, Step;
    if i < j {
      RunExtends(c, hash, run, i, j - 1);
      assert Step(c, hash, run[j - 1], run[j - 1 + 1]);
      StepExtends(c, hash, run[j - 1], run[j]);
    }
  }

  /** The set of calls that were accepted. */
  ghost function AcceptedCalls(s: State): set<nat> {
    set id | 0 <= id < |s.calls| && WasAccepted(s.calls[id])
  }

  /** Each accepted call is stored with its choice, and each stored token has one accepted call. */
  ghost predicate TableMatches(s: State) {
    && (forall id | id in AcceptedCalls(s) ::
          s.calls[id].input.token in Table(s.shards) && Table(s.shards)[s.calls[id].input.token] == s.calls[id].input.choice)
    && (forall token | token in Table(s.shards) :: exists id :: id in AcceptedCalls(s) && s.calls[id].input.token == token)
    && (forall id, other | id in AcceptedCalls(s) && other in AcceptedCalls(s) && s.calls[id].input.token == s.calls[other].input.token ::
          id == other)
  }

  /**
   * The table is exactly the accepted calls: each stored token has one accepted call, whose choice is
   * stored, and each accepted call is the one of its token. So no vote is lost or stored twice.
   */
  lemma TableIsAcceptedCalls(c: Config, hash: Hash, run: seq<State>, i: nat)
    requires IsRun(c, hash, run) && i < |run|
    ensures TableMatches(run[i])
    ensures |AcceptedCalls(run[i])| == |Table(run[i].shards)|
  {
    RunKeeps(c, hash, run, i);
    hide IsRun, Inv, Table, TableMatches, AcceptedCalls;
    AcceptedMatch(c, hash, run[i]);
    AcceptedAreCounted(c, hash, run[i]);
  }

  lemma AcceptedMatch(c: Config, hash: Hash, s: State)
    requires Inv(c, hash, s)
    ensures TableMatches(s)
  {
    hide Inv, Table;
    TableKeysAreWinners(c, hash, s);
    hide AcceptedCalls;
    forall id | id in AcceptedCalls(s)
      ensures s.calls[id].input.token in s.winners && s.winners[s.calls[id].input.token] == id
      ensures s.calls[id].input.token in Table(s.shards) && Table(s.shards)[s.calls[id].input.token] == s.calls[id].input.choice
    {
      AcceptedIsStored(c, hash, s, id);
    }
    forall token | token in Table(s.shards) ensures exists id :: id in AcceptedCalls(s) && s.calls[id].input.token == token {
      assert s.winners[token] in AcceptedCalls(s);
    }
  }

  lemma AcceptedAreCounted(c: Config, hash: Hash, s: State)
    requires Inv(c, hash, s)
    ensures |AcceptedCalls(s)| == |Table(s.shards)|
  {
    hide Inv, Table;
    TableKeysAreWinners(c, hash, s);
    hide AcceptedCalls;
    forall id | id in AcceptedCalls(s) ensures exists k :: k in s.winners.Keys && s.winners[k] == id {
      AcceptedIsStored(c, hash, s, id);
      assert s.calls[id].input.token in s.winners.Keys;
    }
    InjectiveImage(s.winners.Keys, AcceptedCalls(s), s.winners);
  }

  lemma AcceptedIsStored(c: Config, hash: Hash, s: State, id: nat)
    requires Inv(c, hash, s) && id in AcceptedCalls(s)
    ensures var call := s.calls[id];
      && call.input.token in s.winners && s.winners[call.input.token] == id
      && call.input.token in Table(s.shards) && Table(s.shards)[call.input.token] == call.input.choice
  {
    assert ResultOk(c, hash, s, id) && WinnersOk(c, hash, s) && ShardsOk(c, hash, s.shards);
    hide Inv, Table, Partition, ShardOk;
    TableLookup(c, hash, s.shards, s.calls[id].input.token);
  }

  lemma StoredIffWon(c: Config, hash: Hash, s: State, token: Token)
    requires ShardsOk(c, hash, s.shards) && WinnersOk(c, hash, s)
    ensures token in Table(s.shards) <==> token in s.winners
  {
    TableLookup(c, hash, s.shards, token);
    hide ShardsOk, Table, Partition;
    if token in s.winners {
      assert Stored(c, hash, s.shards, token, s.calls[s.winners[token]].result.choice);
    }
  }

  lemma WinnersWereAccepted(c: Config, hash: Hash, s: State)
    requires c.shards >= 1 && WinnersOk(c, hash, s)
    ensures forall token | token in s.winners ::
              s.winners[token] in AcceptedCalls(s) && s.calls[s.winners[token]].input.token == token
  {
    hide Stored;
  }

  lemma TableKeysAreWinners(c: Config, hash: Hash, s: State)
    requires Inv(c, hash, s)
    ensures Table(s.shards).Keys == s.winners.Keys && |Table(s.shards)| == |s.winners|
    ensures forall token | token in s.winners ::
              s.winners[token] in AcceptedCalls(s) && s.calls[s.winners[token]].input.token == token
  {
    assert WinnersOk(c, hash, s) && ShardsOk(c, hash, s.shards) && c.shards >= 1;
    hide Inv, Table, ShardsOk, WinnersOk;
    WinnersWereAccepted(c, hash, s);
    forall token ensures token in Table(s.shards) <==> token in s.winners { StoredIffWon(c, hash, s, token); }
    SameKeys(Table(s.shards), s.winners);
  }

  lemma SameKeys(a: Votes, b: map<Token, nat>)
    requires forall k :: k in a <==> k in b
    ensures a.Keys == b.Keys && |a| == |b|
  {
    assert a.Keys == b.Keys;
    assert |a| == |a.Keys| && |b| == |b.Keys|;
  }

  lemma {:induction false} InjectiveImage(keys: set<Token>, ids: set<nat>, m: map<Token, nat>)
    requires keys <= m.Keys
    requires forall k | k in keys :: m[k] in ids
    requires forall k, l | k in keys && l in keys && m[k] == m[l] :: k == l
    requires forall id | id in ids :: exists k :: k in keys && m[k] == id
    ensures |keys| == |ids|
    decreases |keys|
  {
    if keys == {} {
      assert ids == {};
    } else {
      var k :| k in keys;
      forall id | id in ids - {m[k]} ensures exists l :: l in keys - {k} && m[l] == id {
        var l :| l in keys && m[l] == id;
        assert l in keys - {k};
      }
      InjectiveImage(keys - {k}, ids - {m[k]}, m);
    }
  }

  /**
   * The seal is a barrier. Once any Seal call has returned, its snapshot is the final state: at every
   * later moment Total and Counts are those of the whole table, no call may still store, and every
   * accepted call, whether or not it has returned yet, is counted exactly once.
   */
  lemma SealIsBarrier(c: Config, hash: Hash, run: seq<State>, i: nat, j: nat, u: nat)
    requires IsRun(c, hash, run) && i <= j < |run|
    requires u < |run[i].calls| && run[i].calls[u].Sealed?
    ensures u < |run[j].calls| && run[j].calls[u] == run[i].calls[u]
    ensures SnapshotOf(run[i].calls[u].snapshot, Table(run[j].shards))
    ensures run[i].calls[u].snapshot.total == |AcceptedCalls(run[j])|
    ensures forall id | 0 <= id < |run[j].calls| :: !MayStore(run[j].calls[id])
  {
    RunExtends(c, hash, run, i, j);
    RunKeeps(c, hash, run, j);
    TableIsAcceptedCalls(c, hash, run, j);
    hide IsRun, Inv, Table, AcceptedCalls, TableMatches;
    SealedIsExact(c, hash, run[j], u);
    forall id | 0 <= id < |run[j].calls| ensures !MayStore(run[j].calls[id]) {
      SealedIsBarrier(c, hash, run[j], u, id);
    }
  }

  lemma SealedIsExact(c: Config, hash: Hash, s: State, u: nat)
    requires Inv(c, hash, s) && u < |s.calls| && s.calls[u].Sealed?
    ensures SnapshotOf(s.calls[u].snapshot, Table(s.shards))
  {
    assert |s.shards| >= 1 && ShardsOk(c, hash, s.shards) && SealOk(c, hash, s, u);
    hide Inv, ShardsOk, Table, Partition, Tally, SnapshotOf, SumVotes, SumCounts;
    assert s.shards[..|s.shards|] == s.shards;
    SumsAreSnapshot(c, hash, s.shards, s.calls[u].snapshot.total, s.calls[u].snapshot.counts);
  }

  lemma SealedIsBarrier(c: Config, hash: Hash, s: State, u: nat, id: nat)
    requires Inv(c, hash, s) && u < |s.calls| && s.calls[u].Sealed? && id < |s.calls|
    ensures !MayStore(s.calls[id])
  {
    assert c.Valid() && |s.shards| == c.shards && SealOk(c, hash, s, u);
    hide Inv, ShardsOk, Partition, Adds;
    if MayStore(s.calls[id]) { PartitionIsRemainder(c, hash, s.calls[id].input.token); }
  }

  /** All Seal calls return the same snapshot. */
  lemma SealsAgree(c: Config, hash: Hash, run: seq<State>, i: nat, u: nat, v: nat)
    requires IsRun(c, hash, run) && i < |run| && u < |run[i].calls| && v < |run[i].calls|
    requires run[i].calls[u].Sealed? && run[i].calls[v].Sealed?
    ensures run[i].calls[u].snapshot == run[i].calls[v].snapshot
  {
    hide IsRun, Table, Tally;
    SealIsBarrier(c, hash, run, i, i, u);
    SealIsBarrier(c, hash, run, i, i, v);
    var a, b := run[i].calls[u].snapshot, run[i].calls[v].snapshot;
    assert forall k | 0 <= k < 32 :: a.counts[k] == b.counts[k];
    assert a.counts == b.counts;
  }

  /**
   * Admission never reopens: once the flag is set, a call that has not yet read it, or has not begun, is
   * never accepted, whatever the clock shows afterwards.
   */
  lemma NeverReopens(c: Config, hash: Hash, run: seq<State>, i: nat, j: nat, id: nat)
    requires IsRun(c, hash, run) && i <= j < |run| && run[i].sealed
    requires id < |run[j].calls| && (id >= |run[i].calls| || Barred(run[i].calls[id]))
    ensures run[j].sealed && !WasAccepted(run[j].calls[id])
  {
    RunExtends(c, hash, run, i, j);
  }

  /** What Submit and Lookup report is what the table holds: a first choice, never replaced. */
  lemma AnswersAreFirstChoices(c: Config, hash: Hash, run: seq<State>, i: nat, j: nat, id: nat)
    requires IsRun(c, hash, run) && i <= j < |run| && id < |run[i].calls|
    ensures run[i].calls[id].Returned? && run[i].calls[id].result.status == Duplicate ==>
              run[i].calls[id].input.token in Table(run[j].shards)
              && Table(run[j].shards)[run[i].calls[id].input.token] == run[i].calls[id].result.choice
    ensures run[i].calls[id].Answered? && run[i].calls[id].choice.Some? ==>
              run[i].calls[id].token in Table(run[j].shards)
              && Table(run[j].shards)[run[i].calls[id].token] == run[i].calls[id].choice.value
  {
    RunExtends(c, hash, run, i, j);
    RunKeeps(c, hash, run, j);
    var call := run[i].calls[id];
    if call.Returned? || call.Answered? {
      assert run[j].calls[id] == call && ResultOk(c, hash, run[j], id) && ShardsOk(c, hash, run[j].shards);
      hide IsRun, Inv, Table, Partition, ShardOk;
      TableLookup(c, hash, run[j].shards, if call.Returned? then call.input.token else call.token);
    }
  }

  // ------------------------------------------- what is found, what is full

  /** A shard keeps its entries and its limit. */
  ghost predicate Kept(s: Shard, t: Shard) {
    s.capacity == t.capacity && forall token | token in s.votes :: token in t.votes && t.votes[token] == s.votes[token]
  }

  ghost predicate Grows(s: seq<Shard>, t: seq<Shard>) {
    |s| == |t| && forall i | 0 <= i < |s| :: Kept(s[i], t[i])
  }

  lemma StoreGrows(s: Shard, input: Input)
    requires forall token | token in s.votes :: s.votes[token] != 0
    ensures Kept(s, StoreNext(s, input))
  {
    hide CountChoice;
  }

  lemma KeepsItself(s: Shard)
    ensures Kept(s, s)
  {
  }

  lemma OneGrows(shards: seq<Shard>, i: nat, input: Input)
    requires i < |shards| && forall token | token in shards[i].votes :: shards[i].votes[token] != 0
    ensures Grows(shards, shards) && Grows(shards, shards[i := StoreNext(shards[i], input)])
  {
    StoreGrows(shards[i], input);
    forall shard ensures Kept(shard, shard) { KeepsItself(shard); }
    hide Kept, StoreNext;
  }

  lemma StepGrows(c: Config, hash: Hash, s: State, t: State)
    requires Inv(c, hash, s) && Step(c, hash, s, t)
    ensures Grows(s.shards, t.shards)
  {
    assert c.shards >= 1 && |s.shards| >= 1 && ShardsOk(c, hash, s.shards);
    VotesNonzero(c, hash, s.shards, 0);
    OneGrows(s.shards, 0, Input(ZERO_TOKEN, 0));
    if id: nat, now :| Enabled(c, hash, s, id) && t == Apply(c, hash, s, id, now) {
      ApplyFields(c, hash, s, id, now);
      hide Inv, Apply, Enabled, Partition, StoreNext, StoreResult, Act, Grows, ShardsOk;
      var i := ShardOf(c, hash, s.calls[id]);
      hide ShardOf;
      VotesNonzero(c, hash, s.shards, i);
      if s.calls[id].InWindow? { OneGrows(s.shards, i, s.calls[id].input); }
    } else {
      hide Inv, Apply, Enabled, Grows;
    }
  }

  lemma {:induction false} RunGrows(c: Config, hash: Hash, run: seq<State>, i: nat, j: nat)
    requires IsRun(c, hash, run) && i <= j < |run|
    ensures Grows(run[i].shards, run[j].shards)
    decreases j
  {
    hide Inv, Initial, Step;
    if i < j {
      RunGrows(c, hash, run, i, j - 1);
      RunKeeps(c, hash, run, j - 1);
      assert Step(c, hash, run[j - 1], run[j - 1 + 1]);
      StepGrows(c, hash, run[j - 1], run[j]);
    }
  }

  /** A Lookup that has not looked yet, or has found this. */
  ghost predicate WillFind(s: State, id: nat, token: Token, choice: u32) {
    id < |s.calls| ==>
      match s.calls[id]
      case Found(t, found) => t == token ==> found == Some(choice)
      case Answered(t, found) => t == token ==> found == Some(choice)
      case _ => true
  }

  lemma StepFinds(c: Config, hash: Hash, s: State, t: State, id: nat, token: Token, choice: u32)
    requires c.Valid() && Step(c, hash, s, t) && WillFind(s, id, token, choice) && Stored(c, hash, s.shards, token, choice)
    ensures WillFind(t, id, token, choice)
  {
    if u: nat, now :| Enabled(c, hash, s, u) && t == Apply(c, hash, s, u, now) {
      ApplyFields(c, hash, s, u, now);
      var i := ShardOf(c, hash, s.calls[u]);
      ActResult(c, s.calls[u], s.shards[i], s.sealed, |s.shards|, now);
      FindsStored(c, hash, s.calls[u], s.shards, s.sealed, now);
      hide Apply, Enabled, Partition, StoreNext, StoreResult, Act;
    } else {
      hide Apply, Enabled, Partition;
    }
  }

  lemma FindsStored(c: Config, hash: Hash, call: Call, shards: seq<Shard>, sealed: bool, now: int)
    requires c.shards >= 1 && ShardOf(c, hash, call) < |shards|
    ensures var after := Act(c, call, shards[ShardOf(c, hash, call)], sealed, |shards|, now);
      && (after.Found? ==> call == Finding(after.token) && ShardOf(c, hash, call) == Partition(c, hash, after.token)
                           && (after.choice.None? <==> after.token !in shards[ShardOf(c, hash, call)].votes))
      && (after.Answered? && after != call ==> call == Found(after.token, after.choice))
  {
    hide Partition, StoreResult, AddShard;
  }

  /**
   * Lookup never misses a vote: one that had not looked when a token was already in the table tells its choice.
   */
  lemma LookupFinds(c: Config, hash: Hash, run: seq<State>, i: nat, j: nat, id: nat, token: Token)
    requires IsRun(c, hash, run) && i <= j < |run| && token in Table(run[i].shards)
    requires id >= |run[i].calls| || run[i].calls[id].Finding?
    ensures WillFind(run[j], id, token, Table(run[i].shards)[token])
  {
    RunKeeps(c, hash, run, i);
    hide IsRun, Inv, Table, WillFind, Stored;
    FoundInTable(c, hash, run[i], token);
    NotLooked(run[i], id, token, Table(run[i].shards)[token]);
    FindsFrom(c, hash, run, i, j, id, token, Table(run[i].shards)[token]);
  }

  lemma {:induction false} FindsFrom(c: Config, hash: Hash, run: seq<State>, i: nat, j: nat, id: nat, token: Token, choice: u32)
    requires c.shards >= 1 && IsRun(c, hash, run) && i <= j < |run|
    requires Stored(c, hash, run[i].shards, token, choice) && WillFind(run[i], id, token, choice)
    ensures Stored(c, hash, run[j].shards, token, choice) && WillFind(run[j], id, token, choice)
    decreases j
  {
    hide Initial, Step, WillFind, Stored, Grows, Config.Valid;
    if i < j {
      FindsFrom(c, hash, run, i, j - 1, id, token, choice);
      RunGrows(c, hash, run, j - 1, j);
      assert Step(c, hash, run[j - 1], run[j - 1 + 1]);
      StepFinds(c, hash, run[j - 1], run[j], id, token, choice);
      StoredGrows(c, hash, run[j - 1].shards, run[j].shards, token, choice);
    }
  }

  lemma NotLooked(s: State, id: nat, token: Token, choice: u32)
    requires id >= |s.calls| || s.calls[id].Finding?
    ensures WillFind(s, id, token, choice)
  {
  }

  lemma StoredGrows(c: Config, hash: Hash, s: seq<Shard>, t: seq<Shard>, token: Token, choice: u32)
    requires c.shards >= 1 && Grows(s, t) && Stored(c, hash, s, token, choice)
    ensures Stored(c, hash, t, token, choice)
  {
    hide Partition;
  }

  lemma FoundInTable(c: Config, hash: Hash, s: State, token: Token)
    requires Inv(c, hash, s) && token in Table(s.shards)
    ensures c.shards >= 1 && Stored(c, hash, s.shards, token, Table(s.shards)[token])
  {
    assert ShardsOk(c, hash, s.shards);
    hide Inv, Table, Partition, ShardOk;
    TableLookup(c, hash, s.shards, token);
  }

  /** A call that was told CapacityExceeded had a new token and met a full shard, which stays so. */
  ghost predicate FullFor(c: Config, hash: Hash, s: State, id: nat)
    requires c.shards >= 1
  {
    id < |s.calls| && HasResult(s.calls[id]) && s.calls[id].result.status == CapacityExceeded ==>
      && var token := s.calls[id].input.token;
      && var i := Partition(c, hash, token);
      i < |s.shards| && FullWithout(s.shards[i], token)
  }

  /** A full shard without this token. */
  ghost predicate FullWithout(s: Shard, token: Token) {
    token !in s.votes && |s.votes| >= s.capacity
  }

  lemma StaysFull(s: Shard, input: Input)
    requires forall t | t in s.votes :: s.votes[t] != 0
    ensures forall token | FullWithout(s, token) :: FullWithout(StoreNext(s, input), token)
    ensures StoreResult(s, input).status == CapacityExceeded ==> FullWithout(s, input.token)
  {
    hide CountChoice;
  }

  lemma ApplyFull(c: Config, hash: Hash, s: State, u: nat, now: int, id: nat)
    requires c.shards >= 1 && Inv(c, hash, s) && Enabled(c, hash, s, u) && FullFor(c, hash, s, id) && u < |s.calls|
    ensures FullFor(c, hash, Apply(c, hash, s, u, now), id)
  {
    ApplyFields(c, hash, s, u, now);
    var i, call := ShardOf(c, hash, s.calls[u]), s.calls[u];
    assert ShardsOk(c, hash, s.shards);
    VotesNonzero(c, hash, s.shards, i);
    StaysFull(s.shards[i], if call.InWindow? then call.input else Input(ZERO_TOKEN, 0));
    ActResult(c, call, s.shards[i], s.sealed, |s.shards|, now);
    assert call.InWindow? ==> i == Partition(c, hash, call.input.token);
    hide Inv, Apply, Enabled, ShardOf, Partition, StoreNext, StoreResult, Act, FullWithout;
  }

  lemma BeginFull(c: Config, hash: Hash, s: State, call: Call, id: nat)
    requires c.shards >= 1 && FullFor(c, hash, s, id) && Fresh(call)
    ensures FullFor(c, hash, s.(calls := s.calls + [call]), id)
  {
    hide Partition, FullWithout;
  }

  lemma StepFull(c: Config, hash: Hash, s: State, t: State, id: nat)
    requires Inv(c, hash, s) && c.shards >= 1 && Step(c, hash, s, t) && FullFor(c, hash, s, id)
    ensures FullFor(c, hash, t, id)
  {
    hide Inv, Apply, FullFor, Begin;
    if u: nat, now :| Enabled(c, hash, s, u) && t == Apply(c, hash, s, u, now) {
      assert u < |s.calls|;
      hide Enabled;
      ApplyFull(c, hash, s, u, now, id);
    } else {
      hide Enabled;
      var call :| t == s.(calls := s.calls + [call]) && (call == Looking || call.Finding? || exists input :: call == Begin(c, input));
      BeginIsFresh(c, call);
      BeginFull(c, hash, s, call, id);
    }
  }

  lemma {:induction false} CapacityMeansFull(c: Config, hash: Hash, run: seq<State>, j: nat, id: nat)
    requires IsRun(c, hash, run) && j < |run|
    ensures c.shards >= 1 && FullFor(c, hash, run[j], id)
    decreases j
  {
    hide Inv, Step, FullFor;
    if j == 0 {
      NobodyRefused(c, hash, id);
    } else {
      CapacityMeansFull(c, hash, run, j - 1, id);
      RunKeeps(c, hash, run, j - 1);
      assert Step(c, hash, run[j - 1], run[j - 1 + 1]);
      StepFull(c, hash, run[j - 1], run[j], id);
    }
  }

  lemma NobodyRefused(c: Config, hash: Hash, id: nat)
    requires c.Valid()
    ensures FullFor(c, hash, Initial(c), id)
  {
  }
}
