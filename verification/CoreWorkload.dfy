/**
 * The in-memory benchmark's workload (cmd/corebench/workload.go runWorker): workers submit to one engine and
 * record what it accepted in a shared bitmap of two bits per key, without locks. Every submission, reading
 * and writing of a byte is a step of its own, in any interleaving; what the workers leave is always what
 * the audit of cmd/corebench/execute.go expects of a right engine.
 */
module CoreWorkload {
  import opened Bytes
  import opened Wrappers
  import opened Packed
  import opened CoreAudit
  import EngineTable

  /** A worker submits the key's original, choice 1, or its repeat, choice 2. */
  datatype Attempt = Attempt(key: nat, repeated: bool)
  {
    function Choice(): (c: nat)
      ensures c == 1 || c == 2
    {
      if repeated then 2 else 1
    }
  }

  /** Where a worker stands: between attempts, answered, about to call setChoice, or between its read and write. */
  datatype Phase = Idle | Answered(a: Attempt, result: EngineTable.Result) | Recording(a: Attempt) | Storing(a: Attempt)

  datatype Worker = Worker(phase: Phase, last: Option<Attempt>)

  /** The engine's votes, the bitmap with the writes in flight, the workers, and the sums of their counters. */
  datatype World = World(
    votes: Votes, memory: Memory, workers: seq<Worker>,
    accepted: nat, wrongChoice: nat, doubleAccept: nat, unexpectedDuplicate: nat)

  datatype Label =
    | Submit(worker: nat, a: Attempt, result: EngineTable.Result)
    | Look(worker: nat)     // getChoice, and the counters
    | Load(worker: nat)     // setChoice reads the byte
    | Store(worker: nat)    // ... and writes it

  function Initial(l: Layout): World {
    World(map[], After(l, []), seq(l.workers, _ => Worker(Idle, None)), 0, 0, 0, 0)
  }

  function InputOf(token: Tokens, a: Attempt): EngineTable.Input {
    EngineTable.Input(token(a.key), a.Choice())
  }

  /** What the engine may answer: as a first-choice map does, or refuse without changing anything. */
  predicate Answers(token: Tokens, votes: Votes, a: Attempt, r: EngineTable.Result) {
    match r.status
    case Accepted => token(a.key) !in votes && r.choice == a.Choice()
    case Duplicate => token(a.key) in votes && r.choice == votes[token(a.key)]
    case _ => true
  }

  function Stored(token: Tokens, votes: Votes, a: Attempt, r: EngineTable.Result): Votes {
    if r.status == EngineTable.Accepted then votes[token(a.key) := a.Choice()] else votes
  }

  /** The engine of internal/votecore is such an engine: each of its answers and its effect are allowed. */
  lemma EngineAnswers(c: EngineTable.Config, hash: EngineTable.Hash, shards: seq<EngineTable.Shard>, sealed: bool, now: int,
                      token: Tokens, a: Attempt)
    requires EngineTable.ShardsOk(c, hash, shards)
    ensures EngineTable.Partition(c, hash, token(a.key)) < |shards|
    ensures var i := EngineTable.Partition(c, hash, token(a.key));
      var r := EngineTable.SubmitResult(c, shards[i], sealed, InputOf(token, a), now);
      var (s, _) := EngineTable.SubmitNext(c, shards[i], sealed, InputOf(token, a), now);
      && Answers(token, EngineTable.Table(shards), a, r)
      && EngineTable.ShardsOk(c, hash, shards[i := s])
      && EngineTable.Table(shards[i := s]) == Stored(token, EngineTable.Table(shards), a, r)
  {
    assert c.shards >= 1;
    hide *;
    EngineTable.SubmitRefinesFirstChoice(c, hash, shards, sealed, InputOf(token, a), now);
    FirstChoiceAnswers(c, token, EngineTable.Table(shards), sealed, now, a);
    RefusalAnswers(token, EngineTable.Table(shards), a);
    var i := EngineTable.Partition(c, hash, token(a.key));
    assert shards[i := shards[i]] == shards;
  }

  lemma FirstChoiceAnswers(c: EngineTable.Config, token: Tokens, votes: Votes, sealed: bool, now: int, a: Attempt)
    ensures var r := EngineTable.FirstChoice(c, votes, sealed, InputOf(token, a), now);
      && Answers(token, votes, a, r)
      && EngineTable.FirstChoiceNext(c, votes, sealed, InputOf(token, a), now).0 == Stored(token, votes, a, r)
  {
    hide EngineTable.ValidInput;
  }

  lemma RefusalAnswers(token: Tokens, votes: Votes, a: Attempt)
    ensures var r := EngineTable.Result(EngineTable.CapacityExceeded, 0); Answers(token, votes, a, r) && Stored(token, votes, a, r) == votes
    ensures InputOf(token, a).token == token(a.key)
  {
  }

  /** The worker's loop goes up its own keys, each original at most once and its repeat only right after it. */
  predicate Follows(last: Option<Attempt>, a: Attempt) {
    match last
    case None => !a.repeated
    case Some(b) => if a.repeated then b == Attempt(a.key, false) else b.key < a.key
  }

  predicate Enabled(l: Layout, token: Tokens, s: World, move: Label)
    requires l.Valid()
  {
    && move.worker < |s.workers|
    && var w := s.workers[move.worker];
    match move
    case Submit(id, a, r) =>
      w.phase == Idle && a.key < l.keys && l.Owner(a.key) == id && Follows(w.last, a) && Answers(token, s.votes, a, r)
    case Look(_) => w.phase.Answered? && w.phase.a.key / 4 < |s.memory.bytes|
    case Load(_) => w.phase.Recording?
    case Store(_) => w.phase.Storing?
  }

  function NextWorker(w: Worker, move: Label): Worker {
    match move
    case Submit(_, a, r) => Worker(Answered(a, r), Some(a))
    case Look(_) =>
      if w.phase.Answered? && w.phase.result.status == EngineTable.Accepted then w.(phase := Recording(w.phase.a)) else w.(phase := Idle)
    case Load(_) => if w.phase.Recording? then w.(phase := Storing(w.phase.a)) else w
    case Store(_) => w.(phase := Idle)
  }

  /** One answer compared with the expected choice, as runWorker does it. */
  function Counted(s: World, a: Attempt, r: EngineTable.Result, expected: nat): (t: World)
    ensures t.votes == s.votes && t.memory == s.memory && t.workers == s.workers
    ensures t.accepted == s.accepted + if r.status == EngineTable.Accepted then 1 else 0
  {
    match r.status
    case Accepted =>
      s.(accepted := s.accepted + 1,
         doubleAccept := s.doubleAccept + (if expected != 0 then 1 else 0),
         wrongChoice := s.wrongChoice + (if r.choice != a.Choice() then 1 else 0))
    case Duplicate =>
      s.(unexpectedDuplicate := s.unexpectedDuplicate + (if !a.repeated || expected == 0 then 1 else 0),
         wrongChoice := s.wrongChoice + (if r.choice != expected then 1 else 0))
    case _ => s
  }

  function Alarms(s: World): nat {
    s.wrongChoice + s.doubleAccept + s.unexpectedDuplicate
  }

  /** An acceptance or a duplicate raises no alarm exactly if it is the one that the key's recorded choice calls for. */
  lemma AlarmMeans(s: World, a: Attempt, r: EngineTable.Result, expected: nat)
    requires r.status == EngineTable.Accepted || r.status == EngineTable.Duplicate
    ensures Alarms(Counted(s, a, r, expected)) == Alarms(s)
            <==> if expected == 0 then r.status == EngineTable.Accepted && r.choice == a.Choice()
                 else a.repeated && r.status == EngineTable.Duplicate && r.choice == expected
  {
  }

  function Apply(l: Layout, token: Tokens, s: World, move: Label): World
    requires l.Valid() && Enabled(l, token, s, move)
  {
    var w := s.workers[move.worker];
    var t := s.(workers := s.workers[move.worker := NextWorker(w, move)]);
    match move
    case Submit(_, a, r) => t.(votes := Stored(token, s.votes, a, r))
    case Look(_) => Counted(t, w.phase.a, w.phase.result, ChoiceOf(s.memory.bytes, w.phase.a.key))
    case Load(id) => t.(memory := Perform(s.memory, Read(id, w.phase.a.key, w.phase.a.Choice())))
    case Store(id) => t.(memory := Perform(s.memory, Write(id)))
  }

  ghost predicate Step(l: Layout, token: Tokens, s: World, t: World)
    requires l.Valid()
  {
    exists move :: Enabled(l, token, s, move) && t == Apply(l, token, s, move)
  }

  ghost predicate IsRun(l: Layout, token: Tokens, run: seq<World>) {
    && l.Valid() && Injective(token, l.keys)
    && run != [] && run[0] == Initial(l)
    && forall i | 0 <= i < |run| - 1 :: Step(l, token, run[i], run[i + 1])
  }

  // ------------------------------------------------------------ invariant

  /** The worker's attempt was accepted and its choice is not yet in the bitmap. */
  predicate Carries(p: Phase) {
    (p.Answered? && p.result.status == EngineTable.Accepted) || p.Recording? || p.Storing?
  }

  /** The choice of a key that the bitmap has or will have when its worker is done with its attempt. */
  function Choice(p: Phase, recorded: nat, key: nat): nat {
    if Carries(p) && p.a.key == key then p.a.Choice() else recorded
  }

  ghost predicate KeyOk(w: Worker, recorded: nat, votes: Votes, token: Token, key: nat) {
    && (Carries(w.phase) && w.phase.a.key == key ==> recorded == 0)
    && var c := Choice(w.phase, recorded, key);
    && (token in votes <==> c != 0)
    && (token in votes ==> votes[token] == c)
    && (c != 0 ==> c <= 2 && w.last.Some? && key <= w.last.value.key)
  }

  ghost predicate WorkerOk(l: Layout, token: Tokens, votes: Votes, w: Worker, id: nat)
    requires l.Valid()
  {
    && (w.last.Some? ==> w.last.value.key < l.keys && l.Owner(w.last.value.key) == id)
    && (w.phase != Idle ==> w.last == Some(w.phase.a))
    && (w.phase.Answered? && w.phase.result.status == EngineTable.Accepted ==> w.phase.result.choice == w.phase.a.Choice())
    && (w.phase.Answered? && w.phase.result.status == EngineTable.Duplicate ==>
          && w.phase.a.repeated && token(w.phase.a.key) in votes
          && votes[token(w.phase.a.key)] == w.phase.result.choice)
  }

  ghost predicate PendingOk(m: Memory, w: Worker, id: nat) {
    && (id in m.pending <==> w.phase.Storing?)
    && (id in m.pending ==> m.pending[id].key == w.phase.a.key && m.pending[id].choice == w.phase.a.Choice())
  }

  ghost predicate MemoryOk(l: Layout, s: World) {
    && Owned(l, s.memory) && Untorn(l, s.memory)
    && |s.workers| == l.workers
    && (forall id: nat | id < |s.workers| :: PendingOk(s.memory, s.workers[id], id))
  }

  ghost predicate KeysOk(l: Layout, token: Tokens, s: World)
    requires l.Valid() && |s.workers| == l.workers && |s.memory.bytes| == (l.keys + 3) / 4
  {
    && (forall k: nat | k < l.keys :: KeyOk(s.workers[l.Owner(k)], ChoiceOf(s.memory.bytes, k), s.votes, token(k), k))
    && (forall t | t in s.votes :: exists k: nat :: k < l.keys && token(k) == t)
  }

  /** The workers whose acceptance is not yet counted. */
  ghost function Uncounted(workers: seq<Worker>): set<nat> {
    set id: nat | id < |workers| && workers[id].phase.Answered? && workers[id].phase.result.status == EngineTable.Accepted
  }

  ghost predicate CountersOk(s: World) {
    && |s.votes| == s.accepted + |Uncounted(s.workers)|
    && s.wrongChoice == s.doubleAccept == s.unexpectedDuplicate == 0
  }

  ghost predicate Inv(l: Layout, token: Tokens, s: World) {
    && MemoryOk(l, s)
    && (forall id: nat | id < |s.workers| :: WorkerOk(l, token, s.votes, s.workers[id], id))
    && KeysOk(l, token, s)
    && CountersOk(s)
  }

  lemma InitialInv(l: Layout, token: Tokens)
    requires l.Valid()
    ensures Inv(l, token, Initial(l))
  {
    var s := Initial(l);
    ZeroByte();
    assert Uncounted(s.workers) == {};
    assert Owned(l, s.memory) && Untorn(l, s.memory);
  }

  // ---------------------------------------------------- every step keeps it

  lemma UncountedChange(workers: seq<Worker>, id: nat, w: Worker)
    requires id < |workers|
    ensures id in Uncounted(workers) ==> Uncounted(workers[id := w]) - {id} == Uncounted(workers) - {id}
    ensures |Uncounted(workers[id := w])|
         == |Uncounted(workers) - {id}| + (if w.phase.Answered? && w.phase.result.status == EngineTable.Accepted then 1 else 0)
    ensures |Uncounted(workers)|
         == |Uncounted(workers) - {id}|
            + (if workers[id].phase.Answered? && workers[id].phase.result.status == EngineTable.Accepted then 1 else 0)
  {
    var before, after := Uncounted(workers), Uncounted(workers[id := w]);
    assert before - {id} == after - {id};
    assert id in before ==> before == (before - {id}) + {id};
    assert id !in before ==> before == before - {id};
    assert id in after ==> after == (after - {id}) + {id};
    assert id !in after ==> after == after - {id};
  }

  /** What the step's own worker and its key's bits must satisfy for all keys to be right after it. */
  lemma KeysKeep(l: Layout, token: Tokens, s: World, t: World, id: nat, a: Attempt)
    requires l.Valid() && |s.workers| == l.workers && |s.memory.bytes| == (l.keys + 3) / 4 && KeysOk(l, token, s)
    requires Injective(token, l.keys) && id < |s.workers| && a.key < l.keys && l.Owner(a.key) == id
    requires |t.memory.bytes| == |s.memory.bytes| && |t.workers| == |s.workers| && t.workers == s.workers[id := t.workers[id]]
    requires t.votes == s.votes || (token(a.key) !in s.votes && t.votes == s.votes[token(a.key) := a.Choice()])
    requires forall k: nat | k < l.keys && k != a.key :: ChoiceOf(t.memory.bytes, k) == ChoiceOf(s.memory.bytes, k)
    requires Carries(s.workers[id].phase) ==> s.workers[id].phase.a == a
    requires Carries(t.workers[id].phase) ==> t.workers[id].phase.a == a
    requires s.workers[id].last.Some? ==> t.workers[id].last.Some? && s.workers[id].last.value.key <= t.workers[id].last.value.key
    requires KeyOk(t.workers[id], ChoiceOf(t.memory.bytes, a.key), t.votes, token(a.key), a.key)
    ensures KeysOk(l, token, t)
  {
    hide ChoiceOf, Layout.Owner;
    forall k: nat | k < l.keys ensures KeyOk(t.workers[l.Owner(k)], ChoiceOf(t.memory.bytes, k), t.votes, token(k), k) {
      assert KeyOk(s.workers[l.Owner(k)], ChoiceOf(s.memory.bytes, k), s.votes, token(k), k);
      if k != a.key { assert token(k) != token(a.key); }
    }
  }

  /** The key of the attempt a step is about. */
  function AttemptOf(s: World, move: Label): Attempt
    requires move.worker < |s.workers| && (move.Submit? || s.workers[move.worker].phase != Idle)
  {
    match move
    case Submit(_, a, _) => a
    case _ => s.workers[move.worker].phase.a
  }

  lemma OwnWorker(l: Layout, token: Tokens, s: World, move: Label)
    requires l.Valid() && Inv(l, token, s) && Enabled(l, token, s, move)
    ensures move.Submit? || s.workers[move.worker].phase != Idle
    ensures var a, w := AttemptOf(s, move), s.workers[move.worker];
      && a.key < l.keys && l.Owner(a.key) == move.worker && a.key / 4 < |s.memory.bytes|
      && WorkerOk(l, token, s.votes, w, move.worker) && PendingOk(s.memory, w, move.worker)
      && KeyOk(w, ChoiceOf(s.memory.bytes, a.key), s.votes, token(a.key), a.key)
  {
    hide ChoiceOf, Layout.Owner, Untorn, Uncounted;
  }

  /** What a step changes: its own worker, and the engine when it accepts a new token. */
  lemma StepShape(l: Layout, token: Tokens, s: World, move: Label)
    requires l.Valid() && Inv(l, token, s) && Enabled(l, token, s, move)
    ensures move.Submit? || s.workers[move.worker].phase != Idle
    ensures var t, a, id := Apply(l, token, s, move), AttemptOf(s, move), move.worker;
      && |t.workers| == |s.workers| && t.workers == s.workers[id := t.workers[id]]
      && (t.votes == s.votes || (token(a.key) !in s.votes && t.votes == s.votes[token(a.key) := a.Choice()]))
  {
    ActsOnOne(l, token, s, move);
    ActsOnVotes(l, token, s, move);
    hide *;
  }

  lemma ActsOnVotes(l: Layout, token: Tokens, s: World, move: Label)
    requires l.Valid() && Enabled(l, token, s, move)
    ensures var t, a := Apply(l, token, s, move), AttemptOf(s, move);
      t.votes == s.votes || (token(a.key) !in s.votes && t.votes == s.votes[token(a.key) := a.Choice()])
  {
    hide Layout.Owner, ChoiceOf, Perform, Follows, NextWorker, Counted;
    match move {
      case Submit(_, a, r) =>
      case _ => hide Answers, Stored;
    }
  }

  lemma ActsOnOne(l: Layout, token: Tokens, s: World, move: Label)
    requires l.Valid() && Enabled(l, token, s, move)
    ensures move.Submit? || s.workers[move.worker].phase != Idle
    ensures var t := Apply(l, token, s, move); t.workers == s.workers[move.worker := NextWorker(s.workers[move.worker], move)]
  {
    hide Layout.Owner, ChoiceOf, Perform, Follows, NextWorker, Counted, Answers, Stored;
  }

  /** A worker's attempts go up, and it carries only the one it is at. */
  lemma PlaceStep(l: Layout, token: Tokens, s: World, move: Label)
    requires l.Valid() && Inv(l, token, s) && Enabled(l, token, s, move)
    ensures move.Submit? || s.workers[move.worker].phase != Idle
    ensures var w, n, a := s.workers[move.worker], Apply(l, token, s, move).workers[move.worker], AttemptOf(s, move);
      && (Carries(w.phase) ==> w.phase.a == a) && (Carries(n.phase) ==> n.phase.a == a)
      && (w.last.Some? ==> n.last.Some? && w.last.value.key <= n.last.value.key)
  {
    OwnWorker(l, token, s, move);
    var w := s.workers[move.worker];
    assert w.phase != Idle ==> w.last == Some(w.phase.a);
    hide ChoiceOf, Layout.Owner, Inv, PendingOk, Perform, WorkerOk, KeyOk, Answers, Stored;
  }

  lemma MemoryStep(l: Layout, s: World, id: nat, w: Worker, access: Access)
    requires l.Valid() && MemoryOk(l, s) && id < |s.workers| && access.worker == id && Allowed(l, s.memory, access)
    requires PendingOk(Perform(s.memory, access), w, id)
    ensures MemoryOk(l, s.(memory := Perform(s.memory, access), workers := s.workers[id := w]))
  {
    NoLostChoice(l, s.memory, access);
    hide Owned, Untorn, ChoiceOf, Layout.Owner, PutChoice;
  }

  /** The bitmap and its writes in flight. */
  lemma MemoryKeeps(l: Layout, token: Tokens, s: World, move: Label)
    requires l.Valid() && Inv(l, token, s) && Enabled(l, token, s, move)
    ensures var t, a := Apply(l, token, s, move), AttemptOf(s, move);
      && MemoryOk(l, t)
      && (forall k: nat | k < l.keys :: ChoiceOf(t.memory.bytes, k)
            == if move.Store? && k == a.key then a.Choice() else ChoiceOf(s.memory.bytes, k))
  {
    OwnWorker(l, token, s, move);
    hide ChoiceOf, Layout.Owner, KeysOk, WorkerOk, CountersOk, KeyOk, Untorn, PutChoice;
    var w := s.workers[move.worker];
    if move.Load? {
      NoLostChoice(l, s.memory, Read(move.worker, w.phase.a.key, w.phase.a.Choice()));
      MemoryStep(l, s, move.worker, w.(phase := Storing(w.phase.a)), Read(move.worker, w.phase.a.key, w.phase.a.Choice()));
    } else if move.Store? {
      NoLostChoice(l, s.memory, Write(move.worker));
      MemoryStep(l, s, move.worker, w.(phase := Idle), Write(move.worker));
    } else {
      assert !w.phase.Storing?;
    }
  }

  /** A submission: an original's token is new to the engine, so only a repeat can be a duplicate. */
  lemma SubmitKeeps(l: Layout, token: Tokens, votes: Votes, w: Worker, recorded: nat, id: nat, a: Attempt, r: EngineTable.Result)
    requires l.Valid() && a.key < l.keys && l.Owner(a.key) == id
    requires w.phase == Idle && KeyOk(w, recorded, votes, token(a.key), a.key)
    requires Follows(w.last, a) && Answers(token, votes, a, r)
    ensures WorkerOk(l, token, Stored(token, votes, a, r), Worker(Answered(a, r), Some(a)), id)
    ensures KeyOk(Worker(Answered(a, r), Some(a)), recorded, Stored(token, votes, a, r), token(a.key), a.key)
  {
    hide Layout.Owner;
  }

  /** The expected choice is what the engine answered, and no counter of the response invariants moves. */
  lemma LookKeeps(l: Layout, token: Tokens, votes: Votes, w: Worker, recorded: nat, id: nat)
    requires l.Valid() && WorkerOk(l, token, votes, w, id) && w.phase.Answered?
    requires KeyOk(w, recorded, votes, token(w.phase.a.key), w.phase.a.key)
    ensures var a, r := w.phase.a, w.phase.result;
      var n := w.(phase := if r.status == EngineTable.Accepted then Recording(a) else Idle);
      && WorkerOk(l, token, votes, n, id) && KeyOk(n, recorded, votes, token(a.key), a.key)
      && (r.status == EngineTable.Accepted ==> recorded == 0 && r.choice == a.Choice())
      && (r.status == EngineTable.Duplicate ==> a.repeated && recorded != 0 && r.choice == recorded)
  {
    hide Layout.Owner;
  }

  /** The step's own worker, its key with these bits recorded, and the counters of the response invariants. */
  ghost predicate OwnOk(l: Layout, token: Tokens, t: World, id: nat, a: Attempt, recorded: nat)
    requires l.Valid()
  {
    && id < |t.workers| && WorkerOk(l, token, t.votes, t.workers[id], id)
    && KeyOk(t.workers[id], recorded, t.votes, token(a.key), a.key)
    && t.wrongChoice == t.doubleAccept == t.unexpectedDuplicate == 0
  }

  lemma OwnSubmit(l: Layout, token: Tokens, s: World, id: nat, a: Attempt, r: EngineTable.Result)
    requires l.Valid() && Inv(l, token, s) && Enabled(l, token, s, Submit(id, a, r))
    ensures a.key / 4 < |s.memory.bytes|
    ensures OwnOk(l, token, Apply(l, token, s, Submit(id, a, r)), id, a, ChoiceOf(s.memory.bytes, a.key))
  {
    OwnWorker(l, token, s, Submit(id, a, r));
    NoAlarmYet(l, token, s);
    hide ChoiceOf, Layout.Owner, Inv, WorkerOk, KeyOk, Answers, Stored, PendingOk;
    SubmitKeeps(l, token, s.votes, s.workers[id], ChoiceOf(s.memory.bytes, a.key), id, a, r);
  }

  lemma OwnLook(l: Layout, token: Tokens, s: World, id: nat)
    requires l.Valid() && Inv(l, token, s) && Enabled(l, token, s, Look(id))
    ensures var a := s.workers[id].phase.a;
      a.key / 4 < |s.memory.bytes| && OwnOk(l, token, Apply(l, token, s, Look(id)), id, a, ChoiceOf(s.memory.bytes, a.key))
  {
    OwnWorker(l, token, s, Look(id));
    NoAlarmYet(l, token, s);
    hide ChoiceOf, Layout.Owner, Inv, WorkerOk, KeyOk, PendingOk;
    LookKeeps(l, token, s.votes, s.workers[id], ChoiceOf(s.memory.bytes, s.workers[id].phase.a.key), id);
  }

  /** setChoice's read, and its write with the choice it carried. */
  lemma RecordKeeps(l: Layout, token: Tokens, votes: Votes, w: Worker, recorded: nat, id: nat)
    requires l.Valid() && WorkerOk(l, token, votes, w, id) && (w.phase.Recording? || w.phase.Storing?)
    requires KeyOk(w, recorded, votes, token(w.phase.a.key), w.phase.a.key)
    ensures var a := w.phase.a;
      && WorkerOk(l, token, votes, w.(phase := Storing(a)), id) && KeyOk(w.(phase := Storing(a)), recorded, votes, token(a.key), a.key)
      && WorkerOk(l, token, votes, w.(phase := Idle), id) && KeyOk(w.(phase := Idle), a.Choice(), votes, token(a.key), a.key)
  {
    hide Layout.Owner;
  }

  lemma OwnRecord(l: Layout, token: Tokens, s: World, move: Label)
    requires l.Valid() && Inv(l, token, s) && Enabled(l, token, s, move) && (move.Load? || move.Store?)
    ensures var a := s.workers[move.worker].phase.a;
      && a.key / 4 < |s.memory.bytes|
      && OwnOk(l, token, Apply(l, token, s, move), move.worker, a, if move.Store? then a.Choice() else ChoiceOf(s.memory.bytes, a.key))
  {
    OwnWorker(l, token, s, move);
    NoAlarmYet(l, token, s);
    hide ChoiceOf, Layout.Owner, Inv, WorkerOk, KeyOk, PendingOk, Perform;
    RecordKeeps(l, token, s.votes, s.workers[move.worker], ChoiceOf(s.memory.bytes, s.workers[move.worker].phase.a.key), move.worker);
  }

  lemma NoAlarmYet(l: Layout, token: Tokens, s: World)
    requires l.Valid() && Inv(l, token, s)
    ensures s.wrongChoice == s.doubleAccept == s.unexpectedDuplicate == 0
  {
    hide MemoryOk, KeysOk, WorkerOk, Uncounted;
  }

  lemma OwnKeeps(l: Layout, token: Tokens, s: World, move: Label)
    requires l.Valid() && Inv(l, token, s) && Enabled(l, token, s, move)
    ensures move.Submit? || s.workers[move.worker].phase != Idle
    ensures AttemptOf(s, move).key / 4 < |s.memory.bytes|
    ensures var t, a := Apply(l, token, s, move), AttemptOf(s, move);
      OwnOk(l, token, t, move.worker, a, if move.Store? then a.Choice() else ChoiceOf(s.memory.bytes, a.key))
  {
    OwnWorker(l, token, s, move);
    hide ChoiceOf, Layout.Owner, Inv, OwnOk, Apply, WorkerOk, KeyOk, PendingOk, Answers, Follows;
    match move {
      case Submit(id, a, r) => OwnSubmit(l, token, s, id, a, r);
      case Look(id) => OwnLook(l, token, s, id);
      case _ => OwnRecord(l, token, s, move);
    }
  }

  /** The other workers: an answer that a token is a duplicate stays true. */
  lemma OthersKeep(l: Layout, token: Tokens, votes: Votes, more: Votes, w: Worker, id: nat)
    requires l.Valid() && WorkerOk(l, token, votes, w, id) && votes.Keys <= more.Keys && forall t | t in votes :: more[t] == votes[t]
    ensures WorkerOk(l, token, more, w, id)
  {
    hide Layout.Owner;
  }

  lemma VotesCounted(l: Layout, token: Tokens, s: World, move: Label)
    requires l.Valid() && Inv(l, token, s) && Enabled(l, token, s, move)
    ensures var t := Apply(l, token, s, move); |t.votes| == t.accepted + |Uncounted(t.workers)|
  {
    var t := Apply(l, token, s, move);
    UncountedChange(s.workers, move.worker, t.workers[move.worker]);
    hide ChoiceOf, Layout.Owner, KeysOk, MemoryOk, Uncounted, WorkerOk;
  }

  lemma WorkersKeep(l: Layout, token: Tokens, s: World, t: World, id: nat, a: Attempt, recorded: nat)
    requires l.Valid() && id < |s.workers| == |t.workers| && t.workers == s.workers[id := t.workers[id]]
    requires t.votes == s.votes || (token(a.key) !in s.votes && t.votes == s.votes[token(a.key) := a.Choice()])
    requires OwnOk(l, token, t, id, a, recorded)
    requires forall i: nat | i < |s.workers| :: WorkerOk(l, token, s.votes, s.workers[i], i)
    ensures forall i: nat | i < |t.workers| :: WorkerOk(l, token, t.votes, t.workers[i], i)
  {
    hide WorkerOk, KeyOk, Layout.Owner;
    forall i: nat | i < |t.workers| ensures WorkerOk(l, token, t.votes, t.workers[i], i) {
      if i != id { OthersKeep(l, token, s.votes, t.votes, s.workers[i], i); }
    }
  }

  lemma KeysStep(l: Layout, token: Tokens, s: World, move: Label)
    requires l.Valid() && Injective(token, l.keys) && Inv(l, token, s) && Enabled(l, token, s, move)
    ensures var t := Apply(l, token, s, move);
      |t.workers| == l.workers && |t.memory.bytes| == (l.keys + 3) / 4 && KeysOk(l, token, t)
  {
    StepShape(l, token, s, move);
    PlaceStep(l, token, s, move);
    MemoryKeeps(l, token, s, move);
    OwnKeeps(l, token, s, move);
    OwnWorker(l, token, s, move);
    var t, a := Apply(l, token, s, move), AttemptOf(s, move);
    SameBytes(l, s, t);
    assert KeysOk(l, token, s);
    hide Inv, Apply, Enabled, ChoiceOf, Layout.Owner, WorkerOk, KeyOk, PendingOk, MemoryOk, KeysOk, AttemptOf, Injective;
    KeysKeep(l, token, s, t, move.worker, a);
  }

  lemma WorkersStep(l: Layout, token: Tokens, s: World, move: Label)
    requires l.Valid() && Inv(l, token, s) && Enabled(l, token, s, move)
    ensures var t := Apply(l, token, s, move);
      && (forall i: nat | i < |t.workers| :: WorkerOk(l, token, t.votes, t.workers[i], i))
      && t.wrongChoice == t.doubleAccept == t.unexpectedDuplicate == 0
  {
    StepShape(l, token, s, move);
    OwnKeeps(l, token, s, move);
    var t, a := Apply(l, token, s, move), AttemptOf(s, move);
    assert forall i: nat | i < |s.workers| :: WorkerOk(l, token, s.votes, s.workers[i], i);
    hide Inv, Apply, ChoiceOf, Layout.Owner, WorkerOk, KeyOk, AttemptOf;
    WorkersKeep(l, token, s, t, move.worker, a, if move.Store? then a.Choice() else ChoiceOf(s.memory.bytes, a.key));
  }

  lemma StepKeeps(l: Layout, token: Tokens, s: World, move: Label)
    requires l.Valid() && Injective(token, l.keys) && Inv(l, token, s) && Enabled(l, token, s, move)
    ensures Inv(l, token, Apply(l, token, s, move))
  {
    hide Apply, Enabled, Layout.Owner, WorkerOk, MemoryOk, Uncounted, KeysOk, Injective;
    var t := Apply(l, token, s, move);
    assert MemoryOk(l, t) by { MemoryKeeps(l, token, s, move); }
    WorkersStep(l, token, s, move);
    assert |t.workers| == l.workers && |t.memory.bytes| == (l.keys + 3) / 4 && KeysOk(l, token, t) by {
      KeysStep(l, token, s, move);
    }
    VotesCounted(l, token, s, move);
  }

  lemma SameBytes(l: Layout, s: World, t: World)
    requires MemoryOk(l, s) && MemoryOk(l, t)
    ensures |s.memory.bytes| == |t.memory.bytes| == (l.keys + 3) / 4
    ensures |s.workers| == |t.workers| == l.workers
  {
  }

  // -------------------------------------------------------------- every run

  lemma {:induction false} RunKeeps(l: Layout, token: Tokens, run: seq<World>, i: nat)
    requires IsRun(l, token, run) && i < |run|
    ensures Inv(l, token, run[i])
    decreases i
  {
    hide Inv, Initial, Apply, Enabled, Injective;
    if i == 0 {
      InitialInv(l, token);
    } else {
      RunKeeps(l, token, run, i - 1);
      assert Step(l, token, run[i - 1], run[i - 1 + 1]);
      var move :| Enabled(l, token, run[i - 1], move) && run[i] == Apply(l, token, run[i - 1], move);
      StepKeeps(l, token, run[i - 1], move);
    }
  }

  /** A right engine never makes a worker report a wrong choice, a double acceptance or an unexpected duplicate. */
  lemma NoFalseAlarm(l: Layout, token: Tokens, run: seq<World>, i: nat)
    requires IsRun(l, token, run) && i < |run|
    ensures run[i].wrongChoice == run[i].doubleAccept == run[i].unexpectedDuplicate == 0
  {
    RunKeeps(l, token, run, i);
    hide IsRun, MemoryOk, KeysOk, WorkerOk, Uncounted;
  }

  /** A key's bits are its vote, 1 or 2. */
  ghost predicate Matches(bitmap: seq<bv8>, token: Tokens, votes: Votes, k: nat)
    requires k / 4 < |bitmap|
  {
    var c := ChoiceOf(bitmap, k);
    c <= 2 && (token(k) in votes <==> c != 0) && (c != 0 ==> votes[token(k)] == c)
  }

  lemma IdleKey(l: Layout, token: Tokens, s: World, k: nat)
    requires l.Valid() && MemoryOk(l, s) && KeysOk(l, token, s) && k < l.keys && s.workers[l.Owner(k)].phase == Idle
    ensures k / 4 < |s.memory.bytes| && Matches(s.memory.bytes, token, s.votes, k)
  {
    hide ChoiceOf, Untorn, Layout.Owner;
    assert |s.memory.bytes| == (l.keys + 3) / 4;
    assert KeyOk(s.workers[l.Owner(k)], ChoiceOf(s.memory.bytes, k), s.votes, token(k), k);
  }

  lemma MatchedIsExact(keys: nat, token: Tokens, bitmap: seq<bv8>, votes: Votes)
    requires |bitmap| == (keys + 3) / 4 && Injective(token, keys) && forall k: nat | k < keys :: Matches(bitmap, token, votes, k)
    requires forall t | t in votes :: exists k: nat :: k < keys && token(k) == t
    ensures Exactly(bitmap, keys, token, votes) && |Expected(bitmap, keys)| == |votes|
    ensures forall k | k in Expected(bitmap, keys) :: ChoiceOf(bitmap, k) <= 2
  {
    hide ChoiceOf, Injective;
    forall k: nat | k < keys
      ensures ChoiceOf(bitmap, k) <= 2 && (token(k) in votes <==> ChoiceOf(bitmap, k) != 0)
      ensures ChoiceOf(bitmap, k) != 0 ==> votes[token(k)] == ChoiceOf(bitmap, k)
    {
      assert Matches(bitmap, token, votes, k);
    }
    hide Matches;
    assert Exactly(bitmap, keys, token, votes);
    hide Exactly;
    ExactByCounting(bitmap, keys, token, votes);
  }

  /**
   * When the workers of any run are done, the bitmap describes exactly the engine's votes, all counted: what
   * the audit demands besides a closed engine.
   */
  lemma FinishedAudits(l: Layout, token: Tokens, run: seq<World>, i: nat)
    requires IsRun(l, token, run) && i < |run| && forall id: nat | id < |run[i].workers| :: run[i].workers[id].phase == Idle
    ensures var s := run[i];
      && |s.memory.bytes| == (l.keys + 3) / 4
      && Exactly(s.memory.bytes, l.keys, token, s.votes)
      && s.accepted == |Expected(s.memory.bytes, l.keys)| == |s.votes|
      && forall k | k in Expected(s.memory.bytes, l.keys) :: ChoiceOf(s.memory.bytes, k) <= 2
  {
    RunKeeps(l, token, run, i);
    IdleAudits(l, token, run[i]);
  }

  lemma IdleAudits(l: Layout, token: Tokens, s: World)
    requires l.Valid() && Injective(token, l.keys) && Inv(l, token, s) && forall id: nat | id < |s.workers| :: s.workers[id].phase == Idle
    ensures |s.memory.bytes| == (l.keys + 3) / 4
    ensures Exactly(s.memory.bytes, l.keys, token, s.votes)
    ensures s.accepted == |Expected(s.memory.bytes, l.keys)| == |s.votes|
    ensures forall k | k in Expected(s.memory.bytes, l.keys) :: ChoiceOf(s.memory.bytes, k) <= 2
  {
    AllCounted(s);
    SameBytes(l, s, s);
    hide ChoiceOf, Layout.Owner, MemoryOk, KeyOk, WorkerOk, CountersOk, Exactly, Expected, Injective;
    forall k: nat | k < l.keys ensures k / 4 < |s.memory.bytes| && Matches(s.memory.bytes, token, s.votes, k) {
      IdleKey(l, token, s, k);
    }
    hide Matches;
    MatchedIsExact(l.keys, token, s.memory.bytes, s.votes);
  }

  lemma AllCounted(s: World)
    requires CountersOk(s) && forall id: nat | id < |s.workers| :: s.workers[id].phase == Idle
    ensures s.accepted == |s.votes|
  {
    assert Uncounted(s.workers) == {};
  }

  // ------------------------------------------------- what a worker can do

  lemma Extend(l: Layout, token: Tokens, run: seq<World>, move: Label) returns (more: seq<World>)
    requires IsRun(l, token, run) && Enabled(l, token, run[|run| - 1], move)
    ensures IsRun(l, token, more) && |more| > 1 && more[|more| - 1] == Apply(l, token, run[|run| - 1], move)
  {
    hide Enabled, Apply, Initial, Injective;
    more := run + [Apply(l, token, run[|run| - 1], move)];
    forall i | 0 <= i < |more| - 1 ensures Step(l, token, more[i], more[i + 1]) {
      if i < |run| - 1 { assert Step(l, token, run[i], run[i + 1]); } else { assert Enabled(l, token, more[i], move); }
    }
  }

  /** The worker is between attempts, after this one. */
  ghost predicate Rests(s: World, id: nat, last: Option<Attempt>) {
    id < |s.workers| && s.workers[id] == Worker(Idle, last)
  }

  /** An original that the engine accepts is counted and recorded. */
  lemma CanRecord(l: Layout, token: Tokens, run: seq<World>, id: nat, last: Option<Attempt>, key: nat) returns (more: seq<World>)
    requires IsRun(l, token, run) && Rests(run[|run| - 1], id, last) && key < l.keys && l.Owner(key) == id
    requires (last.Some? ==> last.value.key < key) && token(key) !in run[|run| - 1].votes
    ensures IsRun(l, token, more)
    ensures var s, t := run[|run| - 1], more[|more| - 1];
      && Rests(t, id, Some(Attempt(key, false))) && t.votes == s.votes[token(key) := 1] && t.accepted == s.accepted + 1
      && key / 4 < |t.memory.bytes| && ChoiceOf(t.memory.bytes, key) == 1
  {
    RunKeeps(l, token, run, |run| - 1);
    var a, r := Attempt(key, false), EngineTable.Result(EngineTable.Accepted, 1);
    BytesHold(l, token, run[|run| - 1], key);
    hide IsRun, Inv, ChoiceOf, Perform, Layout.Owner, Layout.Valid;
    more := Extend(l, token, run, Submit(id, a, r));
    more := Extend(l, token, more, Look(id));
    more := Extend(l, token, more, Load(id));
    more := Extend(l, token, more, Store(id));
    RestedKey(l, token, more, id, key);
  }

  lemma BytesHold(l: Layout, token: Tokens, s: World, key: nat)
    requires Inv(l, token, s) && key < l.keys
    ensures l.Valid() && key / 4 < |s.memory.bytes|
  {
  }

  /** Between attempts the worker's keys have their votes in the bitmap. */
  lemma RestedKey(l: Layout, token: Tokens, run: seq<World>, id: nat, key: nat)
    requires IsRun(l, token, run) && id < |run[|run| - 1].workers| && run[|run| - 1].workers[id].phase == Idle
    requires key < l.keys && l.Valid() && l.Owner(key) == id && token(key) in run[|run| - 1].votes
    ensures var s := run[|run| - 1]; key / 4 < |s.memory.bytes| && ChoiceOf(s.memory.bytes, key) == s.votes[token(key)]
  {
    RunKeeps(l, token, run, |run| - 1);
    IdleKey(l, token, run[|run| - 1], key);
    hide IsRun, Inv, ChoiceOf, Layout.Owner;
  }

  lemma RepeatIsDuplicate(l: Layout, token: Tokens, s: World, id: nat, key: nat)
    requires l.Valid() && Rests(s, id, Some(Attempt(key, false))) && key < l.keys && l.Owner(key) == id && token(key) in s.votes
    ensures var a, r := Attempt(key, true), EngineTable.Result(EngineTable.Duplicate, s.votes[token(key)]);
      && Enabled(l, token, s, Submit(id, a, r))
      && Apply(l, token, s, Submit(id, a, r)) == s.(workers := s.workers[id := Worker(Answered(a, r), Some(a))])
  {
    hide Layout.Owner, Layout.Valid;
  }

  lemma LookAtDuplicate(l: Layout, token: Tokens, s: World, id: nat, a: Attempt, r: EngineTable.Result)
    requires l.Valid() && id < |s.workers| && s.workers[id] == Worker(Answered(a, r), Some(a)) && r.status == EngineTable.Duplicate
    requires a.key / 4 < |s.memory.bytes|
    ensures Enabled(l, token, s, Look(id))
    ensures var t := Apply(l, token, s, Look(id));
      && t.votes == s.votes && t.memory == s.memory && t.accepted == s.accepted && Rests(t, id, Some(a))
  {
    hide ChoiceOf, Layout.Owner, Layout.Valid;
  }

  /** Its repeat can follow at once, is answered as a duplicate of the original, and changes nothing. */
  lemma CanRepeat(l: Layout, token: Tokens, run: seq<World>, id: nat, key: nat) returns (more: seq<World>)
    requires IsRun(l, token, run) && Rests(run[|run| - 1], id, Some(Attempt(key, false))) && key < l.keys && l.Owner(key) == id
    requires token(key) in run[|run| - 1].votes
    ensures IsRun(l, token, more)
    ensures var s, t := run[|run| - 1], more[|more| - 1];
      && Rests(t, id, Some(Attempt(key, true))) && t.votes == s.votes && t.memory == s.memory
      && t.accepted == s.accepted && t.unexpectedDuplicate == t.wrongChoice == 0
  {
    var s := run[|run| - 1];
    RunKeeps(l, token, run, |run| - 1);
    BytesHold(l, token, s, key);
    RepeatIsDuplicate(l, token, s, id, key);
    var a, r := Attempt(key, true), EngineTable.Result(EngineTable.Duplicate, s.votes[token(key)]);
    hide IsRun, Inv, Enabled, Apply, Layout.Owner, Layout.Valid;
    var next := Extend(l, token, run, Submit(id, a, r));
    LookAtDuplicate(l, token, next[|next| - 1], id, a, r);
    hide Rests;
    more := Extend(l, token, next, Look(id));
    NoFalseAlarm(l, token, more, |more| - 1);
  }
}
