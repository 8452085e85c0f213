/** The sharded first-choice table of internal/votecore/engine.go, as values. */
module EngineTable {
  import opened Bits
  import opened Bytes

  const MINUTE: int := 60_000_000_000

  datatype Config = Config(
    pollID: Token, startNS: int, endNS: int, allowedMask: u32, multiple: bool, shards: nat, capacity: nat)
  {
    predicate Valid() {
      && pollID != ZERO_TOKEN
      && endNS - startNS == MINUTE
      && allowedMask != 0
      && 1 <= shards <= 4096
      && And(shards, shards - 1) == 0
      && shards <= capacity <= 200_000_000
    }
  }

  /** The first eight bytes of SHA-256 over poll ID and token: any function of the token will do. */
  type Hash = Token -> u64

  datatype Input = Input(token: Token, choice: u32)

  datatype Status = Accepted | Duplicate | Closed | NotOpen | Invalid | CapacityExceeded

  datatype Result = Result(status: Status, choice: u32)

  type Votes = map<Token, u32>

  datatype Shard = Shard(votes: Votes, counts: seq<nat>, capacity: nat)

  datatype Snapshot = Snapshot(total: nat, counts: seq<nat>)

  predicate ValidInput(c: Config, i: Input) {
    && i.token != ZERO_TOKEN
    && i.choice != 0
    && And(i.choice, Not32(c.allowedMask)) == 0
    && (c.multiple || OnesCount(i.choice) == 1)
  }

  /** What Submit's check on its input admits. */
  lemma ValidInputMeans(c: Config, i: Input)
    ensures ValidInput(c, i) <==>
            && i.token != ZERO_TOKEN && (exists b: nat :: Bit(i.choice, b)) && SelectsOnly(i.choice, c.allowedMask)
            && (c.multiple || SelectsOne(i.choice))
  {
    ChoiceMeans(i.choice, c.allowedMask, c.multiple);
    hide SelectsOnly, SelectsOne, And, OnesCount;
  }

  function Partition(c: Config, hash: Hash, token: Token): nat
    requires c.shards >= 1
  {
    And(hash(token), c.shards - 1)
  }

  // ------------------------------------------------------------- routing

  lemma {:induction false} PowerOfTwo(n: nat)
    requires n > 0 && And(n, n - 1) == 0
    ensures n == Pow2(TrailingZeros(n))
  {
    if n % 2 == 1 {
      assert (n - 1) / 2 == n / 2;
      AndSelf(n / 2);
    } else {
      assert (n - 1) / 2 == n / 2 - 1;
      PowerOfTwo(n / 2);
    }
  }

  lemma AndHalves(h: nat, m: nat)
    requires h > 0 && m > 0
    ensures And(h, 2 * m - 1) == 2 * And(h / 2, m - 1) + h % 2
  {
    assert (2 * m - 1) / 2 == m - 1 && (2 * m - 1) % 2 == 1;
  }

  /** h shifted right by k bits. */
  function Shifted(h: nat, k: nat): nat {
    if k == 0 then h else Shifted(h / 2, k - 1)
  }

  lemma {:induction false} LowBits(h: nat, k: nat)
    ensures And(h, Pow2(k) - 1) < Pow2(k)
    ensures h == Pow2(k) * Shifted(h, k) + And(h, Pow2(k) - 1)
  {
    hide And;
    AndZero(h);
    AndZero(Pow2(k) - 1);
    if k > 0 {
      var m, q := Pow2(k - 1), Shifted(h / 2, k - 1);
      LowBits(h / 2, k - 1);
      if h > 0 { AndHalves(h, m); } else { AndZero(m - 1); }
      Doubling(h, m, q, And(h / 2, m - 1));
    }
  }

  lemma Doubling(h: nat, m: nat, q: nat, a: nat)
    requires h / 2 == m * q + a
    ensures h == (2 * m) * q + (2 * a + h % 2)
  {
    assert (2 * m) * q == 2 * (m * q);
  }

  lemma AndZero(n: nat)
    ensures And(n, 0) == 0 && And(0, n) == 0
  {
  }

  lemma MulSign(d: int, x: int)
    requires d >= 0
    ensures x >= 1 ==> d * x >= d
    ensures x <= -1 ==> d * x <= -d
  {
  }

  lemma ModUnique(d: nat, q: nat, r: nat)
    requires r < d
    ensures (d * q + r) % d == r
  {
    var n := d * q + r;
    var p := n / d;
    assert n == d * p + n % d;
    assert d * (p - q) == d * p - d * q == r - n % d;
    MulSign(d, p - q);
  }

  /** Masking with Shards-1 is the remainder by Shards that the journal's routing takes of the same hash. */
  lemma PartitionIsRemainder(c: Config, hash: Hash, token: Token)
    requires c.Valid()
    ensures Partition(c, hash, token) == hash(token) % c.shards < c.shards
  {
    var h, k := hash(token), TrailingZeros(c.shards);
    PowerOfTwo(c.shards);
    LowBits(h, k);
    ModUnique(c.shards, Shifted(h, k), And(h, c.shards - 1));
  }

  // ------------------------------------------------------------ counting

  ghost function Choosers(votes: Votes, bit: nat): set<Token> {
    set t | t in votes && Bit(votes[t], bit)
  }

  /** How many tokens' choice includes this option. */
  ghost function Tally(votes: Votes, bit: nat): nat {
    |Choosers(votes, bit)|
  }

  function CountChoice(counts: seq<nat>, choice: u32): seq<nat> {
    seq(|counts|, b requires 0 <= b < |counts| => counts[b] + (if Bit(choice, b) then 1 else 0))
  }

  ghost predicate CountsOk(votes: Votes, counts: seq<nat>) {
    |counts| == 32 && forall b | 0 <= b < 32 :: counts[b] == Tally(votes, b)
  }

  lemma TallyInsert(votes: Votes, token: Token, choice: u32, bit: nat)
    requires token !in votes
    ensures Tally(votes[token := choice], bit) == Tally(votes, bit) + (if Bit(choice, bit) then 1 else 0)
  {
    hide Bit;
    var after := Choosers(votes[token := choice], bit);
    assert token !in Choosers(votes, bit);
    assert after == if Bit(choice, bit) then Choosers(votes, bit) + {token} else Choosers(votes, bit);
  }

  lemma CountsInsert(votes: Votes, counts: seq<nat>, token: Token, choice: u32)
    requires CountsOk(votes, counts) && token !in votes
    ensures CountsOk(votes[token := choice], CountChoice(counts, choice))
  {
    forall b | 0 <= b < 32 ensures CountChoice(counts, choice)[b] == Tally(votes[token := choice], b) {
      TallyInsert(votes, token, choice, b);
    }
  }

  // -------------------------------------------------------------- shards

  ghost predicate ShardOk(c: Config, hash: Hash, s: Shard, i: nat)
    requires c.shards >= 1
  {
    && (forall t | t in s.votes :: Partition(c, hash, t) == i && ValidInput(c, Input(t, s.votes[t])))
    && |s.votes| <= s.capacity
    && CountsOk(s.votes, s.counts)
  }

  ghost predicate ShardsOk(c: Config, hash: Hash, shards: seq<Shard>) {
    && c.Valid()
    && |shards| == c.shards
    && forall i | 0 <= i < |shards| :: ShardOk(c, hash, shards[i], i)
  }

  /** New's split of the capacity: the remainder goes to the first shards, one vote each. */
  function Limit(c: Config, i: nat): nat
    requires c.shards >= 1
  {
    c.capacity / c.shards + (if i < c.capacity % c.shards then 1 else 0)
  }

  function EmptyShards(c: Config): seq<Shard>
    requires c.shards >= 1
  {
    seq(c.shards, i requires 0 <= i < c.shards => Shard(map[], seq(32, _ => 0), Limit(c, i)))
  }

  function SumCapacity(shards: seq<Shard>): nat {
    if shards == [] then 0 else SumCapacity(shards[..|shards| - 1]) + shards[|shards| - 1].capacity
  }

  lemma {:induction false} LimitsSum(c: Config, n: nat, base: nat, extra: nat)
    requires 1 <= c.shards && n <= c.shards && base == c.capacity / c.shards && extra == c.capacity % c.shards
    ensures SumCapacity(EmptyShards(c)[..n]) == n * base + (if n <= extra then n else extra)
  {
    if n > 0 {
      LimitsSum(c, n - 1, base, extra);
      assert EmptyShards(c)[..n][..n - 1] == EmptyShards(c)[..n - 1];
      MulStep(n, base);
    }
  }

  lemma MulStep(n: nat, base: nat)
    requires n > 0
    ensures n * base == (n - 1) * base + base
  {
  }

  lemma Division(n: nat, d: nat)
    requires d > 0
    ensures n == d * (n / d) + n % d && n % d < d
  {
  }

  lemma EmptyShardsOk(c: Config, hash: Hash)
    requires c.Valid()
    ensures ShardsOk(c, hash, EmptyShards(c))
    ensures SumCapacity(EmptyShards(c)) == c.capacity
  {
    hide Partition, And;
    LimitsSum(c, c.shards, c.capacity / c.shards, c.capacity % c.shards);
    Division(c.capacity, c.shards);
    assert EmptyShards(c)[..c.shards] == EmptyShards(c);
    forall b | 0 <= b < 32 ensures Tally(map[], b) == 0 { assert Choosers(map[], b) == {}; }
  }

  /** The table the shards hold together. */
  function Table(shards: seq<Shard>): Votes {
    if shards == [] then map[] else Table(shards[..|shards| - 1]) + shards[|shards| - 1].votes
  }

  function SumVotes(shards: seq<Shard>): nat {
    if shards == [] then 0 else SumVotes(shards[..|shards| - 1]) + |shards[|shards| - 1].votes|
  }

  function SumCounts(shards: seq<Shard>, bit: nat): nat {
    if shards == [] then 0
    else
      var s := shards[|shards| - 1];
      SumCounts(shards[..|shards| - 1], bit) + (if bit < |s.counts| then s.counts[bit] else 0)
  }

  /** The table's entry for a token is its own shard's. */
  lemma {:induction false} TableLookup(c: Config, hash: Hash, shards: seq<Shard>, token: Token)
    requires c.shards >= 1 && forall i | 0 <= i < |shards| :: ShardOk(c, hash, shards[i], i)
    ensures var i := Partition(c, hash, token);
      && (token in Table(shards) <==> i < |shards| && token in shards[i].votes)
      && (token in Table(shards) ==> Table(shards)[token] == shards[i].votes[token])
  {
    hide And;
    if shards != [] {
      TableLookup(c, hash, shards[..|shards| - 1], token);
    }
  }

  lemma DisjointUnion(a: Votes, b: Votes, bit: nat)
    requires a.Keys !! b.Keys
    ensures |a + b| == |a| + |b|
    ensures Tally(a + b, bit) == Tally(a, bit) + Tally(b, bit)
  {
    hide Choosers;
    assert (a + b).Keys == a.Keys + b.Keys;
    assert |(a + b).Keys| == |a.Keys| + |b.Keys|;
    ChoosersUnion(a, b, bit);
  }

  lemma ChoosersUnion(a: Votes, b: Votes, bit: nat)
    requires a.Keys !! b.Keys
    ensures Choosers(a + b, bit) == Choosers(a, bit) + Choosers(b, bit)
    ensures Choosers(a, bit) !! Choosers(b, bit)
  {
    hide Bit;
  }

  lemma NextShardIsDisjoint(c: Config, hash: Hash, init: seq<Shard>, s: Shard)
    requires c.shards >= 1 && forall i | 0 <= i < |init| :: ShardOk(c, hash, init[i], i)
    requires ShardOk(c, hash, s, |init|)
    ensures Table(init).Keys !! s.votes.Keys
  {
    forall t | t in s.votes ensures t !in Table(init) { TableLookup(c, hash, init, t); }
  }

  lemma {:induction false} SumsAreTable(c: Config, hash: Hash, shards: seq<Shard>, bit: nat)
    requires c.shards >= 1 && bit < 32 && forall i | 0 <= i < |shards| :: ShardOk(c, hash, shards[i], i)
    ensures SumVotes(shards) == |Table(shards)|
    ensures SumCounts(shards, bit) == Tally(Table(shards), bit)
  {
    if shards == [] {
      assert Choosers(map[], bit) == {};
    } else {
      var init, s := shards[..|shards| - 1], shards[|shards| - 1];
      assert ShardOk(c, hash, s, |init|) && s.counts[bit] == Tally(s.votes, bit);
      hide ShardOk, Tally;
      SumsAreTable(c, hash, init, bit);
      NextShardIsDisjoint(c, hash, init, s);
      DisjointUnion(Table(init), s.votes, bit);
    }
  }

  /** The snapshot of a sealed table: how many tokens, and per option how many chose it. */
  ghost predicate SnapshotOf(s: Snapshot, votes: Votes) {
    s.total == |votes| && CountsOk(votes, s.counts)
  }

  lemma SumsAreSnapshot(c: Config, hash: Hash, shards: seq<Shard>, total: nat, counts: seq<nat>)
    requires ShardsOk(c, hash, shards) && total == SumVotes(shards)
    requires |counts| == 32 && forall b | 0 <= b < 32 :: counts[b] == SumCounts(shards, b)
    ensures SnapshotOf(Snapshot(total, counts), Table(shards))
  {
    hide ShardOk, SumCounts, Tally, Table;
    SumsAreTable(c, hash, shards, 0);
    forall b | 0 <= b < 32 ensures counts[b] == Tally(Table(shards), b) { SumsAreTable(c, hash, shards, b); }
  }

  // -------------------------------------------- submitting to one table

  /** What a single first-choice map without a capacity answers. */
  function FirstChoice(c: Config, votes: Votes, sealed: bool, input: Input, now: int): Result {
    if !ValidInput(c, input) then Result(Invalid, 0)
    else if sealed then Result(Closed, 0)
    else if now < c.startNS then Result(NotOpen, 0)
    else if now >= c.endNS then Result(Closed, 0)
    else if input.token in votes then Result(Duplicate, votes[input.token])
    else Result(Accepted, input.choice)
  }

  function FirstChoiceNext(c: Config, votes: Votes, sealed: bool, input: Input, now: int): (Votes, bool) {
    (if FirstChoice(c, votes, sealed, input, now).status == Accepted then votes[input.token := input.choice] else votes,
     sealed || (ValidInput(c, input) && now >= c.endNS))
  }

  // --------------------------------------- submitting to the sharded one

  /** The critical section's outcome once the clock was read inside the window. */
  function StoreResult(s: Shard, input: Input): Result {
    if input.token in s.votes && s.votes[input.token] != 0 then Result(Duplicate, s.votes[input.token])
    else if |s.votes| >= s.capacity then Result(CapacityExceeded, 0)
    else Result(Accepted, input.choice)
  }

  function StoreNext(s: Shard, input: Input): Shard {
    if StoreResult(s, input).status == Accepted
    then s.(votes := s.votes[input.token := input.choice], counts := CountChoice(s.counts, input.choice))
    else s
  }

  /** Submit's answer and effect, given the shard that Partition selects. */
  function SubmitResult(c: Config, s: Shard, sealed: bool, input: Input, now: int): Result {
    if !ValidInput(c, input) then Result(Invalid, 0)
    else if sealed then Result(Closed, 0)
    else if now < c.startNS then Result(NotOpen, 0)
    else if now >= c.endNS then Result(Closed, 0)
    else StoreResult(s, input)
  }

  function SubmitNext(c: Config, s: Shard, sealed: bool, input: Input, now: int): (Shard, bool) {
    if !ValidInput(c, input) || sealed || now < c.startNS then (s, sealed)
    else if now >= c.endNS then (s, true)
    else (StoreNext(s, input), false)
  }

  lemma StoreKeeps(c: Config, hash: Hash, s: Shard, input: Input)
    requires c.shards >= 1 && ValidInput(c, input) && ShardOk(c, hash, s, Partition(c, hash, input.token))
    ensures ShardOk(c, hash, StoreNext(s, input), Partition(c, hash, input.token))
  {
    hide CountsOk, Partition;
    if StoreResult(s, input).status == Accepted {
      CountsInsert(s.votes, s.counts, input.token, input.choice);
    }
  }

  lemma ShardUpdate(c: Config, hash: Hash, shards: seq<Shard>, i: nat, s: Shard)
    requires ShardsOk(c, hash, shards) && i < |shards| && ShardOk(c, hash, s, i)
    ensures ShardsOk(c, hash, shards[i := s])
  {
    hide ShardOk;
  }

  lemma ElsewhereAbsent(c: Config, hash: Hash, shards: seq<Shard>, token: Token)
    requires ShardsOk(c, hash, shards)
    ensures forall k | 0 <= k < |shards| && k != Partition(c, hash, token) :: token !in shards[k].votes
  {
    hide Partition, CountsOk;
    assert forall k | 0 <= k < |shards| :: ShardOk(c, hash, shards[k], k);
  }

  /** Storing a new token in its shard adds exactly that entry to the table. */
  lemma {:induction false} TableInsert(shards: seq<Shard>, i: nat, s: Shard, token: Token, choice: u32)
    requires i < |shards| && s.votes == shards[i].votes[token := choice]
    requires forall k | i < k < |shards| :: token !in shards[k].votes
    ensures Table(shards[i := s]) == Table(shards)[token := choice]
  {
    var n := |shards| - 1;
    if i < n {
      TableInsert(shards[..n], i, s, token, choice);
      assert shards[i := s][..n] == shards[..n][i := s];
    } else {
      assert shards[i := s][..n] == shards[..n];
    }
  }

  /**
   * The sharded engine refines one first-choice map: it answers what that map answers and changes as it
   * does, except that a new token whose shard is full is answered CapacityExceeded and changes nothing.
   */
  lemma SubmitRefinesFirstChoice(c: Config, hash: Hash, shards: seq<Shard>, sealed: bool, input: Input, now: int)
    requires ShardsOk(c, hash, shards)
    ensures Partition(c, hash, input.token) < |shards|
    ensures var i := Partition(c, hash, input.token);
      var (s, sealed') := SubmitNext(c, shards[i], sealed, input, now);
      var result := SubmitResult(c, shards[i], sealed, input, now);
      var plain := FirstChoice(c, Table(shards), sealed, input, now);
      && ShardsOk(c, hash, shards[i := s])
      && (if plain.status == Accepted && |shards[i].votes| >= shards[i].capacity
          then result == Result(CapacityExceeded, 0) && s == shards[i] && !sealed'
          else result == plain && (Table(shards[i := s]), sealed') == FirstChoiceNext(c, Table(shards), sealed, input, now))
  {
    PartitionIsRemainder(c, hash, input.token);
    var i := Partition(c, hash, input.token);
    TableLookup(c, hash, shards, input.token);
    assert ShardOk(c, hash, shards[i], i);
    assert input.token in shards[i].votes ==> shards[i].votes[input.token] != 0;
    assert shards[i := shards[i]] == shards;
    hide Partition, ShardOk, Table, CountChoice;
    if ValidInput(c, input) && !sealed && c.startNS <= now < c.endNS {
      var s := StoreNext(shards[i], input);
      StoreKeeps(c, hash, shards[i], input);
      ShardUpdate(c, hash, shards, i, s);
      if StoreResult(shards[i], input).status == Accepted {
        ElsewhereAbsent(c, hash, shards, input.token);
        TableInsert(shards, i, s, input.token, input.choice);
      }
    }
  }
}
