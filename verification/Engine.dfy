/** The in-memory engine itself (internal/votecore/engine.go): shards updated in place under their locks. */
module Engine {
  import opened Bits
  import opened Bytes
  import opened Wrappers
  import opened EngineTable

  lemma SubmitKeepsShards(c: Config, hash: Hash, shards: seq<Shard>, sealed: bool, input: Input, now: int)
    requires ShardsOk(c, hash, shards)
    ensures Partition(c, hash, input.token) < |shards|
    ensures var i := Partition(c, hash, input.token);
      ShardsOk(c, hash, shards[i := SubmitNext(c, shards[i], sealed, input, now).0])
  {
    hide Table, FirstChoice, FirstChoiceNext, SubmitResult;
    SubmitRefinesFirstChoice(c, hash, shards, sealed, input, now);
  }

  class Cell {
    var votes: Votes
    const counts: array<nat>
    const capacity: nat

    constructor (capacity: nat)
      ensures votes == map[] && this.capacity == capacity
      ensures fresh(counts) && counts[..] == seq(32, _ => 0)
    {
      votes := map[];
      counts := new nat[32](_ => 0);
      this.capacity := capacity;
    }

    ghost function View(): Shard
      reads this, counts
    {
      Shard(votes, counts[..], capacity)
    }

    /** counts[bit]++ for every selected option, through `mask &= mask - 1`. */
    method Count(choice: u32)
      requires counts.Length == 32
      modifies counts
      ensures counts[..] == CountChoice(old(counts[..]), choice)
    {
      var mask := choice;
      while mask != 0
        invariant 0 <= mask <= choice
        invariant forall b: nat :: Bit(mask, b) ==> Bit(choice, b)
        invariant forall b | 0 <= b < 32 ::
                    counts[b] == old(counts[b]) + (if Bit(choice, b) && !Bit(mask, b) then 1 else 0)
      {
        hide Bit, And, TrailingZeros, Pow2;
        var low := TrailingZeros(mask);
        assert low < 32 by { Pow2Of32(); TrailingZerosBound(mask, 32); }
        TrailingZerosIsLowestBit(mask, 0);
        forall b: nat ensures Bit(And(mask, mask - 1), b) <==> Bit(mask, b) && b != low { ClearLowestBit(mask, b); }
        ClearLowestBit(mask, 0);
        counts[low] := counts[low] + 1;
        mask := And(mask, mask - 1);
      }
      forall b: nat ensures !Bit(0, b) { ZeroHasNoBit(b); }
    }

    /** The part of Submit that runs with the clock inside the window. */
    method Store(input: Input) returns (r: Result)
      requires counts.Length == 32
      modifies this`votes, counts
      ensures r == StoreResult(old(View()), input) && View() == StoreNext(old(View()), input)
    {
      if input.token in votes && votes[input.token] != 0 {
        return Result(Duplicate, votes[input.token]);
      }
      if |votes| >= capacity {
        return Result(CapacityExceeded, 0);
      }
      votes := votes[input.token := input.choice];
      Count(input.choice);
      return Result(Accepted, input.choice);
    }
  }

  class Engine {
    const cfg: Config
    const hash: Hash
    const shards: array<Cell>
    var sealed: bool

    /** The cells and their counters: everything a submission may change besides the seal. */
    ghost function Repr(): set<object>
      reads shards
    {
      (set i | 0 <= i < shards.Length :: shards[i] as object) + (set i | 0 <= i < shards.Length :: shards[i].counts as object)
    }

    ghost function View(): (v: seq<Shard>)
      reads shards, Repr()
      ensures |v| == shards.Length && forall i | 0 <= i < |v| :: v[i] == shards[i].View()
    {
      seq(shards.Length, i requires 0 <= i < shards.Length reads shards, Repr() => shards[i].View())
    }

    ghost predicate Separate()
      reads shards
    {
      && (forall i | 0 <= i < shards.Length :: shards[i].counts.Length == 32)
      && (forall i, j | 0 <= i < j < shards.Length :: shards[i] != shards[j] && shards[i].counts != shards[j].counts)
    }

    ghost predicate Valid()
      reads this, shards, Repr()
    {
      Separate() && cfg.Valid() && shards.Length == cfg.shards && ShardsOk(cfg, hash, View())
    }

    constructor (cfg: Config, hash: Hash)
      requires cfg.Valid()
      ensures Valid() && View() == EmptyShards(cfg) && !sealed
      ensures this.cfg == cfg && this.hash == hash && fresh(shards) && fresh(Repr())
    {
      var cells := NewCells(cfg);
      EmptyShardsOk(cfg, hash);
      hide Partition, ShardOk, And, ShardsOk;
      this.cfg, this.hash, this.shards, sealed := cfg, hash, cells, false;
      new;
      assert View() == EmptyShards(cfg);
    }

    static method NewCells(cfg: Config) returns (cells: array<Cell>)
      requires cfg.Valid()
      ensures fresh(cells) && cells.Length == cfg.shards
      ensures forall k | 0 <= k < cells.Length ::
                fresh(cells[k]) && fresh(cells[k].counts) && cells[k].counts.Length == 32 && cells[k].View() == EmptyShards(cfg)[k]
      ensures forall k, l | 0 <= k < l < cells.Length :: cells[k] != cells[l] && cells[k].counts != cells[l].counts
    {
      hide And;
      var base, extra := cfg.capacity / cfg.shards, cfg.capacity % cfg.shards;
      var made := new Cell?[cfg.shards](_ => null);
      for i := 0 to made.Length
        invariant forall k | 0 <= k < i ::
                    && made[k] != null && fresh(made[k]) && fresh(made[k].counts)
                    && made[k].counts.Length == 32 && made[k].View() == EmptyShards(cfg)[k]
        invariant forall k, l | 0 <= k < l < i :: made[k] != made[l] && made[k].counts != made[l].counts
      {
        var limit := base;
        if i < extra {
          limit := limit + 1;
        }
        made[i] := new Cell(limit);
      }
      cells := new Cell[cfg.shards](i requires 0 <= i < made.Length && made[i] != null reads made => made[i]);
    }

    /** Storing in one shard leaves every other shard as it was. */
    method StoreIn(i: nat, input: Input) returns (r: Result)
      requires Separate() && i < shards.Length
      modifies shards[i], shards[i].counts
      ensures r == StoreResult(old(View())[i], input)
      ensures View() == old(View())[i := StoreNext(old(View())[i], input)]
    {
      hide StoreNext, StoreResult;
      r := shards[i].Store(input);
      assert forall k | 0 <= k < shards.Length && k != i :: shards[k].View() == old(shards[k].View());
    }

    /** Submit with its critical section run without interruption; `now` is the clock read under the lock. */
    method Submit(input: Input, now: int) returns (r: Result)
      requires Valid()
      modifies this`sealed, Repr()
      ensures Valid() && Partition(cfg, hash, input.token) < shards.Length
      ensures var i := Partition(cfg, hash, input.token);
        && r == SubmitResult(cfg, old(View())[i], old(sealed), input, now)
        && sealed == SubmitNext(cfg, old(View())[i], old(sealed), input, now).1
        && View() == old(View())[i := SubmitNext(cfg, old(View())[i], old(sealed), input, now).0]
    {
      SubmitKeepsShards(cfg, hash, View(), sealed, input, now);
      hide Partition, ShardsOk, ValidInput, StoreNext, StoreResult;
      var i := Partition(cfg, hash, input.token);
      assert View()[i := View()[i]] == View();
      if !ValidInput(cfg, input) {
        return Result(Invalid, 0);
      }
      if sealed {
        return Result(Closed, 0);
      }
      if now < cfg.startNS {
        return Result(NotOpen, 0);
      }
      if now >= cfg.endNS {
        sealed := true;
        return Result(Closed, 0);
      }
      r := StoreIn(i, input);
    }

    /** The inner loop of Seal: one shard's counters added to the result. */
    method AddCounts(i: nat, counts: array<nat>)
      requires Separate() && i < shards.Length && counts.Length == 32 && forall k | 0 <= k < shards.Length :: shards[k].counts != counts
      modifies counts
      ensures forall b | 0 <= b < 32 :: counts[b] == old(counts[b]) + shards[i].counts[b]
    {
      for b := 0 to 32
        invariant forall k | 0 <= k < 32 :: counts[k] == old(counts[k]) + (if k < b then shards[i].counts[k] else 0)
      {
        counts[b] := counts[b] + shards[i].counts[b];
      }
    }

    /** One turn of Seal's loop: shard i's votes and counters are added. */
    static lemma SumNext(shards: seq<Shard>, i: nat)
      requires i < |shards| && |shards[i].counts| == 32
      ensures SumVotes(shards[..i + 1]) == SumVotes(shards[..i]) + |shards[i].votes|
      ensures forall b | 0 <= b < 32 :: SumCounts(shards[..i + 1], b) == SumCounts(shards[..i], b) + shards[i].counts[b]
    {
      assert shards[..i + 1][..i] == shards[..i];
    }

    method SumShards() returns (total: nat, counts: array<nat>)
      requires Separate()
      ensures total == SumVotes(View()) && fresh(counts) && counts.Length == 32
      ensures forall b | 0 <= b < 32 :: counts[b] == SumCounts(View(), b)
    {
      ghost var view := View();
      assert view[..0] == [];
      total := 0;
      counts := new nat[32](_ => 0);
      for i := 0 to shards.Length
        invariant View() == view && fresh(counts) && counts.Length == 32
        invariant total == SumVotes(view[..i])
        invariant forall b | 0 <= b < 32 :: counts[b] == SumCounts(view[..i], b)
      {
        hide SumVotes, SumCounts;
        SumNext(view, i);
        total := total + |shards[i].votes|;
        AddCounts(i, counts);
        assert View() == view;
      }
      assert view[..|view|] == view;
    }

    /** Seal run without interruption: None is the still-open error. */
    method Seal(now: int) returns (s: Option<Snapshot>)
      requires Valid()
      modifies this`sealed
      ensures Valid() && View() == old(View())
      ensures s.None? <==> !old(sealed) && now < cfg.endNS
      ensures sealed == (old(sealed) || s.Some?)
      ensures s.Some? ==> SnapshotOf(s.value, Table(View()))
    {
      if !sealed && now < cfg.endNS {
        return None;
      }
      hide ShardsOk, SumVotes, SumCounts, SnapshotOf, Table;
      sealed := true;
      var total, counts := SumShards();
      SumsAreSnapshot(cfg, hash, View(), total, counts[..]);
      s := Some(Snapshot(total, counts[..]));
    }

    method Lookup(token: Token) returns (choice: Option<u32>)
      requires Valid()
      ensures choice == if token in Table(View()) then Some(Table(View())[token]) else None
    {
      PartitionIsRemainder(cfg, hash, token);
      TableLookup(cfg, hash, View(), token);
      hide Partition, Table, ShardOk;
      var i := Partition(cfg, hash, token);
      choice := if token in shards[i].votes then Some(shards[i].votes[token]) else None;
    }
  }
}
