/**
 * The benchmark's exact audit of the in-memory engine (cmd/corebench/execute.go): parallel strided workers
 * look up every expected key and counting shows there is nothing else in the engine.
 */
module CoreAudit {
  import opened Bits
  import opened Bytes
  import opened Arithmetic
  import opened Sets
  import opened Packed
  import EngineTable

  type Votes = EngineTable.Votes

  /** The key's token: AES encryption of its counter. */
  type Tokens = nat -> Token

  ghost predicate Injective(token: Tokens, keys: nat) {
    forall j: nat, k: nat | j < k < keys :: token(j) != token(k)
  }

  /** The audit counters of one worker, or of all. */
  datatype Part = Part(checked: nat, missing: nat, wrong: nat, first: nat, second: nat)

  datatype Report = Report(correct: bool, sums: Part)

  function Plus(a: Part, b: Part): Part {
    Part(a.checked + b.checked, a.missing + b.missing, a.wrong + b.wrong, a.first + b.first, a.second + b.second)
  }

  /** The keys below n with this expected choice. */
  ghost function Expecting(bitmap: seq<bv8>, n: nat, choice: nat): set<nat>
    requires n <= 4 * |bitmap|
  {
    set k: nat | k < n && ChoiceOf(bitmap, k) == choice
  }

  ghost function Expected(bitmap: seq<bv8>, n: nat): set<nat>
    requires n <= 4 * |bitmap|
  {
    set k: nat | k < n && ChoiceOf(bitmap, k) != 0
  }

  /** The engine holds exactly the expected tokens with their choices. */
  ghost predicate Exactly(bitmap: seq<bv8>, keys: nat, token: Tokens, votes: Votes)
    requires keys <= 4 * |bitmap|
  {
    && (forall k: nat | k < keys && ChoiceOf(bitmap, k) != 0 :: token(k) in votes && votes[token(k)] == ChoiceOf(bitmap, k))
    && (forall t | t in votes :: exists k: nat :: k < keys && ChoiceOf(bitmap, k) != 0 && token(k) == t)
  }

  // ------------------------------------------------ a worker's part of the keys

  ghost function OwnedBelow(l: Layout, w: nat, n: nat): set<nat>
    requires l.Valid()
  {
    set k: nat | k < n && l.Owner(k) == w
  }

  /** The counters of one worker over a set of keys it has looked at. */
  ghost predicate Examined(bitmap: seq<bv8>, keys: nat, token: Tokens, votes: Votes, done: set<nat>, r: Part)
    requires keys <= 4 * |bitmap|
  {
    && r.checked == |done * Expected(bitmap, keys)|
    && r.first == |done * Expecting(bitmap, keys, 1)|
    && r.second == |done * Expecting(bitmap, keys, 2)|
    && (r.missing == 0 && r.wrong == 0 <==> AllFound(bitmap, keys, token, votes, done))
  }

  ghost predicate AllFound(bitmap: seq<bv8>, keys: nat, token: Tokens, votes: Votes, done: set<nat>)
    requires keys <= 4 * |bitmap|
  {
    forall k | k in done && k in Expected(bitmap, keys) :: Found(bitmap, token, votes, k)
  }

  lemma CountAdd<T>(done: set<T>, k: T, x: set<T>)
    requires k !in done
    ensures |(done + {k}) * x| == |done * x| + (if k in x then 1 else 0)
  {
    assert (done + {k}) * x == done * x + if k in x then {k} else {};
  }

  lemma FoundAdd(bitmap: seq<bv8>, keys: nat, token: Tokens, votes: Votes, done: set<nat>, key: nat)
    requires keys <= 4 * |bitmap| && key < keys
    ensures AllFound(bitmap, keys, token, votes, done + {key})
            <==> AllFound(bitmap, keys, token, votes, done) && (ChoiceOf(bitmap, key) != 0 ==> Found(bitmap, token, votes, key))
  {
    hide ChoiceOf, Found;
    assert key in Expected(bitmap, keys) <==> ChoiceOf(bitmap, key) != 0;
    hide Expected;
  }

  /** The engine has the key's token with its choice, which is 1 or 2. */
  predicate Found(bitmap: seq<bv8>, token: Tokens, votes: Votes, k: nat)
    requires k / 4 < |bitmap|
  {
    token(k) in votes && votes[token(k)] == ChoiceOf(bitmap, k) && ChoiceOf(bitmap, k) <= 2
  }

  lemma ExaminedAdd(bitmap: seq<bv8>, keys: nat, token: Tokens, votes: Votes, done: set<nat>, key: nat, part: Part)
    requires keys <= 4 * |bitmap| && key < keys && key !in done && Examined(bitmap, keys, token, votes, done, part)
    ensures forall r: Part ::
              && r.checked == part.checked + (if ChoiceOf(bitmap, key) != 0 then 1 else 0)
              && r.first == part.first + (if ChoiceOf(bitmap, key) == 1 then 1 else 0)
              && r.second == part.second + (if ChoiceOf(bitmap, key) == 2 then 1 else 0)
              && (r.missing == 0 && r.wrong == 0 <==>
                    part.missing == 0 && part.wrong == 0 && (ChoiceOf(bitmap, key) != 0 ==> Found(bitmap, token, votes, key)))
              ==> Examined(bitmap, keys, token, votes, done + {key}, r)
  {
    hide ChoiceOf, AllFound, Found;
    CountAdd(done, key, Expected(bitmap, keys));
    CountAdd(done, key, Expecting(bitmap, keys, 1));
    CountAdd(done, key, Expecting(bitmap, keys, 2));
    FoundAdd(bitmap, keys, token, votes, done, key);
    assert key in Expected(bitmap, keys) <==> ChoiceOf(bitmap, key) != 0;
    assert key in Expecting(bitmap, keys, 1) <==> ChoiceOf(bitmap, key) == 1;
    assert key in Expecting(bitmap, keys, 2) <==> ChoiceOf(bitmap, key) == 2;
    hide Expected, Expecting;
  }

  /** The loop body for one key. */
  method Examine(bitmap: seq<bv8>, keys: nat, token: Tokens, votes: Votes, key: nat, part: Part, ghost done: set<nat>) returns (r: Part)
    requires keys <= 4 * |bitmap| && key < keys && key !in done
    requires Examined(bitmap, keys, token, votes, done, part)
    ensures Examined(bitmap, keys, token, votes, done + {key}, r)
  {
    hide ChoiceOf, Examined;
    r := part;
    ExaminedAdd(bitmap, keys, token, votes, done, key, part);
    var expected := ChoiceOf(bitmap, key);
    if expected == 0 {
      return;
    }
    r := r.(checked := r.checked + 1);
    if token(key) !in votes {
      r := r.(missing := r.missing + 1);
    } else if votes[token(key)] != expected {
      r := r.(wrong := r.wrong + 1);
    }
    if expected == 1 {
      r := r.(first := r.first + 1);
    } else if expected == 2 {
      r := r.(second := r.second + 1);
    } else {
      r := r.(wrong := r.wrong + 1);
    }
  }

  /** One worker: every buffer-sized chunk at its stride, unless the context is cancelled first. */
  method RunPart(l: Layout, bitmap: seq<bv8>, token: Tokens, votes: Votes, worker: nat, stopped: nat -> bool)
    returns (r: Part, whole: bool)
    requires l.Valid() && worker < l.workers && l.keys <= 4 * |bitmap|
    ensures whole ==> Examined(bitmap, l.keys, token, votes, OwnedBelow(l, worker, l.keys), r)
    ensures !whole ==> exists base :: stopped(base)
  {
    hide Examined, OwnedBelow, Layout.Owner, Layout.Valid;
    LayoutFacts(l);
    r := Part(0, 0, 0, 0, 0);
    ghost var q := worker;
    var base := worker * l.buffer;
    NothingOwned(l, worker);
    NothingExamined(bitmap, l.keys, token, votes, r);
    while base < l.keys
      invariant base == q * l.buffer && q % l.workers == worker
      invariant Examined(bitmap, l.keys, token, votes, OwnedBelow(l, worker, if base < l.keys then base else l.keys), r)
      decreases l.keys - base
    {
      if stopped(base) {
        return r, false;
      }
      var end := if l.keys < base + l.buffer then l.keys else base + l.buffer;
      assert (q + 1) * l.buffer == base + l.buffer;
      for key := base to end
        invariant Examined(bitmap, l.keys, token, votes, OwnedBelow(l, worker, key), r)
      {
        OwnsNext(l, q, key);
        r := Examine(bitmap, l.keys, token, votes, key, r, OwnedBelow(l, worker, key));
      }
      NextStride(l, q, end);
      Times(1, l.workers, l.buffer);
      base := base + l.workers * l.buffer;
      q := q + l.workers;
    }
    whole := true;
  }

  lemma LayoutFacts(l: Layout)
    requires l.Valid()
    ensures l.workers >= 1 && l.buffer >= 4
  {
  }

  lemma NothingExamined(bitmap: seq<bv8>, keys: nat, token: Tokens, votes: Votes, r: Part)
    requires keys <= 4 * |bitmap| && r == Part(0, 0, 0, 0, 0)
    ensures Examined(bitmap, keys, token, votes, {}, r)
  {
    assert {} * Expected(bitmap, keys) == {} && {} * Expecting(bitmap, keys, 1) == {} && {} * Expecting(bitmap, keys, 2) == {};
  }

  /** Before its first chunk a worker owns nothing. */
  lemma NothingOwned(l: Layout, worker: nat)
    requires l.Valid() && worker < l.workers
    ensures worker % l.workers == worker
    ensures OwnedBelow(l, worker, worker * l.buffer) == {} && OwnedBelow(l, worker, l.keys) <= OwnedBelow(l, worker, l.keys)
    ensures worker * l.buffer >= l.keys ==> OwnedBelow(l, worker, l.keys) == {}
  {
    assert worker % l.workers == worker by { Small(worker, l.workers); }
    forall k: nat | k < worker * l.buffer ensures l.Owner(k) != worker {
      QuotientWithin(k, l.buffer, 0, worker);
      Small(k / l.buffer, l.workers);
    }
  }

  lemma Small(a: nat, n: nat)
    requires a < n
    ensures a % n == a
  {
  }

  lemma OwnsNext(l: Layout, q: nat, key: nat)
    requires l.Valid() && q * l.buffer <= key < (q + 1) * l.buffer
    ensures OwnedBelow(l, q % l.workers, key + 1) == OwnedBelow(l, q % l.workers, key) + {key}
    ensures key !in OwnedBelow(l, q % l.workers, key)
  {
    Times(q + 1, q + l.workers, l.buffer);
    StrideOwns(l, q, key);
  }

  /** Between a worker's chunks it owns nothing. */
  lemma NextStride(l: Layout, q: nat, end: nat)
    requires l.Valid() && q * l.buffer < l.keys && end == if l.keys < q * l.buffer + l.buffer then l.keys else q * l.buffer + l.buffer
    ensures q * l.buffer + l.workers * l.buffer == (q + l.workers) * l.buffer
    ensures (q + l.workers) % l.workers == q % l.workers
    ensures var next := (q + l.workers) * l.buffer;
      OwnedBelow(l, q % l.workers, if next < l.keys then next else l.keys) == OwnedBelow(l, q % l.workers, end)
  {
    var next := (q + l.workers) * l.buffer;
    assert (q + 1) * l.buffer == q * l.buffer + l.buffer;
    SameAfter(q, l.workers);
    forall k: nat | end <= k < next && k < l.keys ensures l.Owner(k) != q % l.workers {
      StrideOwns(l, q, k);
    }
    Times(q + 1, q + l.workers, l.buffer);
  }

  lemma SameAfter(q: nat, n: nat)
    requires n > 0
    ensures (q + n) % n == q % n
  {
    var a, r := q / n, q % n;
    assert q + n == (a + 1) * n + r by { assert q == a * n + r && (a + 1) * n == a * n + n; }
    assert (a + 2) * n == (a + 1) * n + n;
    QuotientBounds(q + n, n, a + 1);
    assert q + n == (q + n) / n * n + (q + n) % n;
  }

  // ----------------------------------------------------------- merging parts

  ghost function OwnedByFirst(l: Layout, n: nat): set<nat>
    requires l.Valid()
  {
    set k: nat | k < l.keys && l.Owner(k) < n
  }

  lemma MergeOne(l: Layout, bitmap: seq<bv8>, token: Tokens, votes: Votes, n: nat, r: Part, part: Part)
    requires l.Valid() && l.keys <= 4 * |bitmap|
    requires Examined(bitmap, l.keys, token, votes, OwnedByFirst(l, n), r)
    requires Examined(bitmap, l.keys, token, votes, OwnedBelow(l, n, l.keys), part)
    ensures Examined(bitmap, l.keys, token, votes, OwnedByFirst(l, n + 1), Plus(r, part))
  {
    hide *;
    OwnedOnce(l, n);
    ExaminedUnion(bitmap, l.keys, token, votes, OwnedByFirst(l, n), OwnedBelow(l, n, l.keys), r, part);
  }

  lemma ExaminedUnion(bitmap: seq<bv8>, keys: nat, token: Tokens, votes: Votes, a: set<nat>, b: set<nat>, r: Part, part: Part)
    requires keys <= 4 * |bitmap| && a !! b
    requires Examined(bitmap, keys, token, votes, a, r) && Examined(bitmap, keys, token, votes, b, part)
    ensures Examined(bitmap, keys, token, votes, a + b, Plus(r, part))
  {
    hide AllFound, Expected, Expecting;
    FoundUnion(bitmap, keys, token, votes, a, b);
    var sum := Plus(r, part);
    assert sum.checked == |(a + b) * Expected(bitmap, keys)| by { Split(a, b, Expected(bitmap, keys)); }
    assert sum.first == |(a + b) * Expecting(bitmap, keys, 1)| by { Split(a, b, Expecting(bitmap, keys, 1)); }
    assert sum.second == |(a + b) * Expecting(bitmap, keys, 2)| by { Split(a, b, Expecting(bitmap, keys, 2)); }
  }

  /** Each key belongs to one worker. */
  lemma OwnedOnce(l: Layout, n: nat)
    requires l.Valid()
    ensures OwnedByFirst(l, n + 1) == OwnedByFirst(l, n) + OwnedBelow(l, n, l.keys)
    ensures OwnedByFirst(l, n) !! OwnedBelow(l, n, l.keys)
  {
    hide Layout.Owner;
  }

  lemma FoundUnion(bitmap: seq<bv8>, keys: nat, token: Tokens, votes: Votes, a: set<nat>, b: set<nat>)
    requires keys <= 4 * |bitmap|
    ensures AllFound(bitmap, keys, token, votes, a + b) <==> AllFound(bitmap, keys, token, votes, a) && AllFound(bitmap, keys, token, votes, b)
  {
    hide Found, ChoiceOf;
  }

  lemma Split<T>(a: set<T>, b: set<T>, x: set<T>)
    requires a !! b
    ensures |(a + b) * x| == |a * x| + |b * x|
  {
    assert (a + b) * x == a * x + b * x && (a * x) !! (b * x);
  }

  lemma AllOwned(l: Layout)
    requires l.Valid()
    ensures OwnedByFirst(l, 0) == {}
    ensures forall k: nat | k < l.keys :: k in OwnedByFirst(l, l.workers)
  {
    hide Layout.Owner;
  }

  // -------------------------------------------------------------- exactness

  ghost function Images(token: Tokens, a: set<nat>): set<Token> {
    set k | k in a :: token(k)
  }

  lemma ImagesLess(token: Tokens, keys: nat, a: set<nat>, x: nat)
    requires Injective(token, keys) && x in a && forall k | k in a :: k < keys
    ensures Images(token, a) == Images(token, a - {x}) + {token(x)}
    ensures token(x) !in Images(token, a - {x})
  {
  }

  lemma {:induction false} ImageSize(token: Tokens, keys: nat, a: set<nat>)
    requires Injective(token, keys) && forall k | k in a :: k < keys
    ensures |Images(token, a)| == |a|
    decreases |a|
  {
    if |a| > 0 {
      var x := Pick(a);
      ImagesLess(token, keys, a, x);
      hide Images, Injective;
      ImageSize(token, keys, a - {x});
      assert a == (a - {x}) + {x};
    } else {
      assert a == {} && Images(token, a) == {};
    }
  }

  /**
   * Exactness by counting: with as many votes in the engine as expected keys, every expected key being
   * found means that the engine holds nothing else.
   */
  lemma ExactByCounting(bitmap: seq<bv8>, keys: nat, token: Tokens, votes: Votes)
    requires keys <= 4 * |bitmap| && Injective(token, keys)
    requires forall k | k in Expected(bitmap, keys) :: token(k) in votes && votes[token(k)] == ChoiceOf(bitmap, k)
    ensures |votes| == |Expected(bitmap, keys)| <==> Exactly(bitmap, keys, token, votes)
  {
    hide ChoiceOf;
    var a := Expected(bitmap, keys);
    ImageSize(token, keys, a);
    var image := Images(token, a);
    assert image <= votes.Keys;
    Subset(image, votes.Keys);
    if |votes| == |a| {
      forall t | t in votes ensures exists k: nat :: k < keys && ChoiceOf(bitmap, k) != 0 && token(k) == t {
        assert t in image;
      }
    }
    if Exactly(bitmap, keys, token, votes) {
      forall t | t in votes ensures t in image {
        var k: nat :| k < keys && ChoiceOf(bitmap, k) != 0 && token(k) == t;
        assert k in a;
      }
      assert image == votes.Keys;
    }
  }

  /** With every choice 1 or 2, an exact engine's option counts are the numbers of keys expecting 1 and 2. */
  lemma CountsOfExact(bitmap: seq<bv8>, keys: nat, token: Tokens, votes: Votes, bit: nat)
    requires keys <= 4 * |bitmap| && Injective(token, keys) && Exactly(bitmap, keys, token, votes)
    requires forall k | k in Expected(bitmap, keys) :: ChoiceOf(bitmap, k) <= 2
    requires bit < 32
    ensures EngineTable.Tally(votes, bit) == if bit == 0 then |Expecting(bitmap, keys, 1)| else if bit == 1 then |Expecting(bitmap, keys, 2)| else 0
  {
    hide ChoiceOf, Bit;
    SmallBits(bit);
    var a: set<nat> := if bit == 0 then Expecting(bitmap, keys, 1) else if bit == 1 then Expecting(bitmap, keys, 2) else {};
    ImageSize(token, keys, a);
    forall t ensures t in EngineTable.Choosers(votes, bit) <==> t in Images(token, a) {
      if t in votes {
        var k: nat :| k < keys && ChoiceOf(bitmap, k) != 0 && token(k) == t;
        assert k in Expected(bitmap, keys);
        assert Bit(votes[t], bit) <==> k in a;
        if t in Images(token, a) {
          var j :| j in a && token(j) == t;
          assert j == k;
        }
      }
    }
    assert EngineTable.Choosers(votes, bit) == Images(token, a);
  }

  lemma SmallBits(bit: nat)
    ensures Bit(1, bit) <==> bit == 0
    ensures Bit(2, bit) <==> bit == 1
  {
    if bit > 0 {
      ZeroHasNoBit(bit - 1);
      if bit > 1 { ZeroHasNoBit(bit - 2); }
      assert Bit(1, bit) == Bit(0, bit - 1);
      assert Bit(2, bit) == Bit(1, bit - 1);
    }
  }

  function ExpectedCounts(r: Part): (c: seq<nat>)
    ensures |c| == 32
  {
    [r.first, r.second] + seq(30, _ => 0)
  }

  /** What the merged counters say when every key was looked at. */
  lemma Verdict(bitmap: seq<bv8>, keys: nat, token: Tokens, votes: Votes, done: set<nat>, r: Part, snapshot: EngineTable.Snapshot)
    requires keys <= 4 * |bitmap| && Injective(token, keys) && Examined(bitmap, keys, token, votes, done, r)
    requires (forall k: nat | k < keys :: k in done) && EngineTable.SnapshotOf(snapshot, votes)
    ensures r.checked == |Expected(bitmap, keys)|
    ensures r.missing == 0 && r.wrong == 0 && snapshot.total == r.checked && ExpectedCounts(r) == snapshot.counts
            <==> Exactly(bitmap, keys, token, votes) && forall k | k in Expected(bitmap, keys) :: ChoiceOf(bitmap, k) <= 2
  {
    hide ChoiceOf, EngineTable.Tally;
    assert done * Expected(bitmap, keys) == Expected(bitmap, keys);
    assert done * Expecting(bitmap, keys, 1) == Expecting(bitmap, keys, 1);
    assert done * Expecting(bitmap, keys, 2) == Expecting(bitmap, keys, 2);
    FoundMeans(bitmap, keys, token, votes, done);
    hide AllFound, Expecting;
    if forall k | k in Expected(bitmap, keys) :: token(k) in votes && votes[token(k)] == ChoiceOf(bitmap, k) {
      ExactByCounting(bitmap, keys, token, votes);
      if Exactly(bitmap, keys, token, votes) && forall k | k in Expected(bitmap, keys) :: ChoiceOf(bitmap, k) <= 2 {
        CountsAgree(bitmap, keys, token, votes, r, snapshot);
      }
    }
  }

  lemma FoundMeans(bitmap: seq<bv8>, keys: nat, token: Tokens, votes: Votes, done: set<nat>)
    requires keys <= 4 * |bitmap| && forall k: nat | k < keys :: k in done
    ensures AllFound(bitmap, keys, token, votes, done) <==>
            && (forall k | k in Expected(bitmap, keys) :: token(k) in votes && votes[token(k)] == ChoiceOf(bitmap, k))
            && (forall k | k in Expected(bitmap, keys) :: ChoiceOf(bitmap, k) <= 2)
    ensures Exactly(bitmap, keys, token, votes) ==>
              forall k | k in Expected(bitmap, keys) :: token(k) in votes && votes[token(k)] == ChoiceOf(bitmap, k)
  {
    hide ChoiceOf;
    assert forall k | k in Expected(bitmap, keys) :: k in done && k < keys;
    if AllFound(bitmap, keys, token, votes, done) {
      forall k | k in Expected(bitmap, keys) ensures Found(bitmap, token, votes, k) {}
    }
  }

  lemma CountsAgree(bitmap: seq<bv8>, keys: nat, token: Tokens, votes: Votes, r: Part, snapshot: EngineTable.Snapshot)
    requires keys <= 4 * |bitmap| && Injective(token, keys) && Exactly(bitmap, keys, token, votes)
    requires forall k | k in Expected(bitmap, keys) :: ChoiceOf(bitmap, k) <= 2
    requires r.first == |Expecting(bitmap, keys, 1)| && r.second == |Expecting(bitmap, keys, 2)|
    requires EngineTable.SnapshotOf(snapshot, votes)
    ensures ExpectedCounts(r) == snapshot.counts
  {
    hide ChoiceOf, Expecting, Expected, Exactly, EngineTable.Tally;
    forall b: nat | b < 32 ensures ExpectedCounts(r)[b] == snapshot.counts[b] {
      CountsOfExact(bitmap, keys, token, votes, b);
    }
  }

  /**
   * reconcile: correct exactly when nothing was cancelled, the engine is closed, and it holds the expected
   * tokens with their choices, all 1 or 2, and no other token, as many as were accepted.
   */
  method Reconcile(l: Layout, bitmap: seq<bv8>, token: Tokens, votes: Votes, closed: bool, accepted: nat,
                   snapshot: EngineTable.Snapshot, stopped: nat -> bool, cancelled: bool) returns (r: Report)
    requires l.Valid() && |bitmap| == (l.keys + 3) / 4 && Injective(token, l.keys)
    requires EngineTable.SnapshotOf(snapshot, votes)
    requires (exists base :: stopped(base)) ==> cancelled
    ensures r.correct <==>
            && !cancelled && closed && accepted == |Expected(bitmap, l.keys)|
            && Exactly(bitmap, l.keys, token, votes)
            && forall k | k in Expected(bitmap, l.keys) :: ChoiceOf(bitmap, k) <= 2
  {
    hide Examined, OwnedByFirst, OwnedBelow, Layout.Valid, EngineTable.SnapshotOf, Exactly, Expected, Injective, ChoiceOf;
    var sums := Part(0, 0, 0, 0, 0);
    NothingExamined(bitmap, l.keys, token, votes, sums);
    AllOwned(l);
    for worker := 0 to l.workers
      invariant !cancelled ==> Examined(bitmap, l.keys, token, votes, OwnedByFirst(l, worker), sums)
    {
      var part, whole := RunPart(l, bitmap, token, votes, worker, stopped);
      if !cancelled {
        MergeOne(l, bitmap, token, votes, worker, sums, part);
      }
      sums := Plus(sums, part);
    }
    if !cancelled {
      Verdict(bitmap, l.keys, token, votes, OwnedByFirst(l, l.workers), sums, snapshot);
    }
    r := Report(!cancelled && closed && sums.missing == 0 && sums.wrong == 0 && sums.checked == accepted
                && snapshot.total == accepted && ExpectedCounts(sums) == snapshot.counts, sums);
  }
}
