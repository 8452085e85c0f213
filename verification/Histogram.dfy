/** The latency histogram of the benchmarks (cmd/corebench/metrics.go): sixteen sub-buckets per power of two. */
module Histogram {
  import opened Bits
  import opened Arithmetic
  import opened Bytes

  const BINS: nat := 1024

  /** `bits.Len64`. */
  function BitLen(n: nat): (b: nat)
    ensures n == 0 <==> b == 0
    ensures n > 0 ==> Pow2(b - 1) <= n < Pow2(b)
  {
    if n == 0 then 0 else 1 + BitLen(n / 2)
  }

  function Index(ns: nat): nat {
    var b := BitLen(ns);
    if b <= 4 then ns else (b - 5) * 16 + ns / Pow2(b - 5)
  }

  function Upper(index: nat): int {
    if index < 16 then index
    else (16 + (index - 16) % 16 + 1) * Pow2((index - 16) / 16) - 1
  }

  lemma {:induction false} Pow2Adds(a: nat, b: nat)
    ensures Pow2(a + b) == Pow2(a) * Pow2(b)
  {
    if a > 0 {
      Pow2Adds(a - 1, b);
      assert Pow2(a + b) == 2 * Pow2(a - 1 + b) && Pow2(a) == 2 * Pow2(a - 1);
      hide Pow2;
      Doubled(Pow2(a - 1), Pow2(b));
    }
  }

  lemma Doubled(x: nat, y: nat)
    ensures 2 * (x * y) == 2 * x * y
  {
  }

  lemma {:induction false} Pow2Grows(a: nat, b: nat)
    requires a < b
    ensures 2 * Pow2(a) <= Pow2(b)
  {
    if a + 1 < b { Pow2Grows(a, b - 1); }
  }

  /** A number between two powers of two has that length. */
  lemma LenIs(n: nat, b: nat)
    requires b > 0 && Pow2(b - 1) <= n < Pow2(b)
    ensures BitLen(n) == b
  {
    var c := BitLen(n);
    if c < b { if c < b - 1 { Pow2Grows(c, b - 1); } }
    if c > b { if b < c - 1 { Pow2Grows(b, c - 1); } }
  }

  lemma SmallPowers()
    ensures Pow2(0) == 1 && Pow2(4) == 16 && Pow2(5) == 32 && Pow2(8) == 256
  {
  }

  /** The mantissa of a number of at least five bits. */
  lemma Mantissa(ns: nat)
    requires ns >= 16
    ensures BitLen(ns) >= 5 && 16 <= ns / Pow2(BitLen(ns) - 5) < 32
  {
    hide Pow2, BitLen;
    var b := BitLen(ns);
    if b < 5 { FourBits(b); }
    var s := b - 5;
    Pow2Adds(4, s);
    Pow2Adds(5, s);
    SmallPowers();
    QuotientBetween(ns, Pow2(s), 16, 32);
  }

  lemma FourBits(b: nat)
    requires b < 5
    ensures Pow2(b) <= 16
  {
    if b < 4 { Pow2Grows(b, 4); }
    assert Pow2(4) == 16;
  }

  lemma QuotientBetween(n: nat, d: nat, lo: nat, hi: nat)
    requires d > 0 && lo * d <= n < hi * d
    ensures lo <= n / d < hi
  {
    var q := n / d;
    assert q * d <= n < (q + 1) * d;
    if q < lo { Times(q + 1, lo, d); }
    if q >= hi { Times(hi, q, d); }
  }

  /** The members of a bucket: its least value and how many there are. */
  function Lower(index: nat): nat {
    if index < 16 then index else (16 + (index - 16) % 16) * Pow2((index - 16) / 16)
  }

  /** A value's bucket holds exactly the values from its lower to its upper edge. */
  lemma BucketIs(ns: nat, index: nat)
    ensures Index(ns) == index <==> Lower(index) <= ns <= Upper(index)
  {
    hide Pow2, BitLen;
    if ns < 16 {
      SmallLen(ns);
      if index >= 16 { Pow2Positive(index); }
    } else if index < 16 {
      Mantissa(ns);
    } else {
      LargeBucketIs(ns, (index - 16) / 16, 16 + (index - 16) % 16);
    }
  }

  lemma LargeBucketIs(ns: nat, t: nat, k: nat)
    requires ns >= 16 && 16 <= k < 32
    ensures Index(ns) == t * 16 + k <==> k * Pow2(t) <= ns < (k + 1) * Pow2(t)
  {
    hide Pow2, BitLen;
    Mantissa(ns);
    var s := BitLen(ns) - 5;
    var m := ns / Pow2(s);
    if Index(ns) == t * 16 + k {
      SameDigits(s, m, t, k);
      Edges(ns, Pow2(s), m);
    }
    if k * Pow2(t) <= ns < (k + 1) * Pow2(t) {
      LengthOf(ns, t, k);
      Edges(ns, Pow2(t), k);
    }
  }

  lemma SmallLen(ns: nat)
    requires ns < 16
    ensures BitLen(ns) <= 4
  {
    if ns > 0 && BitLen(ns) > 4 {
      assert Pow2(4) == 16;
      if BitLen(ns) > 5 { Pow2Grows(4, BitLen(ns) - 1); }
    }
  }

  lemma Pow2Positive(index: nat)
    requires index >= 16
    ensures Lower(index) >= 16
  {
    Times(1, Pow2((index - 16) / 16), 16 + (index - 16) % 16);
  }

  lemma SameDigits(s: nat, m: nat, t: nat, k: nat)
    requires s * 16 + m == t * 16 + k && 16 <= m < 32 && 16 <= k < 32
    ensures s == t && m == k
  {
  }

  lemma Edges(n: nat, d: nat, q: nat)
    requires d > 0
    ensures n / d == q <==> q * d <= n < (q + 1) * d
  {
    var r := n / d;
    assert r * d <= n < (r + 1) * d;
    if r < q { Times(r + 1, q, d); }
    if r > q { Times(q + 1, r, d); }
  }

  lemma LengthOf(ns: nat, t: nat, k: nat)
    requires 16 <= k < 32 && k * Pow2(t) <= ns < (k + 1) * Pow2(t)
    ensures BitLen(ns) == t + 5
  {
    Pow2Adds(4, t);
    Pow2Adds(5, t);
    assert Pow2(4) == 16 && Pow2(5) == 32;
    Times(16, k, Pow2(t));
    Times(k + 1, 32, Pow2(t));
    LenIs(ns, t + 5);
  }

  /** Every 64-bit sample has a bucket. */
  lemma IndexInRange(ns: u64)
    ensures Index(ns) < BINS
  {
    if ns >= 16 {
      Mantissa(ns);
      if BitLen(ns) > 64 {
        if BitLen(ns) > 65 { Pow2Grows(64, BitLen(ns) - 1); }
        TwoTo64();
      }
    } else {
      SmallLen(ns);
    }
  }

  lemma TwoTo64()
    ensures Pow2(64) == TWO_TO_THE_64
  {
    SmallPowers();
    hide Pow2;
    Pow2Adds(8, 8);
    Pow2Adds(16, 16);
    Pow2Adds(32, 32);
    assert Pow2(16) == 0x1_0000;
    assert Pow2(32) == 0x1_0000_0000;
  }

  /** Buckets are in the order of their values. */
  lemma IndexMonotone(a: nat, b: nat)
    requires a <= b
    ensures Index(a) <= Index(b)
  {
    hide Pow2, BitLen;
    if a < 16 {
      SmallLen(a);
      if b < 16 { SmallLen(b); } else { Mantissa(b); }
    } else {
      Mantissa(a);
      Mantissa(b);
      var s, t := BitLen(a) - 5, BitLen(b) - 5;
      if s > t { if t + 5 < s + 4 { Pow2Grows(t + 5, s + 4); } }
      if s == t { DivMonotone(a, b, Pow2(s)); }
    }
  }

  lemma DivMonotone(a: nat, b: nat, d: nat)
    requires a <= b && d > 0
    ensures a / d <= b / d
  {
    var q := a / d;
    assert q * d <= a;
    Edges(b, d, b / d);
    if b / d < q { Times(b / d + 1, q, d); }
  }

  /** The upper edge is exact below 32 and less than one sixteenth too large above. */
  lemma UpperIsClose(ns: nat)
    ensures ns <= Upper(Index(ns))
    ensures ns < 32 ==> Upper(Index(ns)) == ns
    ensures ns >= 32 ==> 16 * (Upper(Index(ns)) - ns) < ns
  {
    hide Pow2, BitLen;
    BucketIs(ns, Index(ns));
    if ns < 16 {
      SmallLen(ns);
    } else {
      Mantissa(ns);
      var s := BitLen(ns) - 5;
      UpperOf(s, ns / Pow2(s));
      Edges(ns, Pow2(s), ns / Pow2(s));
      SmallPowers();
      if ns < 32 {
        LengthOf(ns, 0, ns);
      }
      CloseEdge(ns, Pow2(s), ns / Pow2(s));
    }
  }

  lemma UpperOf(s: nat, m: nat)
    requires 16 <= m < 32
    ensures Upper(s * 16 + m) == (m + 1) * Pow2(s) - 1
  {
    hide Pow2;
    assert (s * 16 + m - 16) / 16 == s && 16 + (s * 16 + m - 16) % 16 == m;
  }

  lemma CloseEdge(n: nat, d: nat, m: nat)
    requires m >= 16 && m * d <= n
    ensures d > 0 ==> 16 * ((m + 1) * d - 1 - n) < n
  {
    assert (m + 1) * d == m * d + d;
    Times(16, m, d);
  }

  // --------------------------------------------------------------- counting

  /** How many samples fall into bucket i. */
  function InBin(xs: seq<u64>, i: nat): nat {
    if xs == [] then 0 else InBin(xs[..|xs| - 1], i) + (if Index(xs[|xs| - 1]) == i then 1 else 0)
  }

  /** How many samples fall into the first n buckets. */
  function InFirst(xs: seq<u64>, n: nat): nat {
    if xs == [] then 0 else InFirst(xs[..|xs| - 1], n) + (if Index(xs[|xs| - 1]) < n then 1 else 0)
  }

  /** How many samples are less than v. */
  function Under(xs: seq<u64>, v: nat): nat {
    if xs == [] then 0 else Under(xs[..|xs| - 1], v) + (if xs[|xs| - 1] < v then 1 else 0)
  }

  lemma {:induction false} NextBin(xs: seq<u64>, n: nat)
    ensures InFirst(xs, n + 1) == InFirst(xs, n) + InBin(xs, n)
  {
    if xs != [] { NextBin(xs[..|xs| - 1], n); }
  }

  lemma {:induction false} BinsCoverAll(xs: seq<u64>)
    ensures InFirst(xs, 0) == 0 && InFirst(xs, BINS) == |xs|
  {
    hide Index;
    if xs != [] {
      BinsCoverAll(xs[..|xs| - 1]);
      IndexInRange(xs[|xs| - 1]);
    }
  }

  /** Samples below a value's bucket are less than the value; samples up to the value are in its bucket or below. */
  lemma {:induction false} BinsBracket(xs: seq<u64>, v: nat)
    ensures InFirst(xs, Index(v)) <= Under(xs, v) && Under(xs, v + 1) <= InFirst(xs, Index(v) + 1)
  {
    hide Index;
    if xs != [] {
      BinsBracket(xs[..|xs| - 1], v);
      var x := xs[|xs| - 1];
      if x < v { IndexMonotone(x, v); } else { IndexMonotone(v, x); }
    }
  }

  /** v is the p-th percentile: less than p percent of the samples are under it, and p percent are not over it. */
  predicate IsPercentile(xs: seq<u64>, v: nat, percent: nat) {
    100 * Under(xs, v) < percent * |xs| <= 100 * Under(xs, v + 1)
  }

  /** v is the sample of this rank: the rank-th smallest. */
  predicate HasRank(xs: seq<u64>, v: nat, rank: nat) {
    Under(xs, v) < rank <= Under(xs, v + 1)
  }

  lemma {:induction false} RankedIsSample(xs: seq<u64>, v: nat)
    ensures Under(xs, v) < Under(xs, v + 1) <==> v in xs
    ensures Under(xs, v) <= Under(xs, v + 1) <= |xs|
  {
    if xs != [] {
      var n := |xs| - 1;
      RankedIsSample(xs[..n], v);
      assert xs == xs[..n] + [xs[n]];
    }
  }

  /** Every rank from 1 to the number of samples is some sample's. */
  lemma {:induction false} RankExists(xs: seq<u64>, rank: nat, v: nat) returns (x: nat)
    requires 1 <= rank <= Under(xs, v + 1)
    ensures HasRank(xs, x, rank) && x in xs
    decreases v
  {
    RankedIsSample(xs, v);
    if Under(xs, v) < rank {
      x := v;
    } else {
      NoneUnderZero(xs);
      x := RankExists(xs, rank, v - 1);
    }
  }

  lemma {:induction false} NoneUnderZero(xs: seq<u64>)
    ensures Under(xs, 0) == 0
    ensures Under(xs, TWO_TO_THE_64) == |xs|
  {
    if xs != [] { NoneUnderZero(xs[..|xs| - 1]); }
  }

  lemma {:induction false} InFirstGrows(xs: seq<u64>, i: nat, j: nat)
    requires i <= j
    ensures InFirst(xs, i) <= InFirst(xs, j)
  {
    hide Index;
    if xs != [] { InFirstGrows(xs[..|xs| - 1], i, j); }
  }

  class Histogram {
    const bins: array<nat>
    var count: nat
    var maximum: nat
    ghost var samples: seq<u64>

    constructor ()
      ensures Valid() && samples == [] && fresh(bins)
    {
      bins := new nat[BINS](_ => 0);
      count, maximum, samples := 0, 0, [];
    }

    ghost predicate Valid()
      reads this, bins
    {
      && bins.Length == BINS && count == |samples|
      && (forall i | 0 <= i < BINS :: bins[i] == InBin(samples, i))
      && (forall x | x in samples :: x <= maximum) && (maximum == 0 || maximum in samples)
    }

    method Add(ns: u64)
      requires Valid()
      modifies this, bins
      ensures Valid() && samples == old(samples) + [ns]
    {
      hide Index;
      IndexInRange(ns);
      assert (samples + [ns])[..|samples|] == samples;
      bins[Index(ns)] := bins[Index(ns)] + 1;
      count := count + 1;
      maximum := if ns > maximum then ns else maximum;
      samples := samples + [ns];
    }

    method Merge(other: Histogram)
      requires Valid() && other.Valid() && bins != other.bins && this != other
      modifies this, bins
      ensures Valid() && other.Valid() && samples == old(samples) + other.samples && other.samples == old(other.samples)
    {
      hide Index, InBin;
      for i := 0 to BINS
        modifies bins
        invariant bins.Length == other.bins.Length == BINS
        invariant forall k | 0 <= k < BINS :: other.bins[k] == InBin(other.samples, k)
        invariant forall k | 0 <= k < BINS :: bins[k] == old(bins[k]) + (if k < i then other.bins[k] else 0)
      {
        bins[i] := bins[i] + other.bins[i];
      }
      forall k: nat ensures InBin(samples + other.samples, k) == InBin(samples, k) + InBin(other.samples, k) {
        InBinAdds(samples, other.samples, k);
      }
      assert forall x | x in samples + other.samples :: x in samples || x in other.samples;
      count := count + other.count;
      maximum := if other.maximum > maximum then other.maximum else maximum;
      samples := samples + other.samples;
    }

    /**
     * The p-th percentile: the upper edge of the bucket of the exact nearest-rank sample, so at least that
     * sample and, from 32 on, less than a sixteenth above it.
     */
    method Percentile(percent: nat) returns (upper: int)
      requires Valid() && count > 0 && 1 <= percent <= 100
      ensures exists x :: x in samples && IsPercentile(samples, x, percent)
      ensures forall x: nat | IsPercentile(samples, x, percent) ::
                && x <= upper && (x < 32 ==> upper == x) && (x >= 32 ==> 16 * (upper - x) < x)
    {
      hide Index, Upper, InBin, InFirst, Under;
      var target := Target(count, percent);
      assert 1 <= target <= count by { TargetInRange(count, percent); }
      BinsCoverAll(samples);
      ghost var exact := ExactRank(samples, target);
      PercentileIsRank(samples, percent);
      hide Target, HasRank, IsPercentile;
      var seen := 0;
      for i := 0 to BINS
        invariant seen == InFirst(samples, i) < target
      {
        NextBin(samples, i);
        seen := seen + bins[i];
        if seen >= target {
          forall x: nat | HasRank(samples, x, target) ensures Index(x) == i {
            BinsBracket(samples, x);
            if Index(x) < i { InFirstGrows(samples, Index(x) + 1, i); }
            if Index(x) > i { InFirstGrows(samples, i + 1, Index(x)); }
          }
          forall x: nat | HasRank(samples, x, target)
            ensures x <= Upper(i) && (x < 32 ==> Upper(i) == x) && (x >= 32 ==> 16 * (Upper(i) - x) < x)
          {
            UpperIsClose(x);
          }
          return Upper(i);
        }
      }
      assert false;
    }
  }

  /** The nearest rank of a percentile. */
  function Target(count: nat, percent: nat): nat {
    (count * percent + 99) / 100
  }

  /** A percentile is the sample of the nearest rank. */
  lemma PercentileIsRank(xs: seq<u64>, percent: nat)
    ensures forall v: nat :: HasRank(xs, v, Target(|xs|, percent)) <==> IsPercentile(xs, v, percent)
  {
    hide Under;
    var n := |xs| * percent;
    forall a: nat ensures a < (n + 99) / 100 <==> 100 * a < n { FloorBelow(n + 99, 100, a + 1); }
    forall v: nat ensures HasRank(xs, v, Target(|xs|, percent)) <==> IsPercentile(xs, v, percent) {
      var a, b := Under(xs, v), Under(xs, v + 1);
      assert a < (n + 99) / 100 <==> 100 * a < n;
      assert b < (n + 99) / 100 <==> 100 * b < n;
    }
  }

  lemma TargetInRange(count: nat, percent: nat)
    requires count > 0 && 1 <= percent <= 100
    ensures 1 <= Target(count, percent) <= count
  {
    assert percent * count == count * percent;
    Times(1, percent, count);
    Times(percent, 100, count);
  }

  lemma ExactRank(xs: seq<u64>, rank: nat) returns (x: nat)
    requires 1 <= rank <= |xs|
    ensures x in xs && HasRank(xs, x, rank)
  {
    NoneUnderZero(xs);
    x := RankExists(xs, rank, TWO_TO_THE_64 - 1);
  }

  lemma {:induction false} InBinAdds(xs: seq<u64>, ys: seq<u64>, i: nat)
    ensures InBin(xs + ys, i) == InBin(xs, i) + InBin(ys, i)
  {
    hide Index;
    if ys == [] {
      assert xs + ys == xs;
    } else {
      var n := |ys| - 1;
      InBinAdds(xs, ys[..n], i);
      assert (xs + ys)[|xs + ys| - 1] == ys[n];
      assert (xs + ys)[..|xs + ys| - 1] == xs + ys[..n];
    }
  }
}
