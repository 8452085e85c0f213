/**
 * How many frames the file benchmark can produce (cmd/filebench/workload.go generate, cmd/filebench/main.go
 * frameBound) and so how large its journal can get (cmd/filebench/ledger.go estimatedWALBytes).
 */
module FrameBound {
  import opened Bytes
  import opened Schedule
  import opened Arithmetic
  import FileCodec
  import FileScan

  const MINUTE: nat := 60 * SECOND

  function Div(n: nat, d: nat): nat
    requires d > 0
  {
    n / d
  }

  datatype Config = Config(rate: nat, repeatEvery: nat, frameSize: nat, frameAge: nat, maxLag: nat)
  {
    predicate Valid() {
      && 1 <= rate <= 1_800_000 && 1 <= frameSize <= 4096
      && 1_000_000 <= frameAge <= 100_000_000 && 0 < maxLag <= SECOND
    }

    function Keys(): nat {
      rate * 60
    }

    /** Attempts of the first n keys: each key's original, and its repeat for every repeatEvery-th key. */
    function AttemptsOf(n: nat): nat {
      n + (if repeatEvery > 0 then n / repeatEvery else 0)
    }

    function Attempts(): nat {
      AttemptsOf(Keys())
    }

    function FrameBound(): nat
      requires Valid()
    {
      var bound := Div(Attempts() + frameSize - 1, frameSize) + Div(MINUTE + maxLag, frameAge) + 2;
      if Attempts() < bound then Attempts() else bound
    }

    function EstimatedWALBytes(): nat
      requires Valid()
    {
      var a, b := Attempts() * 32, Attempts() * 28 + FrameBound() * (40 + 256);
      (if a > b then a else b) + 0x400_0000
    }

    function GroupSize(): (g: nat)
      ensures 1 <= g <= 256
    {
      var most := if 256 < rate / 1000 then 256 else rate / 1000;
      if most > 1 then most else 1
    }

    /** When a key's attempts are due, since the start. */
    function At(key: nat): nat
      requires Valid()
    {
      Div(key * SECOND, rate)
    }
  }

  datatype Attempt = Attempt(key: nat, repeated: bool)

  /** A flushed buffer: when its first attempt came, when it was flushed, and whether the queue took it. */
  datatype Frame = Frame(inputs: seq<Attempt>, first: int, flushed: int, taken: bool)

  function Flat(fs: seq<Frame>): seq<Attempt> {
    if fs == [] then [] else Flat(fs[..|fs| - 1]) + fs[|fs| - 1].inputs
  }

  /** Attempts in frames that the queue did not take. */
  function Refused(fs: seq<Frame>): nat {
    if fs == [] then 0 else Refused(fs[..|fs| - 1]) + (if fs[|fs| - 1].taken then 0 else |fs[|fs| - 1].inputs|)
  }

  predicate Before(a: Attempt, b: Attempt) {
    a.key < b.key || (a.key == b.key && !a.repeated && b.repeated)
  }

  /** Attempts in the order of their keys, originals before repeats: none twice. */
  ghost predicate InOrder(s: seq<Attempt>) {
    forall i, j | 0 <= i < j < |s| :: Before(s[i], s[j])
  }

  /** What frames full and aged so far say about how many there are and when the aged ones began. */
  ghost predicate Spaced(c: Config, aged: nat, lastFirst: int, lastFlush: int) {
    && lastFirst <= MINUTE + c.maxLag
    && (aged > 0 ==> (aged - 1) * c.frameAge <= lastFirst && lastFirst + c.frameAge <= lastFlush)
    && (aged == 0 ==> lastFlush == 0 && lastFirst == 0)
  }

  /** A buffer that began at `first` had not reached its age at any clock reading before this instant. */
  ghost predicate Young(c: Config, clock: seq<int>, first: int, before: int) {
    forall i | 0 <= i < |clock| :: first <= clock[i] < before ==> clock[i] - first < c.frameAge
  }

  /** A frame that was flushed in time: at the first reading at which it had reached its age, if not full before. */
  ghost predicate InTime(c: Config, clock: seq<int>, f: Frame) {
    1 <= |f.inputs| <= c.frameSize && Young(c, clock, f.first, f.flushed)
  }

  /** A frame that did not have to wait: it is full or has reached its age. */
  predicate Ripe(c: Config, f: Frame) {
    |f.inputs| == c.frameSize || f.flushed - f.first >= c.frameAge
  }

  ghost predicate Flushes(c: Config, clock: seq<int>, frames: seq<Frame>, taken: nat -> bool) {
    forall k | 0 <= k < |frames| :: InTime(c, clock, frames[k]) && Ripe(c, frames[k]) && frames[k].taken == taken(k)
  }

  /** The attempts of one key: none if it is too late, and its repeat only if it has one. */
  function AttemptsAt(c: Config, key: nat, now: int): seq<Attempt>
    requires c.Valid()
  {
    if now - c.At(key) > c.maxLag then []
    else if c.repeatEvery > 0 && (key + 1) % c.repeatEvery == 0 then [Attempt(key, false), Attempt(key, true)]
    else [Attempt(key, false)]
  }

  /** The attempts of the first n keys, each at the clock reading of its group. */
  function Offered(c: Config, clock: seq<int>, n: nat): seq<Attempt>
    requires c.Valid() && forall k | 0 <= k < n :: GroupOf(c, k) < |clock|
  {
    if n == 0 then [] else Offered(c, clock, n - 1) + AttemptsAt(c, n - 1, clock[GroupOf(c, n - 1)])
  }

  function GroupOf(c: Config, key: nat): nat {
    Div(key, c.GroupSize())
  }

  class Generator {
    const c: Config
    var frames: seq<Frame>
    var buffer: seq<Attempt>
    var first: int
    var lagSkips: nat
    var queueSkips: nat
    ghost var full: nat
    ghost var aged: nat
    ghost var lastFirst: int
    ghost var lastFlush: int

    constructor (c: Config)
      requires c.Valid()
      ensures Valid(0, 0) && this.c == c && frames == [] && buffer == []
    {
      this.c := c;
      frames, buffer, first, lagSkips, queueSkips := [], [], 0, 0, 0;
      full, aged, lastFirst, lastFlush := 0, 0, 0, 0;
    }

    /** With attempts seen in all and now the last clock reading. */
    ghost predicate Valid(seen: nat, now: int)
      reads this
    {
      && c.Valid()
      && |Flat(frames)| + |buffer| + lagSkips == seen && queueSkips == Refused(frames)
      && |frames| == full + aged && full * c.frameSize + aged <= |Flat(frames)|
      && |buffer| < c.frameSize
      && Spaced(c, aged, lastFirst, lastFlush)
      && lastFlush <= now
      && (buffer != [] ==> lastFlush <= first <= MINUTE + c.maxLag && 0 <= first <= now)
    }

    /** What is flushed was flushed in time, and the buffer has not reached its age at the first n clock readings. */
    ghost predicate Paced(clock: seq<int>, n: nat, taken: nat -> bool)
      reads this`frames, this`buffer, this`first
    {
      && Flushes(c, clock, frames, taken)
      && (buffer != [] ==> forall i | 0 <= i < n && i < |clock| :: first <= clock[i] ==> clock[i] - first < c.frameAge)
    }

    /** flush: a nonempty buffer becomes a frame, offered to the queue. */
    method Flush(taken: bool, why: Reason, ghost seen: nat, now: int)
      requires Open(seen, now) && buffer != []
      requires why == Aged ==> now >= first + c.frameAge
      requires why == Full ==> |buffer| == c.frameSize
      requires why != Last
      modifies this`frames, this`queueSkips, this`buffer, this`full, this`aged, this`lastFirst, this`lastFlush
      ensures Valid(seen, now) && buffer == []
      ensures Flat(frames) == Flat(old(frames)) + old(buffer) && frames == old(frames) + [Frame(old(buffer), first, now, taken)]
    {
      hide Flat, Refused;
      var frame := Frame(buffer, first, now, taken);
      FlatAdd(frames, frame);
      frames := frames + [frame];
      if !taken {
        queueSkips := queueSkips + |buffer|;
      }
      if why == Aged {
        SpacedStep(c, aged, lastFirst, lastFlush, first, now);
        aged, lastFirst, lastFlush := aged + 1, first, now;
      } else {
        OneMore(full, c.frameSize);
        full := full + 1;
      }
      buffer := [];
    }

    lemma NothingPaced(clock: seq<int>, taken: nat -> bool)
      requires frames == [] && buffer == []
      ensures Paced(clock, 0, taken)
    {
    }

    /** Time passes. */
    lemma Later(seen: nat, now: int, later: int)
      requires Valid(seen, now) && now <= later
      ensures Valid(seen, later)
    {
    }

    /** Valid, except that the buffer may just have become full. */
    ghost predicate Open(seen: nat, now: int)
      reads this
    {
      && c.Valid()
      && |Flat(frames)| + |buffer| + lagSkips == seen && queueSkips == Refused(frames)
      && |frames| == full + aged && full * c.frameSize + aged <= |Flat(frames)|
      && |buffer| <= c.frameSize
      && Spaced(c, aged, lastFirst, lastFlush)
      && lastFlush <= now
      && (buffer != [] ==> lastFlush <= first <= MINUTE + c.maxLag && 0 <= first <= now)
    }

    /** appendInput, at the n-th clock reading. */
    method Append(a: Attempt, now: int, taken: nat -> bool, ghost seen: nat, ghost clock: seq<int>, ghost n: nat)
      requires Valid(seen, now) && 0 <= now <= MINUTE + c.maxLag
      requires Paced(clock, n, taken) && ReadingAt(clock, n, now)
      modifies this
      ensures Valid(seen + 1, now) && Paced(clock, n, taken)
      ensures Flat(frames) + buffer == Flat(old(frames)) + old(buffer) + [a] && lagSkips == old(lagSkips)
    {
      hide Flat, Flushes, Refused, Spaced;
      if buffer == [] {
        first := now;
      }
      buffer := buffer + [a];
      assert Flat(frames) + old(buffer) + [a] == Flat(frames) + buffer;
      BufferIsYoung(c, clock, n, first, now);
      if |buffer| == c.frameSize {
        FlushesMore(c, clock, frames, taken, Frame(buffer, first, now, taken(|frames|)));
        Flush(taken(|frames|), Full, seen + 1, now);
        assert Flat(frames) + [] == Flat(frames);
      }
    }

    /** A key that is too late takes its attempts with it. */
    method Skip(n: nat, ghost seen: nat, ghost now: int)
      requires Valid(seen, now)
      modifies this`lagSkips
      ensures Valid(seen + n, now) && lagSkips == old(lagSkips) + n
    {
      lagSkips := lagSkips + n;
    }

    /** One key of a group, with one clock reading for the whole group. */
    method Take(key: nat, now: int, taken: nat -> bool, ghost clock: seq<int>, ghost n: nat)
      requires Valid(c.AttemptsOf(key), now) && now >= 0 && key < c.Keys()
      requires Paced(clock, n, taken) && ReadingAt(clock, n, now)
      modifies this
      ensures c.Valid() && Valid(c.AttemptsOf(key + 1), now) && Paced(clock, n, taken)
      ensures Flat(frames) + buffer == Flat(old(frames)) + old(buffer) + AttemptsAt(c, key, now)
    {
      NextAttempts(c, key);
      DueWithinMinute(c, key);
      hide Flat, Spaced, Config.At, Config.AttemptsOf, Config.Keys, Paced, ReadingAt;
      var repeated := c.repeatEvery > 0 && (key + 1) % c.repeatEvery == 0;
      ghost var before := Flat(frames) + buffer;
      if now - c.At(key) > c.maxLag {
        assert before + [] == before;
        SkipPaced(if repeated then 2 else 1, c.AttemptsOf(key), now, clock, n, taken);
        return;
      }
      Append(Attempt(key, false), now, taken, c.AttemptsOf(key), clock, n);
      if repeated {
        Append(Attempt(key, true), now, taken, c.AttemptsOf(key) + 1, clock, n);
        assert before + [Attempt(key, false)] + [Attempt(key, true)] == before + [Attempt(key, false), Attempt(key, true)];
      }
    }

    method SkipPaced(k: nat, ghost seen: nat, ghost now: int, ghost clock: seq<int>, ghost n: nat, ghost taken: nat -> bool)
      requires Valid(seen, now) && Paced(clock, n, taken)
      modifies this`lagSkips
      ensures Valid(seen + k, now) && Paced(clock, n, taken)
    {
      Skip(k, seen, now);
    }

    /** The flush of a buffer that has waited frameAge, at the n-th clock reading. */
    method FlushAged(now: int, taken: nat -> bool, ghost seen: nat, ghost clock: seq<int>, ghost n: nat)
      requires Valid(seen, now)
      requires n >= 1 && Paced(clock, n - 1, taken) && ReadingAt(clock, n, now)
      modifies this
      ensures Valid(seen, now) && Paced(clock, n, taken)
      ensures Flat(frames) + buffer == Flat(old(frames)) + old(buffer)
    {
      hide Flat, Spaced, Flushes, Refused;
      if buffer != [] && now - first >= c.frameAge {
        BufferIsYoung(c, clock, n - 1, first, now);
        FlushesMore(c, clock, frames, taken, Frame(buffer, first, now, taken(|frames|)));
        Flush(taken(|frames|), Aged, seen, now);
        assert Flat(frames) + [] == Flat(frames);
      }
    }

    /** The flush after the last group. */
    method FlushLast(taken: nat -> bool, ghost seen: nat, now: int, ghost clock: seq<int>, ghost n: nat)
      requires Valid(seen, now) && seen <= c.Attempts()
      requires Paced(clock, n, taken) && ReadingAt(clock, n, now)
      modifies this`frames, this`queueSkips, this`buffer
      ensures |frames| <= c.FrameBound() && |Flat(frames)| + lagSkips == seen && queueSkips == Refused(frames)
      ensures Flat(frames) == Flat(old(frames)) + old(buffer) && buffer == []
      ensures forall k | 0 <= k < |frames| ::
                InTime(c, clock, frames[k]) && frames[k].taken == taken(k) && (k < |frames| - 1 ==> Ripe(c, frames[k]))
    {
      hide Flat, Config.Attempts, Config.FrameBound, Young, InTime, Ripe, Refused, Flushes;
      SpacedCount(c, aged, lastFirst, lastFlush);
      hide Spaced;
      FlushesBefore(c, clock, frames, taken);
      if buffer != [] {
        BufferIsYoung(c, clock, n, first, now);
        var frame := Frame(buffer, first, now, taken(|frames|));
        assert InTime(c, clock, frame) by { IsInTime(c, clock, frame); }
        FlatAdd(frames, frame);
        frames := frames + [frame];
        if !frame.taken {
          queueSkips := queueSkips + |buffer|;
        }
        buffer := [];
      } else {
        assert Flat(frames) + [] == Flat(frames);
      }
      BoundHolds(c, full, aged, |frames|, |Flat(frames)|);
    }
  }

  /** The last of the first n clock readings is this; later ones are no earlier. */
  ghost predicate ReadingAt(clock: seq<int>, n: nat, now: int) {
    n <= |clock| && (n > 0 ==> clock[n - 1] == now) && forall i | 0 <= i < |clock| :: if i < n then clock[i] <= now else now <= clock[i]
  }

  lemma BufferIsYoung(c: Config, clock: seq<int>, n: nat, first: int, now: int)
    requires n <= |clock| && (forall i | 0 <= i < n :: first <= clock[i] ==> clock[i] - first < c.frameAge)
    requires forall i | n <= i < |clock| :: now <= clock[i]
    ensures Young(c, clock, first, now)
  {
  }

  lemma IsInTime(c: Config, clock: seq<int>, f: Frame)
    requires 1 <= |f.inputs| <= c.frameSize && Young(c, clock, f.first, f.flushed)
    ensures InTime(c, clock, f)
  {
  }

  lemma FlushesBefore(c: Config, clock: seq<int>, frames: seq<Frame>, taken: nat -> bool)
    requires Flushes(c, clock, frames, taken)
    ensures forall k | 0 <= k < |frames| :: InTime(c, clock, frames[k]) && frames[k].taken == taken(k) && Ripe(c, frames[k])
  {
    hide InTime, Ripe;
  }

  lemma FlushesMore(c: Config, clock: seq<int>, frames: seq<Frame>, taken: nat -> bool, f: Frame)
    requires Flushes(c, clock, frames, taken) && InTime(c, clock, f) && Ripe(c, f) && f.taken == taken(|frames|)
    ensures Flushes(c, clock, frames + [f], taken)
  {
    hide Young;
  }

  /** Attempts of keys below n, in order, none twice. */
  ghost predicate Listed(s: seq<Attempt>, n: nat) {
    InOrder(s) && forall i | 0 <= i < |s| :: s[i].key < n
  }

  lemma ListedAdd(s: seq<Attempt>, key: nat)
    requires Listed(s, key)
    ensures Listed(s, key + 1) && Listed(s + [Attempt(key, false)], key + 1)
    ensures Listed(s + [Attempt(key, false)] + [Attempt(key, true)], key + 1)
  {
  }

  lemma NextAttempts(c: Config, key: nat)
    requires c.Valid()
    ensures c.AttemptsOf(key + 1) == c.AttemptsOf(key) + (if c.repeatEvery > 0 && (key + 1) % c.repeatEvery == 0 then 2 else 1)
  {
    if c.repeatEvery > 0 {
      var q, r := key / c.repeatEvery, key % c.repeatEvery;
      assert key == q * c.repeatEvery + r;
      if r + 1 == c.repeatEvery {
        Times(q, q, c.repeatEvery);
        QuotientIs(key + 1, c.repeatEvery, q + 1);
      } else {
        QuotientIs(key + 1, c.repeatEvery, q);
      }
    }
  }

  lemma DueWithinMinute(c: Config, key: nat)
    requires c.Valid() && key < c.Keys()
    ensures 0 <= c.At(key) <= MINUTE
  {
    Times(key, c.Keys(), SECOND);
    assert c.Keys() * SECOND == MINUTE * c.rate;
    FloorBelow(key * SECOND, c.rate, MINUTE + 1);
    assert (MINUTE + 1) * c.rate == MINUTE * c.rate + c.rate;
  }

  datatype Reason = Aged | Full | Last

  lemma FlatAdd(fs: seq<Frame>, f: Frame)
    ensures Flat(fs + [f]) == Flat(fs) + f.inputs
    ensures Refused(fs + [f]) == Refused(fs) + (if f.taken then 0 else |f.inputs|)
  {
    assert (fs + [f])[..|fs|] == fs;
  }

  lemma OneMore(n: nat, size: nat)
    ensures (n + 1) * size == n * size + size
  {
  }

  /** Two frames flushed for their age began at least that age apart. */
  lemma SpacedStep(c: Config, aged: nat, lastFirst: int, lastFlush: int, first: int, now: int)
    requires c.Valid() && Spaced(c, aged, lastFirst, lastFlush) && lastFlush <= first <= MINUTE + c.maxLag && now >= first + c.frameAge
    ensures Spaced(c, aged + 1, first, now)
  {
    if aged > 0 { OneMore(aged - 1, c.frameAge); }
  }

  /** The keys of the first n groups. */
  function GroupEnd(c: Config, n: nat): nat {
    if n * c.GroupSize() < c.Keys() then n * c.GroupSize() else c.Keys()
  }

  /** Clock readings since the start, one per group, that never run backwards. */
  ghost predicate ClockOk(clock: seq<int>) {
    (forall i, j | 0 <= i <= j < |clock| :: clock[i] <= clock[j]) && forall i | 0 <= i < |clock| :: clock[i] >= 0
  }

  lemma NextReading(clock: seq<int>, n: nat, now: int)
    requires ClockOk(clock) && n < |clock| && ReadingAt(clock, n, now)
    ensures 0 <= clock[n] && now <= clock[n] && ReadingAt(clock, n + 1, clock[n])
  {
  }

  /**
   * generate, cancelled when the clock readings end: the frames hold exactly the attempts that were in time, in
   * order; each frame was offered to the queue when full, or at the first reading at which it had reached its age,
   * or last; and whatever the timing there are at most frameBound.
   */
  method Generate(c: Config, clock: seq<int>, taken: nat -> bool) returns (g: Generator, reached: nat)
    requires c.Valid() && ClockOk(clock)
    ensures g.c == c && reached <= c.Keys() && |g.frames| <= c.FrameBound()
    ensures (forall k | 0 <= k < reached :: GroupOf(c, k) < |clock|) && (reached == c.Keys() || reached == |clock| * c.GroupSize())
    ensures Flat(g.frames) == Offered(c, clock, reached)
    ensures |Flat(g.frames)| + g.lagSkips == c.AttemptsOf(reached) <= c.Attempts() && g.queueSkips == Refused(g.frames)
    ensures forall k | 0 <= k < |g.frames| ::
              InTime(c, clock, g.frames[k]) && g.frames[k].taken == taken(k) && (k < |g.frames| - 1 ==> Ripe(c, g.frames[k]))
  {
    hide Flat, Spaced, Config.At, Config.AttemptsOf, Config.Keys, Config.FrameBound, GroupEnd, ClockOk, Generator.Valid,
         Generator.Paced, ReadingAt, AttemptsAt, Offered, GroupOf, InTime;
    g := new Generator(c);
    NothingOffered(c, clock);
    g.NothingPaced(clock, taken);
    reached := 0;
    var i, now := 0, 0;
    while reached < c.Keys() && i < |clock|
      invariant fresh(g) && g.c == c && i <= |clock| && reached == GroupEnd(c, i) <= c.Keys()
      invariant ReadingAt(clock, i, now) && now >= 0
      invariant forall k | 0 <= k < reached :: GroupOf(c, k) < |clock|
      invariant g.Valid(c.AttemptsOf(reached), now) && g.Paced(clock, i, taken) && Flat(g.frames) + g.buffer == Offered(c, clock, reached)
    {
      NextReading(clock, i, now);
      g.Later(c.AttemptsOf(reached), now, clock[i]);
      now := clock[i];
      g.FlushAged(now, taken, c.AttemptsOf(reached), clock, i + 1);
      GroupGrows(c, i);
      var end := GroupEnd(c, i + 1);
      for key := reached to end
        invariant fresh(g) && g.c == c && forall k | 0 <= k < key :: GroupOf(c, k) < |clock|
        invariant g.Valid(c.AttemptsOf(key), now) && g.Paced(clock, i + 1, taken)
        invariant Flat(g.frames) + g.buffer == Offered(c, clock, key)
      {
        KeysOfGroup(c, i, key);
        OfferedNext(c, clock, key);
        g.Take(key, now, taken, clock, i + 1);
      }
      reached := end;
      i := i + 1;
    }
    AttemptsGrow(c, reached);
    GroupsDone(c, i, |clock|);
    g.FlushLast(taken, c.AttemptsOf(reached), now, clock, i);
  }

  lemma NothingOffered(c: Config, clock: seq<int>)
    requires c.Valid() && ClockOk(clock)
    ensures Flat([]) + [] == [] == Offered(c, clock, 0) && c.AttemptsOf(0) == 0 && GroupEnd(c, 0) == 0
    ensures ReadingAt(clock, 0, 0)
  {
  }

  lemma OfferedNext(c: Config, clock: seq<int>, key: nat)
    requires c.Valid() && forall k | 0 <= k < key + 1 :: GroupOf(c, k) < |clock|
    ensures Offered(c, clock, key + 1) == Offered(c, clock, key) + AttemptsAt(c, key, clock[GroupOf(c, key)])
  {
  }

  /** The keys of the i-th group. */
  lemma KeysOfGroup(c: Config, i: nat, key: nat)
    requires GroupEnd(c, i) <= key < GroupEnd(c, i + 1)
    ensures GroupOf(c, key) == i
  {
    Times(i, i + 1, c.GroupSize());
    QuotientIs(key, c.GroupSize(), i);
  }

  lemma GroupsDone(c: Config, i: nat, n: nat)
    requires i <= n && (i == n || GroupEnd(c, i) == c.Keys())
    ensures GroupEnd(c, i) == c.Keys() || GroupEnd(c, i) == n * c.GroupSize()
  {
  }

  /** What is offered is in the order of the keys, originals before repeats, none twice. */
  lemma {:induction false} OfferedInOrder(c: Config, clock: seq<int>, n: nat)
    requires c.Valid() && forall k | 0 <= k < n :: GroupOf(c, k) < |clock|
    ensures Listed(Offered(c, clock, n), n)
  {
    hide GroupOf, Config.At, Listed;
    if n == 0 {
      assert Listed([], 0) by { NothingListed(); }
    } else {
      OfferedInOrder(c, clock, n - 1);
      var s, key := Offered(c, clock, n - 1), n - 1;
      ListedAdd(s, key);
      assert s + [] == s && s + [Attempt(key, false)] + [Attempt(key, true)] == s + [Attempt(key, false), Attempt(key, true)];
    }
  }

  lemma NothingListed()
    ensures Listed([], 0)
  {
  }

  /** This benchmark's due times are the schedule's. */
  lemma AtIsOffset(c: Config, key: nat)
    requires c.Valid()
    ensures c.At(key) == SlotOffset(key, c.rate)
  {
    OffsetIsFloor(key, c.rate);
  }

  /** A group is the most keys that are due within a millisecond, but at least one and at most 256. */
  lemma GroupSizeMeans(c: Config)
    ensures var g := c.GroupSize();
      1 <= g <= 256 && (g == 1 || 1000 * g <= c.rate) && (g == 256 || 1000 * (g + 1) > c.rate)
  {
  }

  /** It is exactly the attempts whose key was not too late at its group's clock reading. */
  lemma {:induction false} OfferedAre(c: Config, clock: seq<int>, n: nat, a: Attempt)
    requires c.Valid() && forall k | 0 <= k < n :: GroupOf(c, k) < |clock|
    ensures a in Offered(c, clock, n) <==>
            && a.key < n && clock[GroupOf(c, a.key)] - SlotOffset(a.key, c.rate) <= c.maxLag
            && (a.repeated ==> c.repeatEvery > 0 && (a.key + 1) % c.repeatEvery == 0)
  {
    hide GroupOf, Config.At, SlotOffset;
    if n > 0 {
      AtIsOffset(c, n - 1);
      OfferedAre(c, clock, n - 1, a);
      assert a in AttemptsAt(c, n - 1, clock[GroupOf(c, n - 1)]) ==> a.key == n - 1;
    }
  }

  lemma GroupGrows(c: Config, i: nat)
    ensures GroupEnd(c, i) <= GroupEnd(c, i + 1) <= c.Keys()
  {
    Times(i, i + 1, c.GroupSize());
  }

  lemma AttemptsGrow(c: Config, n: nat)
    requires n <= c.Keys()
    ensures c.AttemptsOf(n) <= c.Attempts()
  {
    if c.repeatEvery > 0 {
      var q := n / c.repeatEvery;
      FloorBelow(n, c.repeatEvery, c.Keys() / c.repeatEvery + 1);
      FloorBelow(c.Keys(), c.repeatEvery, c.Keys() / c.repeatEvery + 1);
    }
  }

  /** Frames flushed for their age fit the minute. */
  lemma SpacedCount(c: Config, aged: nat, lastFirst: int, lastFlush: int)
    requires c.Valid() && Spaced(c, aged, lastFirst, lastFlush)
    ensures aged <= Div(MINUTE + c.maxLag, c.frameAge) + 1
  {
    if aged > 0 {
      FloorBelow(MINUTE + c.maxLag, c.frameAge, aged - 1);
    }
  }

  lemma BoundHolds(c: Config, full: nat, aged: nat, frames: nat, votes: nat)
    requires c.Valid() && frames <= full + aged + 1 && full <= frames && full * c.frameSize + frames - full <= votes <= c.Attempts()
    requires aged <= Div(MINUTE + c.maxLag, c.frameAge) + 1
    ensures frames <= c.FrameBound()
  {
    hide Config.Attempts, Config.AttemptsOf;
    Times(1, c.frameSize, full);
    assert full * c.frameSize == c.frameSize * full;
    FloorBelow(c.Attempts() + c.frameSize - 1, c.frameSize, full);
  }

  // --------------------------------------------------------------- the WAL

  lemma {:induction false} EncodedLength(crc: FileCodec.Checksum, fs: seq<FileCodec.Frame>, sequence: u64)
    requires sequence + |fs| <= MAX_INT64
    ensures |FileScan.EncodeFrames(crc, fs, sequence)| == 40 * |fs| + 28 * Votes(fs)
  {
    if fs != [] { EncodedLength(crc, fs[1..], sequence + 1); }
  }

  function Votes(fs: seq<FileCodec.Frame>): nat {
    if fs == [] then 0 else |fs[0]| + Votes(fs[1..])
  }

  /**
   * A journal of no more frames than the bound and no more votes than planned, with its headers and its
   * CLOSED, fits the estimate.
   */
  lemma JournalFitsEstimate(c: Config, crc: FileCodec.Checksum, poll: FileCodec.Config, fs: seq<FileCodec.Frame>, closed: bool)
    requires c.Valid() && poll.Valid() && |fs| <= c.FrameBound() && Votes(fs) <= c.Attempts() && |fs| <= MAX_INT64
    ensures |FileCodec.FileHeader(crc, poll) + FileScan.Journal(crc, fs, closed, 0)| <= c.EstimatedWALBytes()
  {
    hide Config.FrameBound, Config.Attempts;
    EncodedLength(crc, fs, 0);
  }

  /** And no larger than it need be: 256 bytes a frame, or four a vote, and 64 MiB above a journal at both bounds. */
  lemma EstimateIsTight(c: Config, crc: FileCodec.Checksum, fs: seq<FileCodec.Frame>)
    requires c.Valid() && |fs| == c.FrameBound() && Votes(fs) == c.Attempts() && |fs| <= MAX_INT64
    ensures var size := |FileScan.EncodeFrames(crc, fs, 0)|;
      c.EstimatedWALBytes() == 64 * 1024 * 1024 + (if size + 256 * |fs| > 32 * Votes(fs) then size + 256 * |fs| else 32 * Votes(fs))
  {
    hide Config.FrameBound, Config.Attempts;
    EncodedLength(crc, fs, 0);
  }

  /** The bound: as many frames as full ones can hold the attempts, one for each age that fits the minute, and two. */
  lemma FrameBoundMeans(c: Config) returns (full: nat, aged: nat)
    requires c.Valid()
    ensures c.Attempts() <= full * c.frameSize < c.Attempts() + c.frameSize
    ensures aged * c.frameAge <= MINUTE + c.maxLag < aged * c.frameAge + c.frameAge
    ensures c.FrameBound() == if c.Attempts() < full + aged + 2 then c.Attempts() else full + aged + 2
  {
    hide Config.Attempts;
    full, aged := Div(c.Attempts() + c.frameSize - 1, c.frameSize), Div(MINUTE + c.maxLag, c.frameAge);
    Quotient(c.Attempts() + c.frameSize - 1, c.frameSize);
    Quotient(MINUTE + c.maxLag, c.frameAge);
  }

  lemma Quotient(n: nat, d: nat)
    requires d > 0
    ensures Div(n, d) * d <= n < Div(n, d) * d + d
  {
  }
}
