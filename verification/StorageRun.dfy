/**
 * Conservation in the storage benchmark (cmd/storagebench/workload.go, cmd/storagebench/timeline.go): every
 * planned attempt is sent, skipped for one reason or never scheduled, and the per-second buckets add up.
 */
module StorageRun {
  import opened Schedule
  import opened Arithmetic

  const SECONDS: nat := 128

  datatype Config = Config(total: nat, rate: nat, repeatEvery: nat, maxLag: nat)
  {
    predicate Valid() {
      1 <= total && 1 <= rate <= 200_000 && total <= rate * 55
    }
  }

  /** attemptsInRange: the slots of a range and the repeats that follow some of them. */
  function Attempts(c: Config, begin: nat, end: nat): int {
    end - begin + (if c.repeatEvery > 0 then end / c.repeatEvery - begin / c.repeatEvery else 0)
  }

  lemma AttemptsOk(c: Config, begin: nat, end: nat)
    requires begin <= end
    ensures Attempts(c, begin, end) >= end - begin
  {
    if c.repeatEvery > 0 { DivGrows(begin, end, c.repeatEvery); }
  }

  function Least(a: nat, b: nat): nat {
    if a < b then a else b
  }

  /** The part of the first n slots that is due in second s. */
  function From(c: Config, n: nat, s: nat): nat {
    Least(n, s * c.rate)
  }

  function Sum(a: seq<nat>): nat {
    if a == [] then 0 else Sum(a[..|a| - 1]) + a[|a| - 1]
  }

  lemma {:induction false} SumUpdate(a: seq<nat>, i: nat, v: nat)
    requires i < |a|
    ensures Sum(a[i := v]) == Sum(a) - a[i] + v
  {
    var n := |a| - 1;
    if i < n {
      assert a[i := v][..n] == a[..n][i := v];
      SumUpdate(a[..n], i, v);
    } else {
      assert a[i := v][..n] == a[..n];
    }
  }

  lemma {:induction false} SumZeros(n: nat)
    ensures Sum(seq(n, _ => 0)) == 0
  {
    if n > 0 {
      assert seq(n, _ => 0)[..n - 1] == seq(n - 1, _ => 0);
      SumZeros(n - 1);
    }
  }

  /** Buckets that hold, second by second, the first n slots and their attempts. */
  ghost predicate Slotted(c: Config, n: nat, logical: seq<nat>, attempts: seq<nat>) {
    && |logical| == |attempts| == SECONDS
    && (forall s: nat | s < SECONDS ::
          && logical[s] == From(c, n, s + 1) - From(c, n, s)
          && attempts[s] == InSecond(c, n, s))
  }

  /** The attempts of the first n slots that are due in second s. */
  function InSecond(c: Config, n: nat, s: nat): int {
    Attempts(c, From(c, n, s), From(c, n, s + 1))
  }

  /** Slots of one second fill no other second's bucket. */
  lemma OtherSecond(c: Config, n: nat, until: nat, s: nat, r: nat)
    requires s * c.rate <= n <= until <= (s + 1) * c.rate && r != s
    ensures From(c, until, r + 1) - From(c, until, r) == From(c, n, r + 1) - From(c, n, r)
    ensures InSecond(c, until, r) == InSecond(c, n, r)
  {
    if r < s {
      Times(r + 1, s, c.rate);
      Times(r, s, c.rate);
      assert From(c, until, r) == From(c, n, r) && From(c, until, r + 1) == From(c, n, r + 1);
    } else {
      Times(s + 1, r, c.rate);
      Times(r, r + 1, c.rate);
      assert From(c, until, r) == until && From(c, until, r + 1) == until && From(c, n, r) == n && From(c, n, r + 1) == n;
    }
  }

  /** ... and their own second's by their attempts. */
  lemma OwnSecond(c: Config, n: nat, until: nat, s: nat)
    requires s * c.rate <= n <= until <= (s + 1) * c.rate
    ensures InSecond(c, until, s) == InSecond(c, n, s) + Attempts(c, n, until)
  {
    assert From(c, n, s) == s * c.rate == From(c, until, s);
    assert From(c, n, s + 1) == n && From(c, until, s + 1) == until;
  }

  /** One turn of eachScheduleSecond's loop: the slots from n to until are due in one second. */
  lemma SlottedStep(c: Config, n: nat, until: nat, s: nat, logical: seq<nat>, attempts: seq<nat>)
    requires Slotted(c, n, logical, attempts) && s * c.rate <= n <= until <= (s + 1) * c.rate && s < SECONDS
    ensures Attempts(c, n, until) >= 0
    ensures Slotted(c, until, logical[s := logical[s] + (until - n)], attempts[s := attempts[s] + Attempts(c, n, until)])
  {
    AttemptsOk(c, n, until);
    forall r: nat | r < SECONDS && r != s
      ensures From(c, until, r + 1) - From(c, until, r) == From(c, n, r + 1) - From(c, n, r)
      ensures InSecond(c, until, r) == InSecond(c, n, r)
    {
      OtherSecond(c, n, until, s, r);
    }
    assert From(c, n, s) == s * c.rate == From(c, until, s);
    assert From(c, n, s + 1) == n && From(c, until, s + 1) == until;
    hide From;
  }

  /** The buckets of the first n slots add up to them. */
  lemma {:induction false} SlottedSums(c: Config, n: nat, logical: seq<nat>, attempts: seq<nat>, k: nat)
    requires Slotted(c, n, logical, attempts) && k <= SECONDS
    ensures Sum(logical[..k]) == From(c, n, k) && Sum(attempts[..k]) == Attempts(c, 0, From(c, n, k))
  {
    if k > 0 {
      SlottedSums(c, n, logical, attempts, k - 1);
      hide From;
      assert logical[..k][..k - 1] == logical[..k - 1] && attempts[..k][..k - 1] == attempts[..k - 1];
    }
  }

  function SecondIndex(elapsed: int): nat {
    if elapsed < 0 then 0 else Least(SECONDS - 1, elapsed / SECOND)
  }

  /** The second a slot is due in. */
  function SecondAt(c: Config, slot: nat): nat
    requires c.Valid()
  {
    slot / c.rate
  }

  /** Where the slots of the same second, as far as the range goes, end. */
  function SecondEnd(c: Config, begin: nat, end: nat): nat
    requires c.Valid()
  {
    Least(end, (SecondAt(c, begin) + 1) * c.rate)
  }

  lemma SecondOf(c: Config, begin: nat, end: nat)
    requires c.Valid() && begin < end <= c.total
    ensures var s := SecondAt(c, begin);
      && s < 55 && SecondIndex(s * SECOND) == s
      && begin < SecondEnd(c, begin, end) <= end
      && s * c.rate <= begin && SecondEnd(c, begin, end) <= (s + 1) * c.rate
  {
    hide SecondIndex;
    var q := SecondAt(c, begin);
    DivEdges(begin, c.rate);
    Times(q, q, c.rate);
    assert q < 55 by { if q >= 55 { Times(55, q, c.rate); } }
    IndexOfSecond(q);
  }

  lemma IndexOfSecond(q: nat)
    requires q < SECONDS
    ensures SecondIndex(q * SECOND) == q
  {
    QuotientIs(q * SECOND, SECOND, q);
  }

  lemma DivEdges(n: nat, d: nat)
    requires d > 0
    ensures n / d * d <= n < n / d * d + d
  {
  }

  // ----------------------------------------------------------- observations

  /** What happens to a queued attempt: the context is over, it is too late, or it is sent at some time. */
  datatype Fate = Cancelled | Late | Sent(elapsed: int)

  class Observations {
    const c: Config
    var scheduled: nat
    var queued: nat
    var sent: nat
    /** skips by reason: scheduler_lag, queue_full, worker_lag, cancelled. */
    var lagged: nat
    var full: nat
    var late: nat
    var cancelled: nat
    const logicalAt: array<nat>
    const attemptsAt: array<nat>
    const skippedAt: array<nat>
    const sentAt: array<nat>
    /** The offsets of the attempts in the channel. */
    var jobs: seq<int>
    /** Attempts of the last scheduled slot that are still to be offered. */
    ghost var owed: nat

    constructor (c: Config)
      requires c.Valid()
      ensures Valid() && fresh(Buckets()) && this.c == c && scheduled == 0 && owed == 0 && jobs == [] && lagged == full == 0
    {
      this.c := c;
      scheduled, queued, sent, lagged, full, late, cancelled := 0, 0, 0, 0, 0, 0, 0;
      jobs, owed := [], 0;
      logicalAt, attemptsAt := new nat[SECONDS](_ => 0), new nat[SECONDS](_ => 0);
      skippedAt, sentAt := new nat[SECONDS](_ => 0), new nat[SECONDS](_ => 0);
      new;
      SumZeros(SECONDS);
      hide Sum;
      assert skippedAt[..] == seq(SECONDS, _ => 0) && sentAt[..] == seq(SECONDS, _ => 0);
    }

    ghost function Buckets(): set<object>
      reads this
    {
      {logicalAt, attemptsAt, skippedAt, sentAt}
    }

    ghost predicate Distinct()
      reads this
    {
      && logicalAt != attemptsAt && logicalAt != skippedAt && logicalAt != sentAt
      && attemptsAt != skippedAt && attemptsAt != sentAt && skippedAt != sentAt
      && logicalAt.Length == attemptsAt.Length == skippedAt.Length == sentAt.Length == SECONDS
    }

    function Skipped(): nat
      reads this
    {
      lagged + full + late + cancelled
    }

    ghost predicate Valid()
      reads this, logicalAt, attemptsAt, skippedAt, sentAt
    {
      && c.Valid() && Distinct() && scheduled <= c.total
      && Slotted(c, scheduled, logicalAt[..], attemptsAt[..])
      && Sum(skippedAt[..]) == Skipped() && Sum(sentAt[..]) == sent
      && Attempts(c, 0, scheduled) == queued + lagged + full + owed
      && queued == |jobs| + sent + late + cancelled
    }

    /** The slots from the next one to end, second by second. */
    method ScheduledRange(end: nat)
      requires Valid() && scheduled < end <= c.total && owed == 0
      modifies this`scheduled, this`owed, logicalAt, attemptsAt
      ensures Valid() && scheduled == end && owed == Attempts(c, old(scheduled), end)
    {
      hide Slotted, Attempts, SecondAt, SecondEnd, SecondIndex;
      var begin := scheduled;
      while begin < end
        modifies logicalAt, attemptsAt
        invariant scheduled <= begin <= end
        invariant Slotted(c, begin, logicalAt[..], attemptsAt[..])
      {
        var until := SecondEnd(c, begin, end);
        SecondOf(c, begin, end);
        var i := SecondIndex(SecondAt(c, begin) * SECOND);
        SlottedStep(c, begin, until, i, logicalAt[..], attemptsAt[..]);
        logicalAt[i] := logicalAt[i] + (until - begin);
        attemptsAt[i] := attemptsAt[i] + Attempts(c, begin, until);
        begin := until;
      }
      AttemptsSplit(c, scheduled, end);
      AttemptsOk(c, scheduled, end);
      owed := Attempts(c, scheduled, end);
      scheduled := end;
    }

    /** The slots from begin to end, just scheduled, are given up. */
    method SkipRange(begin: nat, end: nat)
      requires Valid() && begin < end == scheduled && owed == Attempts(c, begin, end)
      modifies this`lagged, this`owed, skippedAt
      ensures Valid() && owed == 0 && lagged == old(lagged) + Attempts(c, begin, end)
      ensures forall s: nat | s < SECONDS :: skippedAt[s] == old(skippedAt[s]) + InSecond(c, end, s) - InSecond(c, begin, s)
    {
      hide Slotted, Attempts, SecondAt, SecondEnd, SecondIndex;
      ghost var before := Sum(skippedAt[..]);
      AttemptsNone(c, begin);
      var at := begin;
      while at < end
        modifies skippedAt
        invariant begin <= at <= end
        invariant forall s: nat | s < SECONDS :: skippedAt[s] == old(skippedAt[s]) + InSecond(c, at, s) - InSecond(c, begin, s)
        invariant Attempts(c, begin, at) >= 0 && Sum(skippedAt[..]) == before + Attempts(c, begin, at)
      {
        var until := SecondEnd(c, at, end);
        SecondOf(c, at, end);
        var i := SecondIndex(SecondAt(c, at) * SECOND);
        AttemptsOk(c, at, until);
        AttemptsOk(c, begin, until);
        AttemptsJoin(c, begin, at, until);
        OwnSecond(c, at, until, i);
        forall r: nat | r < SECONDS && r != i ensures InSecond(c, until, r) == InSecond(c, at, r) { OtherSecond(c, at, until, i, r); }
        Bump(skippedAt, i, Attempts(c, at, until));
        at := until;
      }
      lagged := lagged + Attempts(c, begin, end);
      owed := 0;
    }

    /** One attempt is offered to the channel, or skipped as queue_full. */
    method Offer(offset: int, taken: bool)
      requires Valid() && owed > 0
      modifies this`queued, this`full, this`owed, this`jobs, skippedAt
      ensures Valid() && owed == old(owed) - 1
      ensures taken ==> jobs == old(jobs) + [offset] && queued == old(queued) + 1 && full == old(full)
      ensures !taken ==> jobs == old(jobs) && queued == old(queued) && full == old(full) + 1
      ensures forall s | 0 <= s < skippedAt.Length ::
                skippedAt[s] == old(skippedAt[s]) + (if !taken && s == SecondIndex(offset) then 1 else 0)
    {
      hide Slotted, Attempts;
      owed := owed - 1;
      if taken {
        jobs := jobs + [offset];
        queued := queued + 1;
      } else {
        full := full + 1;
        Bump(skippedAt, SecondIndex(offset), 1);
      }
    }

    /** A worker takes the first job of the channel. */
    method Work(fate: Fate)
      requires Valid() && jobs != []
      modifies this`jobs, this`sent, this`late, this`cancelled, skippedAt, sentAt
      ensures Valid() && jobs == old(jobs)[1..]
      ensures cancelled == old(cancelled) + (if fate.Cancelled? then 1 else 0)
      ensures late == old(late) + (if fate.Late? then 1 else 0)
      ensures sent == old(sent) + (if fate.Sent? then 1 else 0)
      ensures forall s | 0 <= s < skippedAt.Length ::
                skippedAt[s] == old(skippedAt[s]) + (if !fate.Sent? && s == SecondIndex(old(jobs)[0]) then 1 else 0)
      ensures forall s | 0 <= s < sentAt.Length ::
                sentAt[s] == old(sentAt[s]) + (if fate.Sent? && s == SecondIndex(fate.elapsed) then 1 else 0)
    {
      hide Slotted, Attempts;
      var offset := jobs[0];
      jobs := jobs[1..];
      match fate {
        case Cancelled =>
          cancelled := cancelled + 1;
          Bump(skippedAt, SecondIndex(offset), 1);
        case Late =>
          late := late + 1;
          Bump(skippedAt, SecondIndex(offset), 1);
        case Sent(elapsed) =>
          sent := sent + 1;
          Bump(sentAt, SecondIndex(elapsed), 1);
      }
    }

    /** Workers take some of the jobs, as many as there are fates. */
    /** Slots that are too late are scheduled and skipped. */
    method GiveUp(end: nat)
      requires Valid() && scheduled < end <= c.total && owed == 0
      modifies this`scheduled, this`owed, this`lagged, logicalAt, attemptsAt, skippedAt
      ensures Valid() && scheduled == end && owed == 0 && lagged == old(lagged) + Attempts(c, old(scheduled), end)
    {
      hide Attempts, Valid;
      var begin := scheduled;
      ScheduledRange(end);
      SkipRange(begin, end);
    }

    method WorkSome(fates: seq<Fate>)
      requires Valid()
      modifies this`jobs, this`sent, this`late, this`cancelled, skippedAt, sentAt
      ensures Valid() && jobs == old(jobs)[if |fates| < |old(jobs)| then |fates| else |old(jobs)|..]
    {
      var i := 0;
      while i < |fates| && jobs != []
        invariant Valid() && i <= |fates| && i <= |old(jobs)| && jobs == old(jobs)[i..]
      {
        Work(fates[i]);
        i := i + 1;
      }
    }

    /**
     * report after the run: planned attempts are sent, skipped or never scheduled, and the buckets sum to
     * the totals.
     */
    lemma Conservation()
      requires Valid() && jobs == [] && owed == 0
      ensures Attempts(c, 0, c.total) == sent + Skipped() + Attempts(c, scheduled, c.total)
      ensures Sum(logicalAt[..]) == scheduled && Sum(attemptsAt[..]) == sent + Skipped()
      ensures Sum(skippedAt[..]) == Skipped() && Sum(sentAt[..]) == sent
    {
      AttemptsJoin(c, 0, scheduled, c.total);
      SlottedSums(c, scheduled, logicalAt[..], attemptsAt[..], SECONDS);
      Times(55, SECONDS, c.rate);
      assert logicalAt[..][..SECONDS] == logicalAt[..] && attemptsAt[..][..SECONDS] == attemptsAt[..];
    }
  }

  method Bump(a: array<nat>, i: nat, more: nat)
    requires i < a.Length
    modifies a
    ensures Sum(a[..]) == old(Sum(a[..])) + more
    ensures forall k | 0 <= k < a.Length :: a[k] == old(a[k]) + (if k == i then more else 0)
  {
    SumUpdate(a[..], i, a[i] + more);
    ghost var before := a[..];
    a[i] := a[i] + more;
    assert a[..] == before[i := a[i]];
  }

  lemma AttemptsJoin(c: Config, a: nat, b: nat, d: nat)
    ensures Attempts(c, a, b) + Attempts(c, b, d) == Attempts(c, a, d)
  {
  }

  lemma AttemptsSplit(c: Config, a: nat, b: nat)
    ensures Attempts(c, 0, b) == Attempts(c, 0, a) + Attempts(c, a, b)
  {
  }

  lemma AttemptsNone(c: Config, a: nat)
    ensures Attempts(c, a, a) == 0
  {
  }

  /** One slot is one attempt, or two when its repeat follows. */
  lemma AttemptsOfSlot(c: Config, slot: nat)
    ensures Attempts(c, slot, slot + 1) == if c.repeatEvery > 0 && (slot + 1) % c.repeatEvery == 0 then 2 else 1
  {
    if c.repeatEvery > 0 {
      var q, r := slot / c.repeatEvery, slot % c.repeatEvery;
      assert slot == q * c.repeatEvery + r;
      if r + 1 == c.repeatEvery {
        QuotientIs(slot + 1, c.repeatEvery, q + 1);
      } else {
        QuotientIs(slot + 1, c.repeatEvery, q);
      }
    }
  }

  /** One turn of the scheduler: a clock reading, whether each offer is taken, and what workers do meanwhile. */
  datatype Turn = Turn(now: int, first: bool, second: bool, before: seq<Fate>, between: seq<Fate>)

  /** The attempts that the turns give up as too late. */
  function LaggedOf(c: Config, path: seq<nat>, turns: seq<Turn>): int
    requires c.Valid() && |path| <= |turns| + 1
  {
    if |path| <= 1 then 0
    else
      var n := |path| - 2;
      LaggedOf(c, path[..n + 1], turns)
      + if TooLate(path[n], turns[n].now, c.maxLag, c.rate) then Attempts(c, path[n], path[n + 1]) else 0
  }

  /** The attempts that the turns offer to a channel without room. */
  function FullOf(c: Config, path: seq<nat>, turns: seq<Turn>): nat
    requires c.Valid() && |path| <= |turns| + 1
  {
    if |path| <= 1 then 0
    else
      var n := |path| - 2;
      FullOf(c, path[..n + 1], turns)
      + if Offers(c.rate, c.maxLag, turns[n].now, path[n]) then Refused(c, path[n], turns[n]) else 0
  }

  /** Of a slot's attempts, those for which the channel has no room. */
  function Refused(c: Config, slot: nat, turn: Turn): nat {
    (if turn.first then 0 else 1) + (if c.repeatEvery > 0 && (slot + 1) % c.repeatEvery == 0 && !turn.second then 1 else 0)
  }

  lemma PathMore(c: Config, path: seq<nat>, turns: seq<Turn>, to: nat)
    requires c.Valid() && 1 <= |path| <= |turns|
    ensures var from, turn := path[|path| - 1], turns[|path| - 1];
      && LaggedOf(c, path + [to], turns)
         == LaggedOf(c, path, turns) + (if TooLate(from, turn.now, c.maxLag, c.rate) then Attempts(c, from, to) else 0)
      && FullOf(c, path + [to], turns)
         == FullOf(c, path, turns) + (if Offers(c.rate, c.maxLag, turn.now, from) then Refused(c, from, turn) else 0)
  {
    hide TooLate, Offers, Attempts, Refused;
    assert (path + [to])[..|path|] == path;
  }

  lemma NoTurns(c: Config, turns: seq<Turn>)
    requires c.Valid()
    ensures LaggedOf(c, [0], turns) == 0 && FullOf(c, [0], turns) == 0
  {
  }

  /** The loop body of the scheduler, with the workers' progress before and between the offers. */
  method TakeTurn(m: Observations, next: nat, turn: Turn) returns (to: nat)
    requires m.Valid() && m.scheduled == next < m.c.total && m.owed == 0
    modifies m`scheduled, m`owed, m`jobs, m`sent, m`late, m`cancelled, m`queued, m`full, m`lagged
    modifies m.logicalAt, m.attemptsAt, m.skippedAt, m.sentAt
    ensures m.Valid() && m.scheduled == to <= m.c.total && m.owed == 0
    ensures m.c.Valid() && TurnOk(m.c.total, m.c.rate, m.c.maxLag, turn.now, next, to)
    ensures m.lagged == old(m.lagged) + if TooLate(next, turn.now, m.c.maxLag, m.c.rate) then Attempts(m.c, next, to) else 0
    ensures m.full == old(m.full) + if Offers(m.c.rate, m.c.maxLag, turn.now, next) then Refused(m.c, next, turn) else 0
  {
    hide Attempts, Observations.Valid, TurnOk, TooLate, Offers, Refused;
    m.WorkSome(turn.before);
    to := Advance(m, next, turn);
  }

  /** Slots that are too late are given up; the next one is offered if it is due. */
  method Advance(m: Observations, next: nat, turn: Turn) returns (to: nat)
    requires m.Valid() && m.scheduled == next < m.c.total && m.owed == 0
    modifies m`scheduled, m`owed, m`jobs, m`sent, m`late, m`cancelled, m`queued, m`full, m`lagged
    modifies m.logicalAt, m.attemptsAt, m.skippedAt, m.sentAt
    ensures m.Valid() && m.scheduled == to <= m.c.total && m.owed == 0
    ensures m.c.Valid() && TurnOk(m.c.total, m.c.rate, m.c.maxLag, turn.now, next, to)
    ensures m.lagged == old(m.lagged) + if TooLate(next, turn.now, m.c.maxLag, m.c.rate) then Attempts(m.c, next, to) else 0
    ensures m.full == old(m.full) + if Offers(m.c.rate, m.c.maxLag, turn.now, next) then Refused(m.c, next, turn) else 0
  {
    var c := m.c;
    ConfigOk(m);
    hide SlotsBefore, SlotOffset, Attempts, Observations.Valid, TurnOk, TooLate, Offers, Refused;
    TurnIsOk(c.total, c.rate, c.maxLag, turn.now, next);
    LateIsObsolete(c, turn.now, next);
    hide Config.Valid;
    var obsolete := Least(c.total, SlotsBefore(turn.now - c.maxLag, c.rate));
    to := next;
    if obsolete > next {
      m.GiveUp(obsolete);
      to := obsolete;
    } else if SlotOffset(next, c.rate) <= turn.now {
      OfferSlot(m, next, turn);
      to := next + 1;
    }
  }

  /** The attempts of one slot are offered, its repeat after workers have gone on. */
  method OfferSlot(m: Observations, next: nat, turn: Turn)
    requires m.Valid() && m.scheduled == next < m.c.total && m.owed == 0 && m.c.Valid()
    modifies m`scheduled, m`owed, m`jobs, m`sent, m`late, m`cancelled, m`queued, m`full
    modifies m.logicalAt, m.attemptsAt, m.skippedAt, m.sentAt
    ensures m.Valid() && m.scheduled == next + 1 && m.owed == 0
    ensures m.full == old(m.full) + Refused(m.c, next, turn)
  {
    var c := m.c;
    hide SlotOffset, Attempts, Observations.Valid;
    AttemptsOfSlot(c, next);
    m.ScheduledRange(next + 1);
    m.Offer(SlotOffset(next, c.rate), turn.first);
    if c.repeatEvery > 0 && (next + 1) % c.repeatEvery == 0 {
      m.WorkSome(turn.between);
      m.Offer(SlotOffset(next, c.rate), turn.second);
    }
  }

  lemma ConfigOk(m: Observations)
    requires m.Valid()
    ensures m.c.Valid()
  {
  }

  /**
   * A whole run: the scheduler's loop with the workers' progress in between, and the drain after it. Each turn gives
   * up exactly the slots that are too late, or offers the attempts of the next one once it is due; what is given up
   * is counted as lag, what finds no room as full, and every other attempt reaches a worker.
   */
  method Run(c: Config, turns: seq<Turn>, drain: nat -> Fate) returns (m: Observations, ghost path: seq<nat>)
    requires c.Valid()
    ensures m.Valid() && m.c == c && m.jobs == [] && m.owed == 0
    ensures 1 <= |path| <= |turns| + 1 && path[0] == 0 && path[|path| - 1] == m.scheduled
    ensures m.scheduled == c.total || |path| == |turns| + 1
    ensures forall i | 0 <= i < |path| - 1 :: TurnOk(c.total, c.rate, c.maxLag, turns[i].now, path[i], path[i + 1])
    ensures m.lagged == LaggedOf(c, path, turns) && m.full == FullOf(c, path, turns)
    ensures Attempts(c, 0, c.total) == m.sent + m.Skipped() + Attempts(c, m.scheduled, c.total)
    ensures Sum(m.attemptsAt[..]) == m.sent + m.Skipped() && Sum(m.skippedAt[..]) == m.Skipped() && Sum(m.sentAt[..]) == m.sent
  {
    hide SlotsBefore, Attempts, Observations.Valid, TurnOk, LaggedOf, FullOf, TooLate, Offers, Refused;
    m := new Observations(c);
    path := [0];
    NoTurns(c, turns);
    var next, i := 0, 0;
    while next < c.total && i < |turns|
      invariant m.Valid() && m.c == c && m.scheduled == next <= c.total && m.owed == 0
      invariant fresh(m) && fresh(m.Buckets())
      invariant i <= |turns| && |path| == i + 1 && path[0] == 0 && path[i] == next
      invariant forall k | 0 <= k < i :: TurnOk(c.total, c.rate, c.maxLag, turns[k].now, path[k], path[k + 1])
      invariant m.lagged == LaggedOf(c, path, turns) && m.full == FullOf(c, path, turns)
      decreases |turns| - i
    {
      next := TakeTurn(m, next, turns[i]);
      PathMore(c, path, turns, next);
      path := path + [next];
      i := i + 1;
    }
    var k := 0;
    while m.jobs != []
      invariant m.Valid() && m.c == c && m.owed == 0 && m.scheduled == next
      invariant m.lagged == LaggedOf(c, path, turns) && m.full == FullOf(c, path, turns)
      invariant fresh(m) && fresh(m.Buckets())
      decreases |m.jobs|
    {
      m.Work(drain(k));
      k := k + 1;
    }
    m.Conservation();
  }

  lemma LateIsObsolete(c: Config, now: int, next: nat)
    requires c.Valid() && next < c.total
    ensures next < Least(c.total, SlotsBefore(now - c.maxLag, c.rate)) <==> TooLate(next, now, c.maxLag, c.rate)
  {
    DueInTime(next, c.total, now, c.maxLag, c.rate);
  }
}
