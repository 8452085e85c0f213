/**
 * The slot schedule of the load generators (cmd/loadtest/scheduler.go, cmd/storagebench/workload.go):
 * slot i is due at i/rate seconds, rounded down to nanoseconds.
 */
module Schedule {
  import opened Bytes
  import opened Arithmetic

  const SECOND: nat := 1_000_000_000
  const MAX_RATE: nat := 10_000_000

  function SlotsBefore(elapsed: int, rate: nat): nat {
    if elapsed <= 0 then 0 else elapsed / SECOND * rate + (elapsed % SECOND * rate + SECOND - 1) / SECOND
  }

  function SlotOffset(sequence: nat, rate: nat): nat
    requires rate > 0
  {
    sequence / rate * SECOND + sequence % rate * SECOND / rate
  }

  lemma DivAdds(a: nat, b: nat, d: nat)
    requires d > 0
    ensures (a * d + b) / d == a + b / d
  {
    var q, r := b / d, b % d;
    assert b == q * d + r;
    assert (a + q) * d == a * d + q * d;
    QuotientIs(a * d + b, d, a + q);
  }

  /** Splitting off whole seconds does not change the count: it is the rounded-up product. */
  lemma SlotsAreCeiling(elapsed: nat, rate: nat)
    ensures SlotsBefore(elapsed, rate) == (elapsed * rate + SECOND - 1) / SECOND
  {
    var q, m := elapsed / SECOND, elapsed % SECOND;
    Split(q, m, SECOND, rate);
    DivAdds(q * rate, m * rate + SECOND - 1, SECOND);
  }

  lemma Split(q: nat, m: nat, d: nat, k: nat)
    ensures (q * d + m) * k == q * k * d + m * k
  {
  }

  lemma OffsetIsFloor(sequence: nat, rate: nat)
    requires rate > 0
    ensures SlotOffset(sequence, rate) == sequence * SECOND / rate
  {
    WholeSeconds(sequence / rate, sequence % rate, rate);
  }

  lemma WholeSeconds(q: nat, m: nat, rate: nat)
    requires rate > 0
    ensures (q * rate + m) * SECOND / rate == q * SECOND + m * SECOND / rate
  {
    Split(q, m, rate, SECOND);
    DivAdds(q * SECOND, m * SECOND, rate);
  }

  lemma BelowCeiling(i: nat, n: nat, d: nat)
    requires d > 0
    ensures i < (n + d - 1) / d <==> i * d < n
  {
    var c := (n + d - 1) / d;
    assert c * d <= n + d - 1 < c * d + d;
    if i < c { Times(i + 1, c, d); Times(i, i, d); } else { Times(c, i, d); }
  }

  /** A slot is counted before an instant exactly when it is due before that instant. */
  lemma SlotAdjunction(i: nat, elapsed: int, rate: nat)
    requires rate > 0
    ensures i < SlotsBefore(elapsed, rate) <==> SlotOffset(i, rate) < elapsed
  {
    if elapsed > 0 {
      hide SlotsBefore, SlotOffset;
      SlotsAreCeiling(elapsed, rate);
      OffsetIsFloor(i, rate);
      BelowCeiling(i, elapsed * rate, SECOND);
      FloorBelow(i * SECOND, rate, elapsed);
    }
  }

  /** Hence both are monotone. */
  lemma SlotsMonotone(d: int, e: int, rate: nat)
    requires d <= e && rate > 0
    ensures SlotsBefore(d, rate) <= SlotsBefore(e, rate)
  {
    hide SlotsBefore, SlotOffset;
    var i := SlotsBefore(e, rate);
    SlotAdjunction(i, e, rate);
    SlotAdjunction(i, d, rate);
  }

  lemma OffsetMonotone(i: nat, j: nat, rate: nat)
    requires i <= j && rate > 0
    ensures SlotOffset(i, rate) <= SlotOffset(j, rate)
  {
    hide SlotsBefore, SlotOffset;
    SlotAdjunction(j, SlotOffset(j, rate) + 1, rate);
    SlotAdjunction(i, SlotOffset(j, rate) + 1, rate);
  }

  /** No intermediate value of slotsBefore overflows int64, for any elapsed time and any accepted rate. */
  lemma SlotsFitInt64(elapsed: i64, rate: nat)
    requires rate <= MAX_RATE && elapsed > 0
    ensures elapsed / SECOND * rate <= MAX_INT64
    ensures elapsed % SECOND * rate + SECOND - 1 <= MAX_INT64
    ensures SlotsBefore(elapsed, rate) <= MAX_INT64
  {
    var q, m := elapsed / SECOND, elapsed % SECOND;
    assert q <= 9_223_372_036;
    Product(q, rate, 9_223_372_036, MAX_RATE);
    Product(m, rate, SECOND, MAX_RATE);
  }

  lemma Product(x: nat, y: nat, a: nat, b: nat)
    requires x <= a && y <= b
    ensures x * y <= a * b
  {
    Times(x, a, y);
    assert a * y <= a * b by { assert y * a <= b * a; }
  }

  /** Nor does slotOffset for the slots of a run of any int64 length. */
  lemma OffsetFitsInt64(sequence: nat, duration: i64, rate: nat)
    requires 0 < rate <= MAX_RATE && sequence < SlotsBefore(duration, rate)
    ensures sequence / rate * SECOND <= MAX_INT64 && sequence % rate * SECOND <= MAX_INT64
    ensures SlotOffset(sequence, rate) < duration
  {
    SlotAdjunction(sequence, duration, rate);
    hide SlotsBefore;
    var q, m := sequence / rate, sequence % rate;
    Product(m, SECOND, MAX_RATE, SECOND);
    NonNegative(m * SECOND, rate);
    assert SlotOffset(sequence, rate) == q * SECOND + m * SECOND / rate;
  }

  lemma NonNegative(n: nat, d: nat)
    requires d > 0
    ensures n / d >= 0
  {
  }

  // ------------------------------------------------------------- schedulers

  /**
   * What one scheduler saw: a clock reading since the start and whether the queue took the slot offered then,
   * if it offered one.
   */
  datatype Tick = Tick(now: int, taken: bool)

  /** scheduledSlots, enqueuedSlot and skip by reason, and the slots offered with their ages. */
  datatype Offer = Offer(slot: nat, age: int, taken: bool)

  datatype Tally = Tally(scheduled: nat, enqueued: nat, lagged: nat, full: nat, offers: seq<Offer>)

  /** Slots are offered in ascending order, each when due and at most maxLag late. */
  ghost predicate OffersOk(offers: seq<Offer>, next: nat, maxLag: nat) {
    && (forall i | 0 <= i < |offers| :: offers[i].slot < next && 0 <= offers[i].age <= maxLag)
    && (forall i, j | 0 <= i < j < |offers| :: offers[i].slot < offers[j].slot)
  }

  function Taken(offers: seq<Offer>): nat {
    if offers == [] then 0 else Taken(offers[..|offers| - 1]) + (if offers[|offers| - 1].taken then 1 else 0)
  }

  lemma NoOffers(maxLag: nat)
    ensures OffersOk([], 0, maxLag) && Taken([]) == 0
  {
  }

  lemma LaterOffers(offers: seq<Offer>, next: nat, later: nat, maxLag: nat)
    requires OffersOk(offers, next, maxLag) && next <= later
    ensures OffersOk(offers, later, maxLag)
  {
  }

  lemma OfferAdd(offers: seq<Offer>, offer: Offer, maxLag: nat)
    requires OffersOk(offers, offer.slot, maxLag) && 0 <= offer.age <= maxLag
    ensures OffersOk(offers + [offer], offer.slot + 1, maxLag)
    ensures Taken(offers + [offer]) == Taken(offers) + (if offer.taken then 1 else 0)
  {
    assert (offers + [offer])[..|offers|] == offers;
  }

  /** The age of the slot due next, if it is due and the schedule has not given it up. */
  lemma DueInTime(next: nat, total: nat, now: int, maxLag: nat, rate: nat)
    requires rate > 0 && next < total
    ensures var obsolete := if SlotsBefore(now - maxLag, rate) < total then SlotsBefore(now - maxLag, rate) else total;
      next < obsolete <==> now - SlotOffset(next, rate) > maxLag
  {
    hide SlotsBefore, SlotOffset;
    SlotAdjunction(next, now - maxLag, rate);
  }

  /** The slot is too late to be offered at this instant. */
  predicate TooLate(slot: nat, now: int, maxLag: nat, rate: nat)
    requires rate > 0
  {
    now - SlotOffset(slot, rate) > maxLag
  }

  /**
   * What one turn of a scheduler does, from slot `from` on: it gives up exactly the slots that are too late, or
   * offers the next one if it is due, or waits.
   */
  ghost predicate TurnOk(total: nat, rate: nat, maxLag: nat, now: int, from: nat, to: nat)
    requires rate > 0
  {
    && from < total && from <= to <= total
    && if TooLate(from, now, maxLag, rate)
       then (forall slot | from <= slot < to :: TooLate(slot, now, maxLag, rate)) && (to < total ==> !TooLate(to, now, maxLag, rate))
       else to == if SlotOffset(from, rate) <= now then from + 1 else from
  }

  /** The turn offers its slot. */
  predicate Offers(rate: nat, maxLag: nat, now: int, from: nat)
    requires rate > 0
  {
    !TooLate(from, now, maxLag, rate) && SlotOffset(from, rate) <= now
  }

  /** Giving up to the obsolete slot, or offering, or waiting, is such a turn. */
  lemma TurnIsOk(total: nat, rate: nat, maxLag: nat, now: int, next: nat)
    requires rate > 0 && next < total
    ensures var obsolete := if SlotsBefore(now - maxLag, rate) < total then SlotsBefore(now - maxLag, rate) else total;
      && (next < obsolete ==> TurnOk(total, rate, maxLag, now, next, obsolete) && !Offers(rate, maxLag, now, next))
      && (next >= obsolete && SlotOffset(next, rate) <= now ==>
            TurnOk(total, rate, maxLag, now, next, next + 1) && Offers(rate, maxLag, now, next))
      && (next >= obsolete && SlotOffset(next, rate) > now ==>
            TurnOk(total, rate, maxLag, now, next, next) && !Offers(rate, maxLag, now, next))
  {
    hide SlotsBefore, SlotOffset;
    var obsolete := if SlotsBefore(now - maxLag, rate) < total then SlotsBefore(now - maxLag, rate) else total;
    forall slot: nat | slot < total ensures slot < obsolete <==> TooLate(slot, now, maxLag, rate) {
      SlotAdjunction(slot, now - maxLag, rate);
    }
  }

  /** The offers that the turns make: one for each turn that offers, of its slot, with its age and whether it was taken. */
  function OffersOf(path: seq<nat>, ticks: seq<Tick>, maxLag: nat, rate: nat): seq<Offer>
    requires rate > 0 && |path| <= |ticks| + 1
  {
    if |path| <= 1 then []
    else
      var n := |path| - 2;
      var from, tick := path[n], ticks[n];
      OffersOf(path[..n + 1], ticks, maxLag, rate)
      + if Offers(rate, maxLag, tick.now, from) then [Offer(from, tick.now - SlotOffset(from, rate), tick.taken)] else []
  }

  lemma OffersMore(path: seq<nat>, ticks: seq<Tick>, maxLag: nat, rate: nat, to: nat)
    requires rate > 0 && 1 <= |path| <= |ticks|
    ensures var from, tick := path[|path| - 1], ticks[|path| - 1];
      OffersOf(path + [to], ticks, maxLag, rate)
      == OffersOf(path, ticks, maxLag, rate)
         + if Offers(rate, maxLag, tick.now, from) then [Offer(from, tick.now - SlotOffset(from, rate), tick.taken)] else []
  {
    assert (path + [to])[..|path|] == path;
  }

  /**
   * cmd/loadtest's schedule, until the context is cancelled, which ends the ticks. Each turn gives up exactly the
   * slots that are too late, or offers the next one once it is due; so slots are offered in order, each at most
   * once, and the counters add up.
   */
  method RunSchedule(rate: nat, duration: i64, maxLag: nat, ticks: seq<Tick>) returns (next: nat, t: Tally, ghost path: seq<nat>)
    requires 0 < rate
    ensures next <= SlotsBefore(duration, rate)
    ensures 1 <= |path| <= |ticks| + 1 && path[0] == 0 && path[|path| - 1] == next
    ensures next == SlotsBefore(duration, rate) || |path| == |ticks| + 1
    ensures forall i | 0 <= i < |path| - 1 :: TurnOk(SlotsBefore(duration, rate), rate, maxLag, ticks[i].now, path[i], path[i + 1])
    ensures t.offers == OffersOf(path, ticks, maxLag, rate)
    ensures t.scheduled == next == t.enqueued + t.lagged + t.full
    ensures OffersOk(t.offers, next, maxLag) && |t.offers| == t.enqueued + t.full && Taken(t.offers) == t.enqueued
  {
    hide SlotsBefore, SlotOffset, OffersOk, Taken, TurnOk, OffersOf, Offers;
    NoOffers(maxLag);
    var total := SlotsBefore(duration, rate);
    next, t := 0, Tally(0, 0, 0, 0, []);
    path := [0];
    NoTurns(ticks, maxLag, rate);
    var i := 0;
    while next < total && i < |ticks|
      invariant next <= total && i <= |ticks| && |path| == i + 1 && path[0] == 0 && path[i] == next
      invariant forall k | 0 <= k < i :: TurnOk(total, rate, maxLag, ticks[k].now, path[k], path[k + 1])
      invariant t.offers == OffersOf(path, ticks, maxLag, rate)
      invariant t.scheduled == next == t.enqueued + t.lagged + t.full
      invariant OffersOk(t.offers, next, maxLag) && |t.offers| == t.enqueued + t.full && Taken(t.offers) == t.enqueued
    {
      var now := ticks[i].now;
      var obsolete := SlotsBefore(now - maxLag, rate);
      if total < obsolete {
        obsolete := total;
      }
      DueInTime(next, total, now, maxLag, rate);
      TurnIsOk(total, rate, maxLag, now, next);
      ghost var from := next;
      if obsolete > next {
        t := t.(scheduled := t.scheduled + (obsolete - next), lagged := t.lagged + (obsolete - next));
        LaterOffers(t.offers, next, obsolete, maxLag);
        next := obsolete;
      } else if SlotOffset(next, rate) <= now {
        var offer := Offer(next, now - SlotOffset(next, rate), ticks[i].taken);
        OfferAdd(t.offers, offer, maxLag);
        t := t.(scheduled := t.scheduled + 1, offers := t.offers + [offer],
                enqueued := t.enqueued + (if offer.taken then 1 else 0), full := t.full + (if offer.taken then 0 else 1));
        next := next + 1;
      }
      OffersMore(path, ticks, maxLag, rate, next);
      assert t.offers == OffersOf(path + [next], ticks, maxLag, rate);
      path := path + [next];
      i := i + 1;
    }
  }

  lemma NoTurns(ticks: seq<Tick>, maxLag: nat, rate: nat)
    requires rate > 0
    ensures OffersOf([0], ticks, maxLag, rate) == []
  {
  }
}
