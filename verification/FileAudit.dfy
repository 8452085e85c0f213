/** The streaming audit itself (cmd/filebench/audit.go, cmd/framebench/audit.go): reconcile and its visitor. */
module FileAudit {
  import opened Bytes
  import opened Wrappers
  import opened Sets
  import FileCodec
  import opened AuditSpec

  /** frameAccumulator; the hash state is what was written to it. */
  datatype Accumulator = Accumulator(active: bool, offset: int, next: nat, admittedAt: i64, written: seq<Input>)

  const IDLE := Accumulator(false, 0, 0, 0, [])

  datatype Report = Report(
    correct: bool, closedPartitions: nat, recorded: nat, recordedFrames: nat, confirmed: nat, confirmedFrames: nat,
    matchedFrames: nat, missingFrames: nat, matched: nat, missing: nat, unknown: nat, canonical: nat, duplicates: nat,
    first: nat, second: nat, unexpected: nat, copies: nat, mismatches: nat)

  const BLANK := Report(false, 0, 0, 0, 0, 0, 0, 0, 0, 0, 0, 0, 0, 0, 0, 0, 0, 0)

  /** Go's unsigned subtraction. */
  function Minus64(a: nat, b: nat): nat {
    (a - b) % TWO_TO_THE_64
  }

  // ------------------------------------------------- accumulators and frames

  /** What one partition's accumulator holds after the votes so far. */
  ghost predicate Gathers(past: seq<Visited>, p: int, a: Accumulator) {
    if a.active then
      var f := At(past, Place(p, a.offset));
      && f != [] && |f| == a.next && f[0].vote.admittedAt == a.admittedAt && Inputs(f) == a.written
      && forall i | 0 <= i < |past| && past[i].place.partition == p :: past[i].place.offset <= a.offset
    else
      forall i | 0 <= i < |past| :: past[i].place.partition != p
  }

  /** A frame that was flushed without complaint. */
  ghost predicate Settled(run: Run, receipts: Receipts, past: seq<Visited>, q: Place) {
    At(past, q) != [] && (q in receipts ==> Matches(run, receipts[q], At(past, q)))
  }

  /** What flush compares. */
  predicate Agrees(run: Run, receipts: Receipts, q: Place, a: Accumulator) {
    q in receipts ==>
      a.next == receipts[q].count && a.admittedAt == receipts[q].admittedAt && run.digest(a.written) == receipts[q].digest
  }

  predicate Behind(acc: seq<Accumulator>, q: Place) {
    0 <= q.partition < |acc| && acc[q.partition].active && q.offset < acc[q.partition].offset
  }

  predicate Current(acc: seq<Accumulator>, q: Place) {
    0 <= q.partition < |acc| && acc[q.partition].active && q.offset == acc[q.partition].offset
  }

  ghost predicate Frames(run: Run, receipts: Receipts, past: seq<Visited>, acc: seq<Accumulator>, flushed: set<Place>) {
    && |acc| == run.partitions
    && (forall p | 0 <= p < |acc| :: Gathers(past, p, acc[p]))
    && (forall q | q in flushed :: Behind(acc, q) && Settled(run, receipts, past, q))
    && (forall i | 0 <= i < |past| :: past[i].place in flushed || Current(acc, past[i].place))
  }

  ghost predicate FrameTally(receipts: Receipts, flushed: set<Place>, r: Report) {
    r.recordedFrames == |flushed| && r.matchedFrames == |flushed * receipts.Keys|
  }

  lemma NothingAt(past: seq<Visited>, q: Place)
    requires forall i | 0 <= i < |past| :: past[i].place != q
    ensures At(past, q) == []
  {
    AtMembers(past, q);
    assert At(past, q) != [] ==> At(past, q)[0] in At(past, q);
  }

  lemma GathersElsewhere(past: seq<Visited>, v: Visited, p: int, a: Accumulator)
    requires Gathers(past, p, a) && v.place.partition != p
    ensures Gathers(past + [v], p, a)
  {
    AtAdd(past, v, Place(p, a.offset));
    hide At, Inputs;
    var more := past + [v];
    assert more[|past|] == v && forall i | 0 <= i < |past| :: more[i] == past[i];
  }

  /** The next vote of the frame being gathered. */
  lemma GathersMore(past: seq<Visited>, v: Visited, a: Accumulator)
    requires Gathers(past, v.place.partition, a) && a.active && a.offset == v.place.offset
    ensures Fits(At(past, v.place), v) <==> v.index == a.next && v.vote.admittedAt == a.admittedAt
    ensures Onward(past, v)
    ensures Gathers(past + [v], v.place.partition, a.(next := a.next + 1, written := a.written + [FileCodec.Input(v.vote.token, v.vote.choice)]))
  {
    AtAdd(past, v, v.place);
    var f := At(past, v.place);
    hide At;
    assert v.place == Place(v.place.partition, a.offset);
    assert Inputs(f + [v]) == Inputs(f) + [FileCodec.Input(v.vote.token, v.vote.choice)];
    var more := past + [v];
    assert more[|past|] == v && forall i | 0 <= i < |past| :: more[i] == past[i];
  }

  lemma NothingYet(past: seq<Visited>, v: Visited, a: Accumulator)
    requires Gathers(past, v.place.partition, a) && (a.active ==> a.offset < v.place.offset)
    ensures At(past, v.place) == [] && Onward(past, v)
  {
    hide At;
    assert forall i | 0 <= i < |past| :: past[i].place != v.place;
    NothingAt(past, v.place);
  }

  /** The first vote of a new frame. */
  lemma GathersNew(past: seq<Visited>, v: Visited, a: Accumulator)
    requires Gathers(past, v.place.partition, a) && (a.active ==> a.offset < v.place.offset)
    ensures Fits(At(past, v.place), v) <==> v.index == 0
    ensures Onward(past, v)
    ensures Gathers(past + [v], v.place.partition,
                    Accumulator(true, v.place.offset, 1, v.vote.admittedAt, [FileCodec.Input(v.vote.token, v.vote.choice)]))
  {
    NothingYet(past, v, a);
    AtAdd(past, v, v.place);
    hide At, Gathers;
    assert Onward(past, v) && At(past + [v], v.place) == [v];
    NewGathers(past, v);
  }

  lemma NewGathers(past: seq<Visited>, v: Visited)
    requires At(past + [v], v.place) == [v] && Onward(past, v)
    ensures Gathers(past + [v], v.place.partition,
                    Accumulator(true, v.place.offset, 1, v.vote.admittedAt, [FileCodec.Input(v.vote.token, v.vote.choice)]))
  {
    hide At;
    var more := past + [v];
    assert more[|past|] == v && forall i | 0 <= i < |past| :: more[i] == past[i];
    assert v.place == Place(v.place.partition, v.place.offset);
    assert Inputs([v]) == [FileCodec.Input(v.vote.token, v.vote.choice)];
  }

  /** Flushed frames stay as they were when a vote comes at a later place of its partition. */
  lemma SettledStays(run: Run, receipts: Receipts, past: seq<Visited>, v: Visited, q: Place)
    requires Settled(run, receipts, past, q) && v.place != q
    ensures Settled(run, receipts, past + [v], q)
  {
    AtAdd(past, v, q);
    hide At;
  }

  lemma FramesAdd(run: Run, receipts: Receipts, past: seq<Visited>, v: Visited, acc: seq<Accumulator>, flushed: set<Place>,
                  a: Accumulator, gone: set<Place>)
    requires Frames(run, receipts, past, acc, flushed) && 0 <= v.place.partition < |acc|
    requires a.active && a.offset == v.place.offset && Gathers(past + [v], v.place.partition, a)
    requires acc[v.place.partition].active ==> acc[v.place.partition].offset <= v.place.offset
    requires gone == Gone(acc[v.place.partition], v)
    requires AllSettled(run, receipts, past, gone)
    ensures Frames(run, receipts, past + [v], acc[v.place.partition := a], flushed + gone)
    ensures flushed !! gone
  {
    hide At, Gathers, Settled;
    var p := v.place.partition;
    var next := acc[p := a];
    var more := past + [v];
    forall o | 0 <= o < |next| ensures Gathers(more, o, next[o]) {
      if o != p { GathersElsewhere(past, v, o, acc[o]); }
    }
    forall q | q in flushed + gone ensures Behind(next, q) && Settled(run, receipts, more, q) {
      assert q.partition == p ==> q.offset < v.place.offset;
      SettledStays(run, receipts, past, v, q);
    }
    forall i | 0 <= i < |more| ensures more[i].place in flushed + gone || Current(next, more[i].place) {
      if i < |past| {
        assert more[i] == past[i];
        assert past[i].place in flushed || Current(acc, past[i].place);
      }
    }
  }

  // --------------------------------------------------------- attempt counts

  ghost predicate Tally(run: Run, past: seq<Visited>, r: Report)
    requires run.Valid()
  {
    && r.recorded == |past|
    && r.canonical == |KeysIn(run, past)| && r.canonical + r.duplicates == r.recorded
    && r.matched == |AckedAttempts(run, past)| && r.matched + r.unknown == r.recorded
    && r.first == |Choosers(run, past, 1)| && r.second == |Choosers(run, past, 2)|
    && r.unexpected == r.copies == r.mismatches == 0
  }

  function Mark(choice: int): bv8 {
    if choice == 1 then 1 else 2
  }

  predicate HasMark(s: bv8, choice: int) {
    s & Mark(choice) != 0
  }

  function AddMark(s: bv8, choice: int): bv8 {
    s | Mark(choice)
  }

  ghost function AttemptsIn(run: Run, past: seq<Visited>): set<Attempt> {
    set i | 0 <= i < |past| :: run.AttemptOf(past[i])
  }

  /** seen[k] marks the choices recorded for key k. */
  ghost predicate Marks(run: Run, past: seq<Visited>, seen: seq<bv8>) {
    && |seen| == run.keys
    && (forall k | 0 <= k < |seen| :: Marked(run, past, k, seen[k]))
  }

  ghost predicate Marked(run: Run, past: seq<Visited>, k: int, s: bv8) {
    && (s & 1 != 0 <==> Attempt(k, 1) in AttemptsIn(run, past))
    && (s & 2 != 0 <==> Attempt(k, 2) in AttemptsIn(run, past))
    && (s == 0 <==> k !in KeysIn(run, past))
  }

  lemma AttemptsInAdd(run: Run, past: seq<Visited>, v: Visited)
    ensures AttemptsIn(run, past + [v]) == AttemptsIn(run, past) + {run.AttemptOf(v)}
  {
    hide Run.AttemptOf;
    var more := past + [v];
    assert more[|past|] == v && forall i | 0 <= i < |past| :: more[i] == past[i];
    forall a | a in AttemptsIn(run, past) + {run.AttemptOf(v)} ensures a in AttemptsIn(run, more) {
      if a in AttemptsIn(run, past) {
        var i :| 0 <= i < |past| && run.AttemptOf(past[i]) == a;
        assert run.AttemptOf(more[i]) == a;
      } else {
        assert run.AttemptOf(more[|past|]) == a;
      }
    }
  }

  lemma MarkBits(s: bv8)
    ensures (s | 1) & 1 != 0 && (s | 2) & 2 != 0 && ((s | 1) & 2 == s & 2) && ((s | 2) & 1 == s & 1)
    ensures s | 1 != 0 && s | 2 != 0
  {
  }

  lemma MarkedUnseen(run: Run, past: seq<Visited>, v: Visited, s: bv8)
    requires Marked(run, past, run.KeyOf(v.vote.token), s) && (v.vote.choice == 1 || v.vote.choice == 2)
    ensures Unseen(run, past, v) <==> !HasMark(s, v.vote.choice)
  {
    assert Unseen(run, past, v) <==> run.AttemptOf(v) !in AttemptsIn(run, past);
  }

  lemma MarksAdd(run: Run, past: seq<Visited>, v: Visited, seen: seq<bv8>)
    requires Marks(run, past, seen) && 0 <= run.KeyOf(v.vote.token) < |seen| && (v.vote.choice == 1 || v.vote.choice == 2)
    ensures var k := run.KeyOf(v.vote.token); Marks(run, past + [v], seen[k := AddMark(seen[k], v.vote.choice)])
  {
    hide AttemptsIn, KeysIn;
    AttemptsInAdd(run, past, v);
    KeysAdd(run, past, v);
    var key := run.KeyOf(v.vote.token);
    MarkBits(seen[key]);
    var next := seen[key := AddMark(seen[key], v.vote.choice)];
    forall k | 0 <= k < |next| ensures Marked(run, past + [v], k, next[k]) {
      assert Marked(run, past, k, seen[k]);
    }
  }

  function Counted(run: Run, r: Report, v: Visited, newKey: bool, acked: bool): Report {
    r.(recorded := r.recorded + 1,
       canonical := r.canonical + (if newKey then 1 else 0),
       duplicates := r.duplicates + (if newKey then 0 else 1),
       first := r.first + (if newKey && v.vote.choice == 1 then 1 else 0),
       second := r.second + (if newKey && v.vote.choice != 1 then 1 else 0),
       matched := r.matched + (if acked then 1 else 0),
       unknown := r.unknown + (if acked then 0 else 1))
  }

  lemma TallyAdd(run: Run, past: seq<Visited>, v: Visited, r: Report)
    requires run.Valid() && Tally(run, past, r) && run.Planned(run.AttemptOf(v)) && Unseen(run, past, v)
    ensures Tally(run, past + [v], Counted(run, r, v, run.KeyOf(v.vote.token) !in KeysIn(run, past), run.StateOf(run.AttemptOf(v)) == Acked))
  {
    hide KeysIn, AckedAttempts, Choosers, Unseen, Run.KeyOf, Run.AttemptOf, Run.StateOf, Run.Planned;
    KeysAdd(run, past, v);
    AckedGrow(run, past, v);
    ChoosersGrow(run, past, v, 1);
    ChoosersGrow(run, past, v, 2);
    assert run.Planned(run.AttemptOf(v)) ==> v.vote.choice == 1 || v.vote.choice == 2 by { PlannedChoice(run, v); }
  }

  lemma PlannedChoice(run: Run, v: Visited)
    ensures run.Planned(run.AttemptOf(v)) ==> v.vote.choice == 1 || v.vote.choice == 2
  {
  }

  lemma AckedGrow(run: Run, past: seq<Visited>, v: Visited)
    requires run.Valid() && run.Planned(run.AttemptOf(v)) && Unseen(run, past, v)
    ensures |AckedAttempts(run, past + [v])|
         == |AckedAttempts(run, past)| + if run.StateOf(run.AttemptOf(v)) == Acked then 1 else 0
  {
    AckedAdd(run, past, v);
  }

  lemma ChoosersGrow(run: Run, past: seq<Visited>, v: Visited, choice: int)
    ensures |Choosers(run, past + [v], choice)|
         == |Choosers(run, past, choice)| + if run.KeyOf(v.vote.token) !in KeysIn(run, past) && v.vote.choice == choice then 1 else 0
  {
    hide KeysIn, FirstChoice;
    ChoosersAdd(run, past, v, choice);
  }

  // ----------------------------------------------------------- the visitor

  /** A receipt whose frame is already over and does not match it. */
  ghost predicate Broken(run: Run, receipts: Receipts, past: seq<Visited>, v: Visited) {
    exists q :: q in receipts && q.partition == v.place.partition && q.offset < v.place.offset
                && !Matches(run, receipts[q], At(past, q))
  }

  /** Unexpected records, physical copies and receipt mismatches. */
  function Faults(r: Report): (nat, nat, nat) {
    (r.unexpected, r.copies, r.mismatches)
  }

  predicate InPlace(run: Run, v: Visited) {
    0 <= v.place.partition < run.partitions && v.place.offset >= 0
  }

  /** The one counter that a refused vote raises says why it was refused. */
  ghost predicate Blames(run: Run, receipts: Receipts, past: seq<Visited>, v: Visited, faults: (nat, nat, nat))
    requires run.Valid()
  {
    || (faults == (1, 0, 0) && (!InPlace(run, v) || !run.Sound(v)))
    || (faults == (0, 1, 0) && InPlace(run, v) && run.Sound(v) && !Unseen(run, past, v))
    || (faults == (0, 0, 1) && InPlace(run, v)
        && (Broken(run, receipts, past, v) || !Onward(past, v) || !Fits(At(past, v.place), v) || (run.Sound(v) && !StateAgrees(run, receipts, v))))
  }

  /** What the counters say of a journal that the auditor does not get through. */
  ghost predicate Reported(run: Run, receipts: Receipts, vs: seq<Visited>, ending: Ending, faults: (nat, nat, nat))
    requires run.Valid()
  {
    || (exists n :: 0 <= n < |vs| && Lawful(run, receipts, vs[..n]) && Blames(run, receipts, vs[..n], vs[n], faults))
    || (Lawful(run, receipts, vs) && faults == (0, 0, 1) && exists q :: q in receipts && !Matches(run, receipts[q], At(vs, q)))
    || (Lawful(run, receipts, vs) && faults == (0, 0, 0) && !ClosedWell(run, vs, ending))
  }

  class Auditor {
    const run: Run
    const receipts: Receipts
    const seen: array<bv8>
    const acc: array<Accumulator>
    var report: Report
    ghost var flushed: set<Place>

    constructor (run: Run, receipts: Receipts, report: Report)
      requires run.Valid() && report == BLANK.(confirmed := report.confirmed, confirmedFrames := report.confirmedFrames)
      ensures fresh(seen) && fresh(acc) && this.run == run && this.receipts == receipts && this.report == report
      ensures Valid([])
    {
      this.run, this.receipts, this.report, flushed := run, receipts, report, {};
      seen := new bv8[run.keys](_ => 0);
      acc := new Accumulator[run.partitions](_ => IDLE);
    }

    ghost predicate Valid(past: seq<Visited>)
      reads this, seen, acc
    {
      && run.Valid()
      && (seen as object) != (acc as object)
      && Lawful(run, receipts, past)
      && Tally(run, past, report)
      && Marks(run, past, seen[..])
      && Frames(run, receipts, past, acc[..], flushed)
      && FrameTally(receipts, flushed, report)
    }

    /** flush: false when the frame differs from its receipt. */
    method Flush(p: nat) returns (ok: bool)
      requires p < acc.Length && (acc[p].active ==> Place(p, acc[p].offset) !in flushed)
      requires FrameTally(receipts, flushed, report)
      modifies this`report, this`flushed, acc
      ensures var a := old(acc[p]); var q := Place(p, a.offset);
        && ok == (a.active ==> Agrees(run, receipts, q, a))
        && (ok ==>
              && flushed == old(flushed) + (if a.active then {q} else {})
              && acc[..] == old(acc[..])[p := a.(active := false)]
              && FrameTally(receipts, flushed, report))
      ensures report == old(report).(recordedFrames := report.recordedFrames, matchedFrames := report.matchedFrames, mismatches := report.mismatches)
      ensures report.matchedFrames <= |receipts| && report.mismatches == old(report.mismatches) + (if ok then 0 else 1)
    {
      var a := acc[p];
      var q := Place(p, a.offset);
      FlushedTally(receipts, flushed, q);
      if !a.active {
        assert acc[..] == acc[..][p := a.(active := false)];
        assert flushed + {} == flushed;
        return true;
      }
      report := report.(recordedFrames := report.recordedFrames + 1);
      if q in receipts {
        var receipt := receipts[q];
        if a.next != receipt.count || a.admittedAt != receipt.admittedAt || run.digest(a.written) != receipt.digest {
          report := report.(mismatches := report.mismatches + 1);
          return false;
        }
        report := report.(matchedFrames := report.matchedFrames + 1);
      }
      acc[p] := a.(active := false);
      flushed := flushed + {q};
      ok := true;
    }

    /** Makes the accumulator of the vote's partition the one of the vote's frame, flushing the frame before it. */
    method Turn(v: Visited, ghost past: seq<Visited>) returns (ok: bool)
      requires 0 <= v.place.partition < acc.Length
      requires Frames(run, receipts, past, acc[..], flushed) && FrameTally(receipts, flushed, report)
      modifies this`report, this`flushed, acc
      ensures !ok ==> Broken(run, receipts, past, v) || !Onward(past, v)
      ensures ok ==> Turned(run, receipts, past, v, old(acc[..]), old(flushed), acc[..], flushed) && FrameTally(receipts, flushed, report)
      ensures report == old(report).(recordedFrames := report.recordedFrames, matchedFrames := report.matchedFrames, mismatches := report.mismatches)
      ensures report.matchedFrames <= |receipts| && report.mismatches == old(report.mismatches) + (if ok then 0 else 1)
    {
      hide Gathers, Onward, Fits, Frames, Run.Valid, Broken, Gone, Agrees, Turned;
      var p := v.place.partition;
      var a := acc[p];
      ghost var before := acc[..];
      NotYetFlushed(run, receipts, past, before, flushed, p);
      FlushedTally(receipts, flushed, v.place);
      hide FrameTally;
      GoneSettled(run, receipts, past, v, a);
      if a.active && a.offset == v.place.offset {
        TurnedSame(run, receipts, past, v, before, flushed);
        return true;
      }
      if a.active && v.place.offset < a.offset {
        report := report.(mismatches := report.mismatches + 1);
        BackwardsNotOnward(past, v, a);
        return false;
      }
      TurnedNew(run, receipts, past, v, before, flushed);
      ok := Flush(p);
      if !ok {
        return;
      }
      acc[p] := Accumulator(true, v.place.offset, 0, v.vote.admittedAt, []);
    }

    /** The visitor's frame checks: the vote goes on with its partition's frame or starts the next one. */
    method Arrive(v: Visited, ghost past: seq<Visited>) returns (ok: bool)
      requires 0 <= v.place.partition < acc.Length
      requires Frames(run, receipts, past, acc[..], flushed) && FrameTally(receipts, flushed, report)
      modifies this`report, this`flushed, acc
      ensures ok ==> Onward(past, v) && Fits(At(past, v.place), v) && FrameTally(receipts, flushed, report)
      ensures ok ==> Frames(run, receipts, past + [v], acc[..][v.place.partition := Written(acc[v.place.partition], v)], flushed)
      ensures !ok ==> Broken(run, receipts, past, v) || !(Onward(past, v) && Fits(At(past, v.place), v))
      ensures report == old(report).(recordedFrames := report.recordedFrames, matchedFrames := report.matchedFrames, mismatches := report.mismatches)
      ensures report.matchedFrames <= |receipts| && report.mismatches == old(report.mismatches) + (if ok then 0 else 1)
    {
      hide At, Onward, Fits, Frames, Run.Valid, Broken, FrameTally, Turned;
      var p := v.place.partition;
      ghost var before, flushed0 := acc[..], flushed;
      ok := Turn(v, past);
      if !ok {
        return;
      }
      ghost var turned := acc[..];
      TurnedFrames(run, receipts, past, v, before, flushed0, turned, flushed);
      if v.index != acc[p].next || v.vote.admittedAt != acc[p].admittedAt {
        report := report.(mismatches := report.mismatches + 1);
        return false;
      }
      acc[p] := acc[p].(next := acc[p].next + 1);
      assert acc[..][p := Written(acc[p], v)] == turned[p := Written(acc[p], v)];
    }

    /** The visitor's checks of the vote by itself, up to the client's state of its attempt. */
    method Check(v: Visited) returns (state: Option<Outcome>)
      requires run.Valid() && 0 <= v.place.partition < run.partitions && v.place.offset >= 0
      modifies this`report
      ensures state.Some? <==> run.Sound(v)
      ensures state.Some? ==> state.value == run.StateOf(run.AttemptOf(v))
      ensures report == old(report).(unexpected := old(report.unexpected) + if state.Some? then 0 else 1)
    {
      if v.vote.admittedAt < run.startsAt || v.vote.admittedAt >= run.endsAt {
        report := report.(unexpected := report.unexpected + 1);
        return None;
      }
      var decoded := run.DecodeKey(v.vote.token);
      if decoded.None? {
        report := report.(unexpected := report.unexpected + 1);
        return None;
      }
      var key := decoded.value;
      if v.vote.choice != 1 && (v.vote.choice != 2 || run.repeatEvery == 0 || (key + 1) % run.repeatEvery != 0) {
        report := report.(unexpected := report.unexpected + 1);
        return None;
      }
      var outcome := run.StateOf(Attempt(key, v.vote.choice));
      if outcome != Acked && outcome != Unknown {
        report := report.(unexpected := report.unexpected + 1);
        return None;
      }
      state := Some(outcome);
    }

    /** The rest of the visitor: the attempt is new, and receipted exactly if acknowledged. */
    method Record(v: Visited, state: Outcome, ghost past: seq<Visited>) returns (ok: bool)
      requires run.Valid() && run.Sound(v) && state == run.StateOf(run.AttemptOf(v))
      requires Tally(run, past, report) && Marks(run, past, seen[..])
      modifies this`report, seen
      ensures ok <==> StateAgrees(run, receipts, v) && Unseen(run, past, v)
      ensures ok ==> Tally(run, past + [v], report) && Marks(run, past + [v], seen[..])
      ensures !ok ==> report.matched == old(report.matched)
      ensures !ok ==> Faults(report) == if Unseen(run, past, v) then (0, 0, 1) else (0, 1, 0)
      ensures report.matchedFrames == old(report.matchedFrames) && report.recordedFrames == old(report.recordedFrames)
      ensures report.confirmed == old(report.confirmed) && report.confirmedFrames == old(report.confirmedFrames)
    {
      var key := run.KeyOf(v.vote.token);
      assert run.Planned(run.AttemptOf(v)) && 0 <= key < run.keys == seen.Length && Marked(run, past, key, seen[key]);
      PlannedChoice(run, v);
      assert StateAgrees(run, receipts, v) <==> (state == Acked <==> v.place in receipts);
      hide Run.KeyOf, Run.AttemptOf, Run.StateOf, Run.Valid, Run.Sound, Run.Planned, StateAgrees;
      hide Marked, Unseen, Tally, Marks, HasMark, AddMark;
      MarkedUnseen(run, past, v, seen[key]);
      if HasMark(seen[key], v.vote.choice) {
        report := report.(copies := report.copies + 1);
        return false;
      }
      MarksAdd(run, past, v, seen[..]);
      TallyAdd(run, past, v, report);
      var newKey := IsNew(run, past, key, seen[key]);
      report := report.(canonical := report.canonical + (if newKey then 1 else 0),
                        first := report.first + (if newKey && v.vote.choice == 1 then 1 else 0),
                        second := report.second + (if newKey && v.vote.choice != 1 then 1 else 0),
                        duplicates := report.duplicates + (if newKey then 0 else 1));
      ghost var marks := seen[..];
      seen[key] := AddMark(seen[key], v.vote.choice);
      assert seen[..] == marks[key := AddMark(marks[key], v.vote.choice)];
      if (state == Acked) != (v.place in receipts) {
        report := report.(mismatches := report.mismatches + 1);
        return false;
      }
      report := report.(matched := report.matched + (if state == Acked then 1 else 0),
                        unknown := report.unknown + (if state == Acked then 0 else 1),
                        recorded := report.recorded + 1);
      ok := true;
    }

    method Visit(v: Visited, ghost past: seq<Visited>) returns (ok: bool)
      requires Valid(past)
      modifies this`report, this`flushed, acc, seen
      ensures ok ==> Valid(past + [v])
      ensures !ok ==> !Next(run, receipts, past, v) || Broken(run, receipts, past, v)
      ensures !ok ==> Blames(run, receipts, past, v, Faults(report))
      ensures Bounded(report) && report.confirmed == old(report.confirmed) && report.confirmedFrames == old(report.confirmedFrames)
    {
      hide Lawful, Marks, Frames, Run.Valid, Run.Sound, Broken, Onward, Unseen, Fits, Run.AttemptOf, Run.StateOf, KeysIn, AckedAttempts, Choosers, Ledger;
      BoundedNow(past);
      if v.place.partition < 0 || v.place.partition >= acc.Length || v.place.offset < 0 {
        report := report.(unexpected := report.unexpected + 1);
        OutOfPlace(run, receipts, past, v);
        return false;
      }
      ok := Arrive(v, past);
      if !ok {
        return;
      }
      var state := Check(v);
      if state.None? {
        return false;
      }
      assert seen[..] == old(seen[..]);
      ok := Record(v, state.value, past);
      if !ok {
        return;
      }
      var p := v.place.partition;
      acc[p] := Written(acc[p], v);
      LawfulAdd(run, receipts, past, v);
      BoundedNow(past + [v]);
    }

    /** The flushes after the last vote: every frame is settled, or one differs from its receipt. */
    method FlushAll(ghost past: seq<Visited>) returns (ok: bool)
      requires Valid(past)
      modifies this`report, this`flushed, acc
      ensures ok ==> flushed == PlacesIn(past) && AllSettled(run, receipts, past, flushed) && FrameTally(receipts, flushed, report)
      ensures !ok ==> exists q :: q in receipts && !Matches(run, receipts[q], At(past, q))
      ensures ok ==> forall p | 0 <= p < acc.Length :: acc[p].offset == old(acc[p].offset)
      ensures report == old(report).(recordedFrames := report.recordedFrames, matchedFrames := report.matchedFrames, mismatches := report.mismatches)
      ensures Bounded(report) && report.mismatches == if ok then 0 else 1
    {
      hide Lawful, Marks, Frames, Flushing, Matches, At, PlacesIn, Agrees, Ledger, AllSettled, KeysIn, AckedAttempts, Choosers, Run.Valid;
      ghost var before, flushed0 := acc[..], flushed;
      BoundedNow(past);
      FlushingStarts(run, receipts, past, before, flushed0);
      assert report.mismatches == 0;
      assert report.matched <= |Ledger(run)|;
      hide Valid, FrameTally, Tally;
      for p := 0 to acc.Length
        invariant Flushing(run, receipts, past, before, flushed0, p, acc[..], flushed)
        invariant FrameTally(receipts, flushed, report)
        invariant report == old(report).(recordedFrames := report.recordedFrames, matchedFrames := report.matchedFrames)
        invariant report.matchedFrames <= |receipts|
      {
        FlushingStep(run, receipts, past, before, flushed0, p, acc[..], flushed);
        ok := Flush(p);
        if !ok {
          return;
        }
      }
      FlushingOffsets(run, receipts, past, before, flushed0, acc.Length, acc[..], flushed);
      FramesOver(run, receipts, past, before, flushed0);
      ok := true;
    }

    ghost predicate Bounded(r: Report)
    {
      r.matchedFrames <= |receipts| && r.matched <= |Ledger(run)|
    }

    lemma NoFaults(past: seq<Visited>)
      requires Valid(past)
      ensures Faults(report) == (0, 0, 0) && Lawful(run, receipts, past)
    {
    }

    lemma BoundedNow(past: seq<Visited>)
      requires Valid(past)
      ensures Bounded(report) && |acc[..]| == run.partitions
    {
      MatchedWithin(run, past);
      MatchedBound(receipts, flushed);
    }
  }

  /** A key without marks has not been recorded. */
  function IsNew(run: Run, ghost past: seq<Visited>, key: nat, s: bv8): (r: bool)
    requires Marked(run, past, key, s)
    ensures r <==> key !in KeysIn(run, past)
  {
    s == 0
  }

  lemma OutOfPlace(run: Run, receipts: Receipts, past: seq<Visited>, v: Visited)
    requires run.Valid() && !(0 <= v.place.partition < run.partitions && v.place.offset >= 0)
    ensures !Next(run, receipts, past, v)
  {
  }

  lemma MatchedWithin(run: Run, past: seq<Visited>)
    requires run.Valid()
    ensures |AckedAttempts(run, past)| <= |Ledger(run)|
    ensures |AckedAttempts(run, past)| == |Ledger(run)| ==> AckedAttempts(run, past) == Ledger(run)
  {
    AckedWithinLedger(run, past);
    Subset(AckedAttempts(run, past), Ledger(run));
  }

  /** The hash after one more entry is written to it. */
  function Written(a: Accumulator, v: Visited): Accumulator {
    a.(written := a.written + [FileCodec.Input(v.vote.token, v.vote.choice)])
  }

  /** The accumulator is ready to take the vote. */
  ghost predicate Ready(past: seq<Visited>, v: Visited, a: Accumulator) {
    && Onward(past, v)
    && (Fits(At(past, v.place), v) <==> v.index == a.next && v.vote.admittedAt == a.admittedAt)
    && Gathers(past + [v], v.place.partition, Written(a.(next := a.next + 1), v))
  }

  ghost function Gone(a: Accumulator, v: Visited): set<Place> {
    if a.active && a.offset < v.place.offset then {Place(v.place.partition, a.offset)} else {}
  }

  ghost predicate AllSettled(run: Run, receipts: Receipts, past: seq<Visited>, gone: set<Place>) {
    forall q | q in gone :: Settled(run, receipts, past, q)
  }

  /** What flush finds of the frame that the vote ends, if it ends one. */
  lemma GoneSettled(run: Run, receipts: Receipts, past: seq<Visited>, v: Visited, a: Accumulator)
    requires Gathers(past, v.place.partition, a)
    ensures var q := Place(v.place.partition, a.offset);
      var same := a.active ==> Agrees(run, receipts, q, a);
      && (a.active && a.offset < v.place.offset && !same ==> Broken(run, receipts, past, v))
      && (same ==> AllSettled(run, receipts, past, Gone(a, v)))
    ensures a.active && a.offset == v.place.offset ==> Gone(a, v) == {} && AllSettled(run, receipts, past, {})
    ensures a.offset < v.place.offset || !a.active ==> Gone(a, v) == if a.active then {Place(v.place.partition, a.offset)} else {}
  {
    hide Gathers, Settled, Matches, At;
    SettledNow(run, receipts, past, v.place.partition, a);
  }

  /** The accumulators and flushed frames when the accumulator of the vote's partition is ready for it. */
  ghost predicate Turned(run: Run, receipts: Receipts, past: seq<Visited>, v: Visited, before: seq<Accumulator>, flushed0: set<Place>,
                         acc: seq<Accumulator>, flushed: set<Place>) {
    var p := v.place.partition;
    && 0 <= p < |acc| == |before|
    && acc == before[p := acc[p]] && acc[p].active && acc[p].offset == v.place.offset && Ready(past, v, acc[p])
    && (before[p].active ==> before[p].offset <= v.place.offset)
    && flushed == flushed0 + Gone(before[p], v) && AllSettled(run, receipts, past, Gone(before[p], v))
  }

  lemma TurnedSame(run: Run, receipts: Receipts, past: seq<Visited>, v: Visited, acc: seq<Accumulator>, flushed: set<Place>)
    requires 0 <= v.place.partition < |acc| && Gathers(past, v.place.partition, acc[v.place.partition])
    requires acc[v.place.partition].active && acc[v.place.partition].offset == v.place.offset
    ensures Turned(run, receipts, past, v, acc, flushed, acc, flushed)
  {
    hide Gathers, Ready, Settled;
    ReadyMore(past, v, acc[v.place.partition]);
  }

  lemma TurnedNew(run: Run, receipts: Receipts, past: seq<Visited>, v: Visited, acc: seq<Accumulator>, flushed: set<Place>)
    requires 0 <= v.place.partition < |acc| && Gathers(past, v.place.partition, acc[v.place.partition])
    requires acc[v.place.partition].active ==> acc[v.place.partition].offset < v.place.offset
    ensures var p, a := v.place.partition, acc[v.place.partition];
      (a.active ==> Agrees(run, receipts, Place(p, a.offset), a)) ==>
        Turned(run, receipts, past, v, acc, flushed,
               acc[p := a.(active := false)][p := Accumulator(true, v.place.offset, 0, v.vote.admittedAt, [])],
               flushed + if a.active then {Place(p, a.offset)} else {})
  {
    hide Gathers, Ready, Settled, Agrees, AllSettled, Gone;
    var p, a := v.place.partition, acc[v.place.partition];
    GoneSettled(run, receipts, past, v, a);
    ReadyNew(past, v, a);
    var b := Accumulator(true, v.place.offset, 0, v.vote.admittedAt, []);
    assert acc[p := a.(active := false)][p := b] == acc[p := b];
  }

  lemma TurnedFrames(run: Run, receipts: Receipts, past: seq<Visited>, v: Visited, before: seq<Accumulator>, flushed0: set<Place>,
                     acc: seq<Accumulator>, flushed: set<Place>)
    requires Turned(run, receipts, past, v, before, flushed0, acc, flushed) && Frames(run, receipts, past, before, flushed0)
    ensures var p, a := v.place.partition, acc[v.place.partition];
      && Onward(past, v)
      && (Fits(At(past, v.place), v) <==> v.index == a.next && v.vote.admittedAt == a.admittedAt)
      && Frames(run, receipts, past + [v], acc[p := Written(a.(next := a.next + 1), v)], flushed)
  {
    hide Gathers, Frames, AllSettled, Gone, At, Fits, Onward;
    var p, a := v.place.partition, acc[v.place.partition];
    var b := Written(a.(next := a.next + 1), v);
    FramesAdd(run, receipts, past, v, before, flushed0, b, Gone(before[p], v));
    assert before[p := a][p := b] == before[p := b];
  }

  lemma ReadyMore(past: seq<Visited>, v: Visited, a: Accumulator)
    requires Gathers(past, v.place.partition, a) && a.active && a.offset == v.place.offset
    ensures Ready(past, v, a)
  {
    GathersMore(past, v, a);
  }

  lemma ReadyNew(past: seq<Visited>, v: Visited, a: Accumulator)
    requires Gathers(past, v.place.partition, a) && (a.active ==> a.offset < v.place.offset)
    ensures Ready(past, v, Accumulator(true, v.place.offset, 0, v.vote.admittedAt, []))
  {
    hide Gathers, At, Onward, Fits;
    GathersNew(past, v, a);
    assert [] + [FileCodec.Input(v.vote.token, v.vote.choice)] == [FileCodec.Input(v.vote.token, v.vote.choice)];
    assert v.index == 0 <==> v.index == 0 && v.vote.admittedAt == v.vote.admittedAt;
  }

  /** The frames being gathered in the first n partitions. */
  ghost function Ends(acc: seq<Accumulator>, n: nat): set<Place>
    requires n <= |acc|
  {
    set p | 0 <= p < n && acc[p].active :: Place(p, acc[p].offset)
  }

  ghost predicate Stopped(before: seq<Accumulator>, p: nat, acc: seq<Accumulator>) {
    && p <= |acc| == |before|
    && (forall i | 0 <= i < |acc| :: acc[i] == if i < p then before[i].(active := false) else before[i])
  }

  lemma StoppedStep(before: seq<Accumulator>, p: nat, acc: seq<Accumulator>)
    requires Stopped(before, p, acc) && p < |acc|
    ensures acc[p] == before[p] && Stopped(before, p + 1, acc[p := acc[p].(active := false)])
  {
  }

  /** The final flushes after p partitions, from the accumulators as the last vote left them. */
  ghost predicate Flushing(run: Run, receipts: Receipts, past: seq<Visited>, before: seq<Accumulator>, flushed0: set<Place>,
                           p: nat, acc: seq<Accumulator>, flushed: set<Place>) {
    && Stopped(before, p, acc)
    && flushed == flushed0 + Ends(before, p)
    && AllSettled(run, receipts, past, flushed)
    && Frames(run, receipts, past, before, flushed0)
  }

  lemma FlushingStarts(run: Run, receipts: Receipts, past: seq<Visited>, acc: seq<Accumulator>, flushed: set<Place>)
    requires Frames(run, receipts, past, acc, flushed)
    ensures Flushing(run, receipts, past, acc, flushed, 0, acc, flushed)
  {
    hide Settled;
    assert flushed + Ends(acc, 0) == flushed;
  }

  lemma FlushingStep(run: Run, receipts: Receipts, past: seq<Visited>, before: seq<Accumulator>, flushed0: set<Place>,
                     p: nat, acc: seq<Accumulator>, flushed: set<Place>)
    requires Flushing(run, receipts, past, before, flushed0, p, acc, flushed) && p < |acc|
    ensures var a := acc[p];
      var q := Place(p, a.offset);
      && (a.active ==> q !in flushed)
      && (a.active && !Agrees(run, receipts, q, a) ==> q in receipts && !Matches(run, receipts[q], At(past, q)))
      && ((a.active ==> Agrees(run, receipts, q, a)) ==>
            Flushing(run, receipts, past, before, flushed0, p + 1, acc[p := a.(active := false)], flushed + if a.active then {q} else {}))
  {
    StoppedStep(before, p, acc);
    hide Stopped;
    NotYetFlushed(run, receipts, past, before, flushed0, p);
    SettledNow(run, receipts, past, p, acc[p]);
    hide Frames, Gathers, Settled, Matches, At, Agrees;
    assert Ends(before, p + 1) == Ends(before, p) + (if acc[p].active then {Place(p, acc[p].offset)} else {});
    assert flushed0 + Ends(before, p + 1) == flushed + (if acc[p].active then {Place(p, acc[p].offset)} else {});
  }

  lemma FlushingOffsets(run: Run, receipts: Receipts, past: seq<Visited>, before: seq<Accumulator>, flushed0: set<Place>,
                        p: nat, acc: seq<Accumulator>, flushed: set<Place>)
    requires Flushing(run, receipts, past, before, flushed0, p, acc, flushed)
    ensures |acc| == |before| && forall i | 0 <= i < |acc| :: acc[i].offset == before[i].offset
    ensures AllSettled(run, receipts, past, flushed)
    ensures p == |acc| ==> flushed == flushed0 + Ends(before, |before|)
    ensures Frames(run, receipts, past, before, flushed0)
  {
  }

  /** Every place of the stream is flushed before the end or is the last of its partition. */
  lemma FramesOver(run: Run, receipts: Receipts, past: seq<Visited>, acc: seq<Accumulator>, flushed: set<Place>)
    requires Frames(run, receipts, past, acc, flushed)
    ensures flushed + Ends(acc, |acc|) == PlacesIn(past)
  {
    forall q | q in PlacesIn(past) ensures q in flushed + Ends(acc, |acc|) {
      var i :| 0 <= i < |past| && past[i].place == q;
      if q !in flushed { assert q == Place(q.partition, acc[q.partition].offset); }
    }
    forall q | q in flushed + Ends(acc, |acc|) ensures q in PlacesIn(past) {
      if q in flushed {
        assert Settled(run, receipts, past, q);
      } else {
        assert Gathers(past, q.partition, acc[q.partition]);
      }
      PlaceOfAt(past, q);
    }
  }

  lemma PlaceOfAt(past: seq<Visited>, q: Place)
    ensures At(past, q) != [] <==> q in PlacesIn(past)
  {
    AtMembers(past, q);
    if At(past, q) != [] {
      assert At(past, q)[0] in past;
      var i :| 0 <= i < |past| && past[i] == At(past, q)[0];
      assert past[i].place == q;
    }
  }

  lemma BackwardsNotOnward(past: seq<Visited>, v: Visited, a: Accumulator)
    requires Gathers(past, v.place.partition, a) && a.active && v.place.offset < a.offset
    ensures !Onward(past, v)
  {
    var q := Place(v.place.partition, a.offset);
    AtMembers(past, q);
    assert At(past, q)[0] in At(past, q);
  }

  lemma NotYetFlushed(run: Run, receipts: Receipts, past: seq<Visited>, acc: seq<Accumulator>, flushed: set<Place>, p: nat)
    requires Frames(run, receipts, past, acc, flushed) && p < |acc|
    ensures Place(p, acc[p].offset) !in flushed && Gathers(past, p, acc[p])
  {
    hide Gathers, Settled;
    assert !Behind(acc, Place(p, acc[p].offset));
  }

  /** The frame just gathered is settled exactly when flush finds nothing wrong with it. */
  lemma SettledNow(run: Run, receipts: Receipts, past: seq<Visited>, p: int, a: Accumulator)
    requires Gathers(past, p, a)
    ensures var q := Place(p, a.offset);
      a.active ==>
        var same := Agrees(run, receipts, q, a);
        && (Settled(run, receipts, past, q) <==> same)
        && (same <==> (q in receipts ==> Matches(run, receipts[q], At(past, q))))
  {
    hide At, Inputs;
  }

  lemma FlushedTally(receipts: Receipts, flushed: set<Place>, q: Place)
    ensures |flushed * receipts.Keys| <= |receipts|
    ensures q !in flushed ==>
              && |flushed + {q}| == |flushed| + 1
              && |(flushed + {q}) * receipts.Keys| == |flushed * receipts.Keys| + (if q in receipts then 1 else 0)
              && |(flushed + {q}) * receipts.Keys| <= |receipts|
  {
    assert (flushed + {q}) * receipts.Keys == flushed * receipts.Keys + if q in receipts then {q} else {};
    MatchedBound(receipts, flushed);
    MatchedBound(receipts, flushed + {q});
  }

  lemma MatchedBound(receipts: Receipts, flushed: set<Place>)
    ensures |flushed * receipts.Keys| <= |receipts|
  {
    Subset(flushed * receipts.Keys, receipts.Keys);
  }

  // -------------------------------------------------------------- reconcile

  /** The stream so far already breaks the ledger's explanation. */
  lemma VisitRefuses(run: Run, acks: seq<Ack>, vs: seq<Visited>, ending: Ending, n: nat)
    requires run.Valid() && n < |vs|
    requires !Next(run, ReceiptsOf(acks), vs[..n], vs[n]) || Broken(run, ReceiptsOf(acks), vs[..n], vs[n])
    ensures !Explains(run, acks, vs, ending)
  {
    hide Matches, At, StatesAgree, NoAttemptTwice, AllWhole, Next, Ledger, AckedAttempts, ClosedWell, SumCounts, ReceiptsOf, DistinctPlaces;
    var receipts := ReceiptsOf(acks);
    if Lawful(run, receipts, vs) {
      assert vs[..n + 1] == vs[..n] + [vs[n]];
      assert Next(run, receipts, vs[..n], vs[n]) by {
        hide Lawful;
        LawfulPrefix(run, receipts, vs, n + 1);
        LawfulAdd(run, receipts, vs[..n], vs[n]);
      }
      var q :| q in receipts && q.partition == vs[n].place.partition && q.offset < vs[n].place.offset && !Matches(run, receipts[q], At(vs[..n], q));
      FrameComplete(vs, n, |vs|, q);
      assert vs[..|vs|] == vs;
    }
  }

  method CountAcked(states: seq<Outcome>) returns (n: nat)
    ensures n == |AckedKeys(states, |states|)|
  {
    n := 0;
    assert AckedKeys(states, 0) == {};
    for i := 0 to |states|
      invariant n == |AckedKeys(states, i)|
    {
      assert AckedKeys(states, i + 1) == AckedKeys(states, i) + if states[i] == Acked then {i} else {};
      if states[i] == Acked {
        n := n + 1;
      }
    }
  }

  /** The receipts by place with the sum of their counts, unless two are at one place. */
  method Gather(acks: seq<Ack>) returns (ok: bool, receipts: Receipts, confirmed: nat)
    ensures ok <==> DistinctPlaces(acks)
    ensures ok ==> receipts == ReceiptsOf(acks) && confirmed == SumCounts(acks)
  {
    receipts, confirmed := map[], 0;
    assert acks[..0] == [];
    for i := 0 to |acks|
      invariant receipts == ReceiptsOf(acks[..i]) && confirmed == SumCounts(acks[..i])
      invariant DistinctPlaces(acks[..i])
    {
      ReceiptsKeys(acks[..i]);
      assert acks[..i + 1][..i] == acks[..i] && acks[..i + 1][i] == acks[i];
      if acks[i].place in receipts {
        var j :| 0 <= j < i && acks[..i][j].place == acks[i].place;
        assert acks[j].place == acks[i].place;
        return false, receipts, confirmed;
      }
      receipts := receipts[acks[i].place := acks[i]];
      confirmed := confirmed + acks[i].count;
      assert forall j | 0 <= j < i :: acks[..i + 1][j] == acks[..i][j];
    }
    assert acks[..|acks|] == acks;
    ok := true;
  }

  /** The counters of a correct report are those of the journal. */
  ghost predicate Counts(run: Run, vs: seq<Visited>, r: Report)
    requires run.Valid()
  {
    && Tally(run, vs, r) && r.recordedFrames == |PlacesIn(vs)|
    && r.matched == r.confirmed == |Ledger(run)| && r.matchedFrames == r.confirmedFrames
    && r.missing == r.missingFrames == 0 && r.closedPartitions == run.partitions
  }

  /** The terminal check of cmd/filebench: the journal's CLOSED is behind its last frame. */
  lemma LastOffset(run: Run, receipts: Receipts, vs: seq<Visited>, acc: seq<Accumulator>, flushed: set<Place>, last: int)
    requires run.Valid() && run.partitions == 1 && Lawful(run, receipts, vs) && Frames(run, receipts, vs, acc, flushed)
    ensures |vs| > 0 && last <= acc[0].offset <==> exists i :: 0 <= i < |vs| && vs[i].place.offset >= last
  {
    hide At, Settled, Inputs, Onward, Ordered, AllWhole, NoAttemptTwice;
    assert Gathers(vs, 0, acc[0]);
    if |vs| > 0 {
      assert StateAgrees(run, receipts, vs[0]);
      assert acc[0].active;
      PlaceOfAt(vs, Place(0, acc[0].offset));
      if i :| 0 <= i < |vs| && vs[i].place.offset >= last {
        assert StateAgrees(run, receipts, vs[i]);
      }
    }
  }

  lemma NoPlaces(vs: seq<Visited>)
    ensures |PlacesIn(vs)| > 0 <==> |vs| > 0
  {
    if |vs| > 0 {
      assert vs[0].place in PlacesIn(vs);
    } else {
      assert PlacesIn(vs) == {};
    }
  }

  /** Counting decides: with every frame settled, nothing is missing exactly when the ledger explains the journal. */
  lemma Verdict(run: Run, acks: seq<Ack>, vs: seq<Visited>, r: Report)
    requires run.Valid() && DistinctPlaces(acks) && Tally(run, vs, r)
    requires AllSettled(run, ReceiptsOf(acks), vs, PlacesIn(vs)) && FrameTally(ReceiptsOf(acks), PlacesIn(vs), r)
    ensures r.matchedFrames == |acks| <==> forall q | q in ReceiptsOf(acks) :: Matches(run, ReceiptsOf(acks)[q], At(vs, q))
    ensures r.matched == |Ledger(run)| <==> AckedAttempts(run, vs) == Ledger(run)
  {
    hide At, Ledger, AckedAttempts, KeysIn, Choosers, PlacesIn, AllSettled;
    var receipts := ReceiptsOf(acks);
    ReceiptsSize(acks);
    MatchedWithin(run, vs);
    var met := PlacesIn(vs) * receipts.Keys;
    Subset(met, receipts.Keys);
    MetMatches(run, receipts, vs);
  }

  lemma MetMatches(run: Run, receipts: Receipts, vs: seq<Visited>)
    requires AllSettled(run, receipts, vs, PlacesIn(vs))
    ensures PlacesIn(vs) * receipts.Keys == receipts.Keys <==> forall q | q in receipts :: Matches(run, receipts[q], At(vs, q))
  {
    hide At, PlacesIn;
    forall q ensures At(vs, q) != [] <==> q in PlacesIn(vs) { PlaceOfAt(vs, q); }
    assert forall q | q in receipts :: Matches(run, receipts[q], At(vs, q)) <==> q in PlacesIn(vs);
    assert PlacesIn(vs) * receipts.Keys == receipts.Keys <==> forall q | q in receipts :: q in PlacesIn(vs);
  }

  /** What a correct report rests on, one part at a time. */
  lemma ExplainsParts(run: Run, acks: seq<Ack>, vs: seq<Visited>, ending: Ending)
    requires run.Valid()
    ensures Explains(run, acks, vs, ending) <==>
            && DistinctPlaces(acks) && SumCounts(acks) == |Ledger(run)| && Lawful(run, ReceiptsOf(acks), vs)
            && (forall q | q in ReceiptsOf(acks) :: Matches(run, ReceiptsOf(acks)[q], At(vs, q)))
            && AckedAttempts(run, vs) == Ledger(run) && ClosedWell(run, vs, ending)
  {
  }

  predicate Terminal(run: Run, ending: Ending, frames: nat, last: int) {
    run.program == FileBench && ending.Ended? ==>
      && |ending.ends| == 1 && ending.ends[0].partition == 0 && ending.ends[0].offset >= 0
      && (frames > 0 ==> ending.ends[0].offset > last)
  }

  lemma TerminalMeans(run: Run, receipts: Receipts, vs: seq<Visited>, acc: seq<Accumulator>, flushed: set<Place>, ending: Ending)
    requires run.Valid() && Lawful(run, receipts, vs) && Frames(run, receipts, vs, acc, flushed) && ending.Ended?
    ensures Terminal(run, ending, |PlacesIn(vs)|, if |acc| > 0 then acc[0].offset else 0) && |ending.ends| == run.partitions
            <==> ClosedWell(run, vs, ending)
  {
    hide Lawful, Frames, PlacesIn;
    NoPlaces(vs);
    assert |acc| == run.partitions by { FramesWidth(run, receipts, vs, acc, flushed); }
    if run.program == FileBench && |ending.ends| == 1 {
      LastOffset(run, receipts, vs, acc, flushed, ending.ends[0].offset);
    }
  }

  lemma FramesWidth(run: Run, receipts: Receipts, vs: seq<Visited>, acc: seq<Accumulator>, flushed: set<Place>)
    requires Frames(run, receipts, vs, acc, flushed)
    ensures |acc| == run.partitions
  {
  }

  /** Replays the journal through the visitor, flushes what is left and looks at where the journal ends. */
  method Stream(auditor: Auditor, acks: seq<Ack>, vs: seq<Visited>, ending: Ending) returns (ok: bool)
    requires auditor.Valid([]) && auditor.receipts == ReceiptsOf(acks)
    modifies auditor`report, auditor`flushed, auditor.acc, auditor.seen
    ensures auditor.Bounded(auditor.report)
    ensures auditor.report.confirmed == old(auditor.report.confirmed) && auditor.report.confirmedFrames == old(auditor.report.confirmedFrames)
    ensures var run, receipts, r := auditor.run, auditor.receipts, auditor.report;
      ok ==>
        && Lawful(run, receipts, vs) && Tally(run, vs, r)
        && AllSettled(run, receipts, vs, PlacesIn(vs)) && FrameTally(receipts, PlacesIn(vs), r)
        && ending.Ended? && (|ending.ends| == run.partitions <==> ClosedWell(run, vs, ending))
    ensures !ok ==> !Explains(auditor.run, acks, vs, ending)
    ensures !ok ==> Reported(auditor.run, auditor.receipts, vs, ending, Faults(auditor.report))
  {
    hide Blames, Explains, Lawful, Tally, Marks, Frames, AllSettled, FrameTally, PlacesIn, Terminal, ClosedWell, Next, Broken, Ledger, Matches, Run.Valid;
    ghost var run, receipts := auditor.run, auditor.receipts;
    ExplainsParts(run, acks, vs, ending);
    auditor.BoundedNow([]);
    assert vs[..0] == [];
    for i := 0 to |vs|
      invariant auditor.Valid(vs[..i]) && auditor.Bounded(auditor.report)
      invariant auditor.report.confirmed == old(auditor.report.confirmed) && auditor.report.confirmedFrames == old(auditor.report.confirmedFrames)
    {
      assert vs[..i + 1] == vs[..i] + [vs[i]];
      ok := auditor.Visit(vs[i], vs[..i]);
      if !ok {
        VisitRefuses(run, acks, vs, ending, i);
        return;
      }
    }
    assert vs[..|vs|] == vs;
    auditor.NoFaults(vs);
    if ending.Failed? {
      NotClosed(run, vs, ending);
      return false;
    }
    ghost var before, flushed0 := auditor.acc[..], auditor.flushed;
    TerminalMeans(run, receipts, vs, before, flushed0, ending);
    FramesWidth(run, receipts, vs, before, flushed0);
    ghost var counted := auditor.report;
    ok := auditor.FlushAll(vs);
    if ok {
      TallyStays(run, vs, counted, auditor.report);
      FlushedCount(receipts, auditor.flushed, auditor.report);
      var last := 0;
      if auditor.acc.Length > 0 {
        last := auditor.acc[0].offset;
        assert last == before[0].offset;
      }
      ok := Terminal(auditor.run, ending, auditor.report.recordedFrames, last);
    }
  }

  lemma TallyStays(run: Run, vs: seq<Visited>, r: Report, q: Report)
    requires run.Valid() && Tally(run, vs, r) && q.mismatches == 0
    requires q == r.(recordedFrames := q.recordedFrames, matchedFrames := q.matchedFrames, mismatches := q.mismatches)
    ensures Tally(run, vs, q)
  {
  }

  lemma NotClosed(run: Run, vs: seq<Visited>, ending: Ending)
    requires run.Valid() && ending.Failed?
    ensures !ClosedWell(run, vs, ending)
  {
  }

  lemma FlushedCount(receipts: Receipts, flushed: set<Place>, r: Report)
    requires FrameTally(receipts, flushed, r)
    ensures r.recordedFrames == |flushed|
  {
  }

  /**
   * reconcile: the report is correct exactly when the ledger explains the journal, and then its counters are
   * the journal's. The unsigned subtractions never wrap, whatever the journal holds.
   */
  method Reconcile(run: Run, acks: seq<Ack>, vs: seq<Visited>, ending: Ending, cancelled: bool) returns (r: Report)
    requires run.Valid() && |acks| <= 1_000_000
    ensures r.correct <==> !cancelled && Explains(run, acks, vs, ending)
    ensures r.correct ==> Counts(run, vs, r)
    ensures r.matchedFrames <= r.confirmedFrames && r.matched <= r.confirmed
    ensures || r == BLANK.(confirmed := r.confirmed, confirmedFrames := r.confirmedFrames)
            || (r.missingFrames == r.confirmedFrames - r.matchedFrames && r.missing == r.confirmed - r.matched
                && ((Lawful(run, ReceiptsOf(acks), vs) && Tally(run, vs, r)) || Reported(run, ReceiptsOf(acks), vs, ending, Faults(r))))
  {
    hide Explains, Lawful, AllSettled, PlacesIn, ClosedWell, Ledger, AckedKeys, Matches, At, AckedAttempts;
    hide KeysIn, Choosers, ReceiptsOf, SumCounts, Auditor.Valid, Minus64, Run.Valid, DistinctPlaces;
    ExplainsParts(run, acks, vs, ending);
    SumCountsBound(acks);
    LedgerSize(run);
    var ok, receipts, confirmed := Gather(acks);
    r := BLANK.(confirmedFrames := |acks|, confirmed := confirmed);
    if !ok {
      return;
    }
    var originals := CountAcked(run.original);
    var repeats := CountAcked(run.repeats);
    if originals + repeats != confirmed {
      return;
    }
    ReceiptsSize(acks);
    var auditor := new Auditor(run, receipts, r);
    ok := Stream(auditor, acks, vs, ending);
    r := Finish(run, auditor.report, ending, ok, cancelled);
    if ok {
      Verdict(run, acks, vs, r);
    }
  }

  /** The last lines of reconcile. */
  method Finish(run: Run, counted: Report, ending: Ending, ok: bool, cancelled: bool) returns (r: Report)
    requires counted.matchedFrames <= counted.confirmedFrames < TWO_TO_THE_64 && counted.matched <= counted.confirmed < TWO_TO_THE_64
    ensures r == counted.(closedPartitions := if ending.Ended? then |ending.ends| else 0, correct := r.correct,
                          missingFrames := counted.confirmedFrames - counted.matchedFrames, missing := counted.confirmed - counted.matched)
    ensures r.correct <==>
            && ok && !cancelled && r.closedPartitions == run.partitions && r.missingFrames == r.missing == 0
            && r.unexpected == r.copies == r.mismatches == 0
  {
    r := counted.(closedPartitions := 0);
    if ending.Ended? {
      r := r.(closedPartitions := |ending.ends|);
    }
    r := r.(missingFrames := Minus64(r.confirmedFrames, r.matchedFrames), missing := Minus64(r.confirmed, r.matched));
    r := r.(correct := ok && !cancelled && r.closedPartitions == run.partitions && r.missingFrames == 0 && r.missing == 0
                       && r.unexpected == 0 && r.copies == 0 && r.mismatches == 0);
  }
}
