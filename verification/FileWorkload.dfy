/**
 * The client's side of the file benchmark (cmd/filebench/workload.go runWorkload): many workers dispatch
 * frames and record what they were told, while the store appends them in an order of its own. The ledger
 * they leave always explains the journal, so the audit of a right store never raises a false alarm.
 */
module FileWorkload {
  import opened Bytes
  import opened Wrappers
  import FileCodec
  import opened AuditSpec

  /** One call of the store: its frame, where the store appended it, and what the worker was told. */
  datatype Call = Call(frame: seq<Attempt>, at: Option<nat>, told: Option<Outcome>)

  /** A frame of the journal, at its offset: the call it comes from and its admission instant. */
  datatype Entry = Entry(call: nat, admitted: i64)

  datatype World = World(run: Run, token: int -> Token, calls: seq<Call>, journal: seq<Entry>, acks: seq<Ack>)

  /**
   * A worker dispatches a frame; the store appends it, whether or not anyone still waits; the worker gets a
   * receipt, gives up without knowing, or is refused a frame that is then never appended.
   */
  datatype Label =
    | Dispatch(frame: seq<Attempt>)
    | Append(call: nat, admitted: i64)
    | Receipted(call: nat)
    | Unsure(call: nat)
    | Refused(call: nat)

  // ------------------------------------------------------------ the states

  function SetState(run: Run, a: Attempt, o: Outcome): (r: Run)
    requires run.Valid() && run.Planned(a)
    ensures r.Valid() && r == run.(original := r.original, repeats := r.repeats)
    ensures forall b :: r.Planned(b) <==> run.Planned(b)
  {
    if a.choice == 2 then run.(repeats := run.repeats[a.key := o]) else run.(original := run.original[a.key := o])
  }

  /** states.set for every input of a frame. */
  function SetAll(run: Run, frame: seq<Attempt>, o: Outcome): (r: Run)
    requires run.Valid() && forall a | a in frame :: run.Planned(a)
    ensures r.Valid() && r == run.(original := r.original, repeats := r.repeats)
    ensures forall b :: r.Planned(b) <==> run.Planned(b)
  {
    if frame == [] then run
    else
      assert frame[|frame| - 1] in frame;
      SetState(SetAll(run, frame[..|frame| - 1], o), frame[|frame| - 1], o)
  }

  lemma SetOne(run: Run, a: Attempt, o: Outcome, b: Attempt)
    requires run.Valid() && run.Planned(a) && run.Planned(b)
    ensures SetState(run, a, o).StateOf(b) == if a == b then o else run.StateOf(b)
  {
  }

  lemma {:induction false} SetStates(run: Run, frame: seq<Attempt>, o: Outcome, b: Attempt)
    requires run.Valid() && (forall a | a in frame :: run.Planned(a)) && run.Planned(b)
    ensures SetAll(run, frame, o).StateOf(b) == if b in frame then o else run.StateOf(b)
  {
    if frame != [] {
      var n := |frame| - 1;
      SetStates(run, frame[..n], o, b);
      SetOne(SetAll(run, frame[..n], o), frame[n], o, b);
      assert frame == frame[..n] + [frame[n]];
    }
  }

  /** The ledger's ACK attempts, stated one attempt at a time. */
  predicate InLedger(run: Run, a: Attempt)
    requires run.Valid()
  {
    || (a.choice == 1 && 0 <= a.key < run.keys && run.original[a.key] == Acked)
    || (a.choice == 2 && 0 <= a.key < |run.repeats| && run.repeats[a.key] == Acked)
  }

  lemma LedgerIs(run: Run, a: Attempt)
    requires run.Valid()
    ensures a in Ledger(run) <==> InLedger(run, a)
  {
    if InLedger(run, a) {
      if a.choice == 1 {
        assert a.key in AckedKeys(run.original, |run.original|) && a == Attempt(a.key, 1);
      } else {
        assert a.key in AckedKeys(run.repeats, |run.repeats|) && a == Attempt(a.key, 2);
      }
    }
  }

  lemma LedgerOne(run: Run, a: Attempt, o: Outcome)
    requires run.Valid() && run.Planned(a)
    ensures Ledger(SetState(run, a, o)) == Ledger(run) - {a} + if o == Acked then {a} else {}
  {
    var next := SetState(run, a, o);
    forall b ensures b in Ledger(next) <==> b in Ledger(run) - {a} + if o == Acked then {a} else {} {
      LedgerIs(next, b);
      LedgerIs(run, b);
    }
  }

  /** The ledger after a frame's states were set. */
  lemma {:induction false} LedgerAll(run: Run, frame: seq<Attempt>, o: Outcome)
    requires run.Valid() && forall a | a in frame :: run.Planned(a)
    ensures Ledger(SetAll(run, frame, o)) == Ledger(run) - (set a | a in frame) + if o == Acked then set a | a in frame else {}
  {
    hide Ledger;
    if frame != [] {
      var n := |frame| - 1;
      assert frame == frame[..n] + [frame[n]];
      LedgerAll(run, frame[..n], o);
      LedgerOne(SetAll(run, frame[..n], o), frame[n], o);
    }
  }

  ghost predicate NoneTwice(frame: seq<Attempt>) {
    forall i, j | 0 <= i < j < |frame| :: frame[i] != frame[j]
  }

  lemma {:induction false} FrameSize(frame: seq<Attempt>)
    requires NoneTwice(frame)
    ensures |set a | a in frame| == |frame|
  {
    if frame != [] {
      var n := |frame| - 1;
      FrameSize(frame[..n]);
      assert frame == frame[..n] + [frame[n]];
      assert (set a | a in frame) == (set a | a in frame[..n]) + {frame[n]};
    }
  }

  // ------------------------------------------------------------- the steps

  ghost predicate Fresh(run: Run, frame: seq<Attempt>)
    requires run.Valid()
  {
    && 1 <= |frame| <= FileCodec.MAX_FRAME_VOTES && NoneTwice(frame)
    && forall a | a in frame :: run.Planned(a) && run.StateOf(a) == Never
  }

  /** A call of planned attempts whose place in the journal, if any, is its own: true of every call of a run. */
  ghost predicate Consistent(w: World, i: nat) {
    && i < |w.calls| && |w.calls[i].frame| <= FileCodec.MAX_FRAME_VOTES
    && (forall a | a in w.calls[i].frame :: w.run.Planned(a))
    && (w.calls[i].at.Some? ==> w.calls[i].at.value < |w.journal| && w.journal[w.calls[i].at.value].call == i)
  }

  ghost predicate Enabled(w: World, l: Label)
    requires w.run.Valid()
  {
    match l
    case Dispatch(frame) => Fresh(w.run, frame)
    case Append(i, admitted) =>
      && i < |w.calls| && w.calls[i].at.None? && w.calls[i].told != Some(Rejected)
      && w.run.startsAt <= admitted < w.run.endsAt
    case Receipted(i) => i < |w.calls| && w.calls[i].at.Some? && w.calls[i].told.None? && Consistent(w, i)
    case Unsure(i) => i < |w.calls| && w.calls[i].told.None?
    case Refused(i) => i < |w.calls| && w.calls[i].told.None? && w.calls[i].at.None? && Consistent(w, i)
  }

  /** The votes of a frame as the journal holds them. */
  function VoteOf(w: World, frame: seq<Attempt>, i: nat, admitted: i64): Vote
    requires i < |frame|
  {
    FileCodec.Vote(w.token(frame[i].key), if frame[i].choice == 2 then 2 else 1, admitted)
  }

  function FrameAt(w: World, k: nat): (f: seq<Visited>)
    requires k < |w.journal| && w.journal[k].call < |w.calls|
    ensures |f| == |w.calls[w.journal[k].call].frame|
  {
    var frame := w.calls[w.journal[k].call].frame;
    seq(|frame|, i requires 0 <= i < |frame| => Visited(Place(0, k), i, VoteOf(w, frame, i, w.journal[k].admitted)))
  }

  /** The receipt ledger's line for the frame at an offset. */
  function AckOf(w: World, k: nat): Ack
    requires k < |w.journal| && w.journal[k].call < |w.calls| && |w.calls[w.journal[k].call].frame| <= FileCodec.MAX_FRAME_VOTES
  {
    Ack(Place(0, k), |w.calls[w.journal[k].call].frame|, w.journal[k].admitted, w.run.digest(Inputs(FrameAt(w, k))))
  }

  /** The states of a call's attempts say what its worker was told. */
  ghost predicate CallStates(w: World, i: nat)
    requires w.run.Valid() && i < |w.calls|
  {
    forall a | a in w.calls[i].frame ::
      w.run.Planned(a) && w.run.StateOf(a) == match w.calls[i].told case None => Unknown case Some(o) => o
  }

  ghost predicate CallShape(w: World, i: nat)
    requires i < |w.calls|
  {
    var c := w.calls[i];
    && 1 <= |c.frame| <= FileCodec.MAX_FRAME_VOTES && NoneTwice(c.frame)
    && (c.at.Some? ==> c.at.value < |w.journal| && w.journal[c.at.value].call == i)
    && (c.told == Some(Acked) ==> c.at.Some?)
    && (c.told == Some(Rejected) ==> c.at.None?)
    && (c.told.Some? ==> c.told.value in {Unknown, Acked, Rejected})
  }

  ghost predicate CallOk(w: World, i: nat)
    requires w.run.Valid() && i < |w.calls|
  {
    CallShape(w, i) && CallStates(w, i)
  }

  ghost predicate Apart(w: World) {
    forall i, j | 0 <= i < j < |w.calls| :: forall a | a in w.calls[i].frame :: a !in w.calls[j].frame
  }

  ghost predicate JournalOk(w: World) {
    forall k: nat | k < |w.journal| ::
      && w.journal[k].call < |w.calls| && w.calls[w.journal[k].call].at == Some(k)
      && w.run.startsAt <= w.journal[k].admitted < w.run.endsAt
  }

  ghost predicate AckFits(w: World, ack: Ack) {
    && ack.place.partition == 0 && 0 <= ack.place.offset < |w.journal|
    && var k := ack.place.offset;
    && w.journal[k].call < |w.calls| && |w.calls[w.journal[k].call].frame| <= FileCodec.MAX_FRAME_VOTES
    && w.calls[w.journal[k].call].told == Some(Acked) && ack == AckOf(w, k)
  }

  ghost predicate AcksOk(w: World)
    requires w.run.Valid()
  {
    && DistinctPlaces(w.acks)
    && (forall n | 0 <= n < |w.acks| :: AckFits(w, w.acks[n]))
    && (forall i: nat | i < |w.calls| && w.calls[i].told == Some(Acked) ::
          w.calls[i].at.Some? && exists n :: 0 <= n < |w.acks| && w.acks[n].place == Place(0, w.calls[i].at.value))
  }

  /** The ACK states are those of the receipted frames, as many as the receipts count. */
  ghost predicate LedgerOk(w: World)
    requires w.run.Valid()
  {
    && SumCounts(w.acks) == |Ledger(w.run)|
    && (forall a :: a in Ledger(w.run) <==> Confirmed(w, a))
  }

  /** Attempts of calls that were told they are committed. */
  ghost predicate Confirmed(w: World, a: Attempt) {
    exists i: nat :: i < |w.calls| && w.calls[i].told == Some(Acked) && a in w.calls[i].frame
  }

  ghost predicate Tokens(w: World) {
    forall k | 0 <= k < w.run.keys :: w.run.decrypt(w.token(k)) == k + 1
  }

  ghost predicate Inv(w: World) {
    && w.run.Valid() && w.run.program == FileBench && Tokens(w)
    && (forall i: nat | i < |w.calls| :: CallOk(w, i))
    && Apart(w) && JournalOk(w) && AcksOk(w) && LedgerOk(w)
  }

  ghost function Apply(w: World, l: Label): World
    requires w.run.Valid() && Enabled(w, l)
  {
    match l
    case Dispatch(frame) => w.(run := SetAll(w.run, frame, Unknown), calls := w.calls + [Call(frame, None, None)])
    case Append(i, admitted) =>
      w.(calls := w.calls[i := w.calls[i].(at := Some(|w.journal|))], journal := w.journal + [Entry(i, admitted)])
    case Receipted(i) =>
      w.(run := SetAll(w.run, w.calls[i].frame, Acked), calls := w.calls[i := w.calls[i].(told := Some(Acked))],
         acks := w.acks + [AckOf(w, w.calls[i].at.value)])
    case Unsure(i) => w.(calls := w.calls[i := w.calls[i].(told := Some(Unknown))])
    case Refused(i) =>
      w.(run := SetAll(w.run, w.calls[i].frame, Rejected), calls := w.calls[i := w.calls[i].(told := Some(Rejected))])
  }

  // ------------------------------------------------- every step keeps it

  /** What a step leaves of a call: its frame, and an answer once given. */
  lemma CallsGrow(w: World, l: Label)
    requires Inv(w) && Enabled(w, l)
    ensures var t := Apply(w, l);
      && |w.calls| <= |t.calls| && |w.journal| <= |t.journal| && t.token == w.token && t.run.digest == w.run.digest
      && t.run == w.run.(original := t.run.original, repeats := t.run.repeats) && t.run.Valid()
      && (forall i: nat | i < |w.calls| :: t.calls[i].frame == w.calls[i].frame && (w.calls[i].told.Some? ==> t.calls[i].told == w.calls[i].told)
                                           && (w.calls[i].at.Some? ==> t.calls[i].at == w.calls[i].at))
      && (forall k: nat | k < |w.journal| :: t.journal[k] == w.journal[k])
      && (forall a :: t.run.Planned(a) <==> w.run.Planned(a))
  {
    hide CallOk, Apart, JournalOk, AcksOk, LedgerOk;
    assert forall i | 0 <= i < |w.calls| :: CallOk(w, i);
  }

  /** The attempts whose state a step sets. */
  function Marked(w: World, l: Label): seq<Attempt>
    requires l.Receipted? || l.Refused? ==> l.call < |w.calls|
  {
    match l
    case Dispatch(frame) => frame
    case Receipted(i) => w.calls[i].frame
    case Refused(i) => w.calls[i].frame
    case _ => []
  }

  /** ... and the state it sets. */
  function MarkOf(l: Label): Outcome {
    match l
    case Receipted(_) => Acked
    case Refused(_) => Rejected
    case _ => Unknown
  }

  lemma StatesAfter(w: World, l: Label, a: Attempt)
    requires Inv(w) && Enabled(w, l) && w.run.Planned(a)
    ensures Apply(w, l).run.Planned(a)
    ensures Apply(w, l).run.StateOf(a) == if a in Marked(w, l) then MarkOf(l) else w.run.StateOf(a)
  {
    hide Apart, JournalOk, AcksOk, LedgerOk;
    match l {
      case Dispatch(frame) => SetStates(w.run, frame, Unknown, a);
      case Receipted(i) =>
        assert CallOk(w, i);
        SetStates(w.run, w.calls[i].frame, Acked, a);
      case Refused(i) =>
        assert CallOk(w, i);
        SetStates(w.run, w.calls[i].frame, Rejected, a);
      case _ =>
    }
  }

  /** The call that a step starts or changes; the others stay as they are. */
  function Touched(w: World, l: Label): nat {
    if l.Dispatch? then |w.calls| else l.call
  }

  lemma OthersStay(w: World, l: Label, i: nat)
    requires Inv(w) && Enabled(w, l) && i < |w.calls| && i != Touched(w, l)
    ensures i < |Apply(w, l).calls| && Apply(w, l).calls[i] == w.calls[i]
  {
    hide CallOk, Apart, JournalOk, AcksOk, LedgerOk;
  }

  /** What a step makes of the call it touches. */
  lemma TouchedBecomes(w: World, l: Label)
    requires Inv(w) && Enabled(w, l)
    ensures var t, i := Apply(w, l), Touched(w, l);
      && i < |t.calls| && |t.calls| == |w.calls| + (if l.Dispatch? then 1 else 0)
      && (l.Dispatch? ==> t.calls[i] == Call(l.frame, None, None) && t.journal == w.journal && t.acks == w.acks && Fresh(w.run, l.frame))
      && (!l.Dispatch? ==> i < |w.calls|)
      && (l.Append? ==> t.calls[i] == w.calls[i].(at := Some(|w.journal|)) && t.journal == w.journal + [Entry(i, l.admitted)]
                        && t.acks == w.acks && w.calls[i].at.None? && w.calls[i].told != Some(Rejected)
                        && w.run.startsAt <= l.admitted < w.run.endsAt)
      && (l.Receipted? ==> t.calls[i] == w.calls[i].(told := Some(Acked)) && t.journal == w.journal && w.calls[i].at.Some? && w.calls[i].told.None?)
      && (l.Unsure? ==> t.calls[i] == w.calls[i].(told := Some(Unknown)) && t.journal == w.journal && t.acks == w.acks && w.calls[i].told.None?)
      && (l.Refused? ==> t.calls[i] == w.calls[i].(told := Some(Rejected)) && t.journal == w.journal && t.acks == w.acks
                         && w.calls[i].told.None? && w.calls[i].at.None?)
  {
    hide CallOk, Apart, JournalOk, AcksOk, LedgerOk;
    assert l.Receipted? || l.Refused? ==> CallOk(w, l.call);
  }

  lemma ApartKept(w: World, l: Label)
    requires Inv(w) && Enabled(w, l)
    ensures Apart(Apply(w, l))
  {
    CallsGrow(w, l);
    TouchedBecomes(w, l);
    if l.Dispatch? { FreshApart(w, l.frame); }
    ApartGrows(w, Apply(w, l));
  }

  lemma FreshApart(w: World, frame: seq<Attempt>)
    requires Inv(w) && Fresh(w.run, frame)
    ensures forall i, a | 0 <= i < |w.calls| && a in w.calls[i].frame :: a !in frame
  {
    hide Apart, JournalOk, AcksOk, LedgerOk;
    forall i, a | 0 <= i < |w.calls| && a in w.calls[i].frame ensures a !in frame {
      assert CallOk(w, i);
    }
  }

  lemma ApartGrows(w: World, t: World)
    requires Apart(w) && |w.calls| <= |t.calls| <= |w.calls| + 1
    requires forall i: nat | i < |w.calls| :: t.calls[i].frame == w.calls[i].frame
    requires |t.calls| > |w.calls| ==> forall i, a | 0 <= i < |w.calls| && a in w.calls[i].frame :: a !in t.calls[|w.calls|].frame
    ensures Apart(t)
  {
  }

  lemma CallKept(w: World, l: Label, i: nat)
    requires Inv(w) && Enabled(w, l) && i < |Apply(w, l).calls| && Apart(Apply(w, l)) && Apply(w, l).run.Valid()
    ensures CallOk(Apply(w, l), i)
  {
    hide CallOk, Apart, JournalOk, AcksOk, LedgerOk, Apply;
    var t := Apply(w, l);
    CallsGrow(w, l);
    TouchedBecomes(w, l);
    if i != Touched(w, l) {
      assert CallOk(w, i);
      OthersStay(w, l, i);
      forall a | a in w.calls[i].frame ensures w.run.Planned(a) && t.run.StateOf(a) == w.run.StateOf(a) {
        CallPlans(w, i, a);
        StatesAfter(w, l, a);
        CallsApart(t, Touched(w, l), i);
      }
      CallStays(w, t, i);
    } else {
      TouchedKept(w, l);
    }
  }

  lemma CallPlans(w: World, i: nat, a: Attempt)
    requires w.run.Valid() && i < |w.calls| && CallOk(w, i) && a in w.calls[i].frame
    ensures w.run.Planned(a)
  {
  }

  lemma CallStays(w: World, t: World, i: nat)
    requires w.run.Valid() && t.run.Valid() && i < |w.calls| && i < |t.calls| && CallOk(w, i) && t.calls[i] == w.calls[i]
    requires |w.journal| <= |t.journal| && forall k: nat | k < |w.journal| :: t.journal[k] == w.journal[k]
    requires forall a | a in w.calls[i].frame :: t.run.Planned(a) && w.run.Planned(a) && t.run.StateOf(a) == w.run.StateOf(a)
    ensures CallOk(t, i)
  {
    hide Run.StateOf, Run.Planned, NoneTwice;
  }

  lemma TouchedKept(w: World, l: Label)
    requires Inv(w) && Enabled(w, l) && Apply(w, l).run.Valid()
    ensures Touched(w, l) < |Apply(w, l).calls| && CallOk(Apply(w, l), Touched(w, l))
  {
    hide Apply, Apart, JournalOk, AcksOk, LedgerOk, CallStates, CallShape;
    TouchedBecomes(w, l);
    TouchedShape(w, l);
    TouchedStates(w, l);
  }

  lemma TouchedShape(w: World, l: Label)
    requires Inv(w) && Enabled(w, l) && Touched(w, l) < |Apply(w, l).calls|
    ensures CallShape(Apply(w, l), Touched(w, l))
  {
    hide Apply, Apart, JournalOk, AcksOk, LedgerOk, CallStates, NoneTwice;
    TouchedBecomes(w, l);
    if !l.Dispatch? { assert CallOk(w, l.call); }
    hide Inv, Enabled;
  }

  lemma TouchedStates(w: World, l: Label)
    requires Inv(w) && Enabled(w, l) && Touched(w, l) < |Apply(w, l).calls| && Apply(w, l).run.Valid()
    ensures CallStates(Apply(w, l), Touched(w, l))
  {
    hide Apply, Apart, JournalOk, AcksOk, LedgerOk, CallShape, NoneTwice;
    var t, i := Apply(w, l), Touched(w, l);
    TouchedBecomes(w, l);
    if !l.Dispatch? { assert CallOk(w, i); }
    forall a | a in t.calls[i].frame
      ensures t.run.Planned(a) && t.run.StateOf(a) == match t.calls[i].told case None => Unknown case Some(o) => o
    {
      assert w.run.Planned(a);
      StatesAfter(w, l, a);
    }
  }

  lemma CallsApart(w: World, i: nat, j: nat)
    requires Apart(w) && i < |w.calls| && j < |w.calls| && i != j
    ensures forall a | a in w.calls[i].frame :: a !in w.calls[j].frame
  {
    if j < i {
      assert forall b | b in w.calls[j].frame :: b !in w.calls[i].frame;
    }
  }

  lemma JournalKept(w: World, l: Label)
    requires Inv(w) && Enabled(w, l)
    ensures JournalOk(Apply(w, l))
  {
    hide CallOk, Apart, AcksOk, LedgerOk, Apply, JournalOk;
    var t := Apply(w, l);
    CallsGrow(w, l);
    TouchedBecomes(w, l);
    JournalGrows(w, t, Touched(w, l));
  }

  lemma JournalGrows(w: World, t: World, i: nat)
    requires JournalOk(w) && t.run == w.run.(original := t.run.original, repeats := t.run.repeats) && |w.calls| <= |t.calls|
    requires |w.journal| <= |t.journal| <= |w.journal| + 1 && forall k: nat | k < |w.journal| :: t.journal[k] == w.journal[k]
    requires forall j: nat | j < |w.calls| :: w.calls[j].at.Some? ==> t.calls[j].at == w.calls[j].at
    requires |t.journal| > |w.journal| ==>
               i < |w.calls| && t.journal[|w.journal|].call == i && t.calls[i].at == Some(|w.journal|)
               && w.run.startsAt <= t.journal[|w.journal|].admitted < w.run.endsAt
    ensures JournalOk(t)
  {
  }

  /** Receipts do not change with the states. */
  lemma SameAck(w: World, t: World, k: nat)
    requires k < |w.journal| && w.journal[k].call < |w.calls| && |w.calls[w.journal[k].call].frame| <= FileCodec.MAX_FRAME_VOTES
    requires k < |t.journal| && t.journal[k] == w.journal[k] && |w.calls| <= |t.calls|
    requires t.calls[w.journal[k].call].frame == w.calls[w.journal[k].call].frame && t.token == w.token && t.run.digest == w.run.digest
    ensures AckOf(t, k) == AckOf(w, k) && FrameAt(t, k) == FrameAt(w, k)
  {
    assert FrameAt(t, k) == FrameAt(w, k);
  }

  lemma AcksKept(w: World, l: Label)
    requires Inv(w) && Enabled(w, l) && Apply(w, l).run.Valid()
    ensures AcksOk(Apply(w, l))
  {
    hide CallOk, Apart, LedgerOk, AckOf, AckFits, DistinctPlaces;
    var t := Apply(w, l);
    CallsGrow(w, l);
    TouchedBecomes(w, l);
    if l.Receipted? {
      NewAck(w, l.call);
      NewAckFits(w, l, w.calls[l.call].at.value);
      OneMorePlace(w.acks, AckOf(w, w.calls[l.call].at.value));
    } else {
      assert t.acks == w.acks;
    }
    forall n | 0 <= n < |w.acks| ensures AckFits(t, w.acks[n]) { AckStays(w, l, w.acks[n]); }
    AckedHaveAcks(w, l);
  }

  lemma AckStays(w: World, l: Label, ack: Ack)
    requires Inv(w) && Enabled(w, l) && AckFits(w, ack)
    ensures AckFits(Apply(w, l), ack)
  {
    hide CallOk, Apart, LedgerOk, AcksOk, JournalOk, AckOf, Inputs;
    CallsGrow(w, l);
    SameAck(w, Apply(w, l), ack.place.offset);
  }

  lemma NewAckFits(w: World, l: Label, k: nat)
    requires Inv(w) && Enabled(w, l) && l.Receipted? && w.calls[l.call].at == Some(k)
    requires k < |w.journal| && w.journal[k].call == l.call && |w.calls[l.call].frame| <= FileCodec.MAX_FRAME_VOTES
    ensures AckFits(Apply(w, l), AckOf(w, k))
  {
    hide CallOk, Apart, LedgerOk, AcksOk, JournalOk, AckOf, Inputs;
    CallsGrow(w, l);
    TouchedBecomes(w, l);
    NewAck(w, l.call);
    SameAck(w, Apply(w, l), k);
  }

  lemma OneMorePlace(acks: seq<Ack>, ack: Ack)
    requires DistinctPlaces(acks) && forall n | 0 <= n < |acks| :: acks[n].place != ack.place
    ensures DistinctPlaces(acks + [ack])
  {
  }

  lemma AckedHaveAcks(w: World, l: Label)
    requires Inv(w) && Enabled(w, l)
    ensures var t := Apply(w, l);
      forall i: nat | i < |t.calls| && t.calls[i].told == Some(Acked) ::
        t.calls[i].at.Some? && exists n :: 0 <= n < |t.acks| && t.acks[n].place == Place(0, t.calls[i].at.value)
  {
    hide CallOk, Apart, LedgerOk, JournalOk, AckOf, AckFits, DistinctPlaces;
    var t := Apply(w, l);
    CallsGrow(w, l);
    TouchedBecomes(w, l);
    if l.Receipted? { NewAck(w, l.call); }
    forall i: nat | i < |t.calls| && t.calls[i].told == Some(Acked)
      ensures t.calls[i].at.Some? && exists n :: 0 <= n < |t.acks| && t.acks[n].place == Place(0, t.calls[i].at.value)
    {
      if l.Receipted? && i == l.call {
        assert t.acks[|w.acks|].place == Place(0, t.calls[i].at.value);
      } else {
        assert i < |w.calls| && w.calls[i].told == Some(Acked);
        var n :| 0 <= n < |w.acks| && w.acks[n].place == Place(0, w.calls[i].at.value);
        assert t.acks[n] == w.acks[n];
      }
    }
  }

  /** The frame of a call about to get its receipt has none. */
  lemma NewAck(w: World, i: nat)
    requires Inv(w) && i < |w.calls| && w.calls[i].at.Some? && w.calls[i].told.None?
    ensures w.calls[i].at.value < |w.journal| && w.journal[w.calls[i].at.value].call == i && |w.calls[i].frame| <= FileCodec.MAX_FRAME_VOTES
    ensures forall n | 0 <= n < |w.acks| :: w.acks[n].place != Place(0, w.calls[i].at.value)
    ensures AckOf(w, w.calls[i].at.value).place == Place(0, w.calls[i].at.value)
  {
    assert CallOk(w, i);
    forall n | 0 <= n < |w.acks| ensures w.acks[n].place != Place(0, w.calls[i].at.value) {
      assert AckFits(w, w.acks[n]);
    }
  }

  lemma LedgerPlanned(run: Run, a: Attempt)
    requires run.Valid() && run.Planned(a)
    ensures a in Ledger(run) <==> run.StateOf(a) == Acked
  {
    LedgerIs(run, a);
  }

  function SetOf(frame: seq<Attempt>): set<Attempt> {
    set a | a in frame
  }

  /** How a step changes the set of ACK states. */
  lemma LedgerAfter(w: World, l: Label)
    requires Inv(w) && Enabled(w, l)
    ensures Apply(w, l).run.Valid()
    ensures l.Receipted? ==> Ledger(Apply(w, l).run) == Ledger(w.run) + SetOf(w.calls[l.call].frame)
                             && Ledger(w.run) !! SetOf(w.calls[l.call].frame) && NoneTwice(w.calls[l.call].frame)
    ensures !l.Receipted? ==> Ledger(Apply(w, l).run) == Ledger(w.run)
  {
    hide Apart, JournalOk, AcksOk, LedgerOk, Ledger, NoneTwice;
    CallsGrow(w, l);
    if l.Dispatch? || l.Receipted? || l.Refused? {
      var frame, o := Marked(w, l), MarkOf(l);
      if !l.Dispatch? { assert CallOk(w, l.call); }
      forall a | a in frame ensures w.run.Planned(a) && a !in Ledger(w.run) {
        LedgerPlanned(w.run, a);
      }
      LedgerAll(w.run, frame, o);
    }
  }

  lemma ConfirmedAfter(w: World, l: Label, a: Attempt)
    requires Inv(w) && Enabled(w, l)
    ensures Confirmed(Apply(w, l), a) <==> Confirmed(w, a) || (l.Receipted? && a in w.calls[l.call].frame)
  {
    hide CallOk, Apart, LedgerOk, JournalOk, AcksOk, Fresh;
    var t := Apply(w, l);
    CallsGrow(w, l);
    TouchedBecomes(w, l);
    hide Apply, Inv, Enabled;
    if Confirmed(w, a) {
      var i: nat :| i < |w.calls| && w.calls[i].told == Some(Acked) && a in w.calls[i].frame;
      assert t.calls[i].told == Some(Acked) && a in t.calls[i].frame;
    }
    if l.Receipted? && a in w.calls[l.call].frame {
      assert t.calls[l.call].told == Some(Acked) && a in t.calls[l.call].frame;
    }
    if Confirmed(t, a) {
      var i: nat :| i < |t.calls| && t.calls[i].told == Some(Acked) && a in t.calls[i].frame;
      if i != Touched(w, l) { OthersSame(w, l, t, i); }
    }
  }

  lemma OthersSame(w: World, l: Label, t: World, i: nat)
    requires Inv(w) && Enabled(w, l) && t == Apply(w, l) && i < |t.calls| && i != Touched(w, l)
    ensures i < |w.calls| && t.calls[i] == w.calls[i]
  {
    hide CallOk, Apart, LedgerOk, JournalOk, AcksOk, Fresh;
    TouchedBecomes(w, l);
    OthersStay(w, l, i);
  }

  lemma LedgerKept(w: World, l: Label)
    requires Inv(w) && Enabled(w, l) && Apply(w, l).run.Valid()
    ensures LedgerOk(Apply(w, l))
  {
    hide CallOk, Apart, JournalOk, AcksOk, Ledger, Fresh, AckOf, Confirmed, NoneTwice;
    var t := Apply(w, l);
    LedgerAfter(w, l);
    TouchedBecomes(w, l);
    forall a ensures a in Ledger(t.run) <==> Confirmed(t, a) {
      ConfirmedAfter(w, l, a);
      assert a in Ledger(w.run) <==> Confirmed(w, a);
    }
    if l.Receipted? {
      AckCounts(w, l.call);
      var ack := AckOf(w, w.calls[l.call].at.value);
      assert t.acks == w.acks + [ack] && (w.acks + [ack])[..|w.acks|] == w.acks;
      FrameSize(w.calls[l.call].frame);
    }
  }

  lemma AckCounts(w: World, i: nat)
    requires Inv(w) && i < |w.calls| && w.calls[i].at.Some?
    ensures var k := w.calls[i].at.value;
      && k < |w.journal| && w.journal[k].call == i && |w.calls[i].frame| <= FileCodec.MAX_FRAME_VOTES
      && AckOf(w, k).count == |w.calls[i].frame|
  {
    assert CallOk(w, i);
  }

  lemma StepKeeps(w: World, l: Label)
    requires Inv(w) && Enabled(w, l)
    ensures Inv(Apply(w, l))
  {
    hide CallOk, Apart, JournalOk, AcksOk, LedgerOk, Apply, Enabled;
    CallsGrow(w, l);
    ApartKept(w, l);
    forall i: nat | i < |Apply(w, l).calls| ensures CallOk(Apply(w, l), i) { CallKept(w, l, i); }
    JournalKept(w, l);
    AcksKept(w, l);
    LedgerKept(w, l);
  }

  /** Before the workload every attempt is in its first state and the journal is empty. */
  ghost predicate Init(w: World) {
    && w.run.Valid() && w.run.program == FileBench && Tokens(w)
    && (forall k | 0 <= k < |w.run.original| :: w.run.original[k] == Never)
    && (forall k | 0 <= k < |w.run.repeats| :: w.run.repeats[k] == Never)
    && w.calls == [] && w.journal == [] && w.acks == []
  }

  lemma InitInv(w: World)
    requires Init(w)
    ensures Inv(w)
  {
    forall a ensures a !in Ledger(w.run) {
      LedgerIs(w.run, a);
    }
    assert Ledger(w.run) == {};
  }

  /** Consistency never keeps a worker's answer back. */
  lemma AlwaysConsistent(w: World, i: nat)
    requires Inv(w) && i < |w.calls|
    ensures Consistent(w, i)
  {
    assert CallOk(w, i);
  }

  ghost predicate Moves(w: World, t: World) {
    w.run.Valid() && exists l :: Enabled(w, l) && t == Apply(w, l)
  }

  ghost predicate IsRun(ws: seq<World>) {
    ws != [] && Init(ws[0]) && forall i | 0 <= i < |ws| - 1 :: Moves(ws[i], ws[i + 1])
  }

  lemma {:induction false} RunKeeps(ws: seq<World>, i: nat)
    requires IsRun(ws) && i < |ws|
    ensures Inv(ws[i])
  {
    hide Inv, Enabled, Apply, Init, Run.Valid;
    if i == 0 {
      InitInv(ws[0]);
    } else {
      RunKeeps(ws, i - 1);
      var j := i - 1;
      assert Moves(ws[j], ws[j + 1]);
      var l :| Enabled(ws[i - 1], l) && ws[i] == Apply(ws[i - 1], l);
      StepKeeps(ws[i - 1], l);
    }
  }

  // ------------------------------------------------ the journal explained

  /** The first n frames of the journal as a replay shows them. */
  ghost function Stream(w: World, n: nat): seq<Visited>
    requires Inv(w) && n <= |w.journal|
  {
    if n == 0 then [] else Stream(w, n - 1) + FrameAt(w, n - 1)
  }

  /** A vote of the stream comes from a place of a frame. */
  ghost predicate From(w: World, v: Visited, k: nat, j: nat) {
    && k < |w.journal| && w.journal[k].call < |w.calls|
    && j < |w.calls[w.journal[k].call].frame| && v == FrameAt(w, k)[j]
  }

  /** Everything before vote j of frame k, in order. */
  ghost predicate Before(w: World, vs: seq<Visited>, n: nat, m: nat) {
    forall i | 0 <= i < |vs| :: Placed(w, vs[i], n, m)
  }

  predicate Earlier(k: nat, j: nat, n: nat, m: nat) {
    k < n || (k == n && j < m)
  }

  ghost predicate Placed(w: World, v: Visited, n: nat, m: nat) {
    exists k: nat, j: nat :: From(w, v, k, j) && Earlier(k, j, n, m)
  }

  lemma PlacedLater(w: World, v: Visited, n: nat, m: nat, x: nat, y: nat)
    requires Placed(w, v, n, m) && (n < x || (n == x && m <= y))
    ensures Placed(w, v, x, y)
  {
    hide From;
    var k: nat, j: nat :| From(w, v, k, j) && Earlier(k, j, n, m);
    assert Earlier(k, j, x, y);
  }

  lemma JournalAt(w: World, k: nat)
    requires Inv(w) && k < |w.journal|
    ensures w.journal[k].call < |w.calls| && CallOk(w, w.journal[k].call) && w.calls[w.journal[k].call].at == Some(k)
    ensures w.run.startsAt <= w.journal[k].admitted < w.run.endsAt
  {
  }

  /** The attempt that a vote of the journal records. */
  lemma AttemptAt(w: World, k: nat, j: nat)
    requires Inv(w) && k < |w.journal| && w.journal[k].call < |w.calls| && j < |w.calls[w.journal[k].call].frame|
    ensures w.run.AttemptOf(FrameAt(w, k)[j]) == w.calls[w.journal[k].call].frame[j]
    ensures w.run.Planned(w.calls[w.journal[k].call].frame[j])
    ensures w.run.StateOf(w.calls[w.journal[k].call].frame[j])
         == match w.calls[w.journal[k].call].told case None => Unknown case Some(o) => o
  {
    hide Inv, CallShape, Run.StateOf, FrameAt;
    JournalAt(w, k);
    var a := w.calls[w.journal[k].call].frame[j];
    assert a in w.calls[w.journal[k].call].frame && w.run.Planned(a);
    TokenOfAttempt(w, a);
    VoteAt(w, k, j);
  }

  lemma TokenOfAttempt(w: World, a: Attempt)
    requires Inv(w) && w.run.Planned(a)
    ensures w.run.KeyOf(w.token(a.key)) == a.key
  {
  }

  lemma VoteAt(w: World, k: nat, j: nat)
    requires k < |w.journal| && w.journal[k].call < |w.calls| && j < |w.calls[w.journal[k].call].frame|
    ensures FrameAt(w, k)[j].vote == VoteOf(w, w.calls[w.journal[k].call].frame, j, w.journal[k].admitted)
  {
  }

  lemma AckPlaces(w: World, k: nat)
    requires Inv(w) && k < |w.journal| && w.journal[k].call < |w.calls|
    ensures Place(0, k) in ReceiptsOf(w.acks) <==> w.calls[w.journal[k].call].told == Some(Acked)
    ensures Place(0, k) in ReceiptsOf(w.acks) ==> |w.calls[w.journal[k].call].frame| <= FileCodec.MAX_FRAME_VOTES
                                                  && ReceiptsOf(w.acks)[Place(0, k)] == AckOf(w, k)
  {
    JournalAt(w, k);
    hide CallOk, Apart, JournalOk, LedgerOk, AckOf;
    ReceiptsKeys(w.acks);
    if Place(0, k) in ReceiptsOf(w.acks) {
      var n :| 0 <= n < |w.acks| && w.acks[n].place == Place(0, k);
      assert AckFits(w, w.acks[n]);
      var ack := ReceiptsOf(w.acks)[Place(0, k)];
      assert ack in w.acks && ack.place == Place(0, k);
      var m :| 0 <= m < |w.acks| && w.acks[m] == ack;
      assert AckFits(w, w.acks[m]);
    }
  }

  /** One more vote of the journal keeps the stream lawful. */
  lemma OneMoreVote(w: World, vs: seq<Visited>, n: nat, m: nat)
    requires Inv(w) && n < |w.journal| && w.journal[n].call < |w.calls| && m < |w.calls[w.journal[n].call].frame|
    requires Lawful(w.run, ReceiptsOf(w.acks), vs) && Before(w, vs, n, m) && At(vs, Place(0, n)) == FrameAt(w, n)[..m]
    ensures Next(w.run, ReceiptsOf(w.acks), vs, FrameAt(w, n)[m])
  {
    hide Inv, Lawful, Before, FrameAt, At, StateAgrees, Onward, Unseen, Fits, ReceiptsOf, Run.Valid;
    ValidRun(w);
    VoteAgrees(w, n, m);
    VoteOnward(w, vs, n, m);
    VoteUnseen(w, vs, n, m);
    VoteFits(w, n, m);
    PlaceAt(w, n, m);
  }

  lemma VoteFits(w: World, n: nat, m: nat)
    requires n < |w.journal| && w.journal[n].call < |w.calls| && m < |w.calls[w.journal[n].call].frame|
    ensures Fits(FrameAt(w, n)[..m], FrameAt(w, n)[m])
  {
    assert m > 0 ==> FrameAt(w, n)[..m][0] == FrameAt(w, n)[0];
  }

  lemma VoteAgrees(w: World, n: nat, m: nat)
    requires Inv(w) && n < |w.journal| && w.journal[n].call < |w.calls| && m < |w.calls[w.journal[n].call].frame|
    ensures StateAgrees(w.run, ReceiptsOf(w.acks), FrameAt(w, n)[m])
  {
    hide Inv, FrameAt, ReceiptsOf, Run.AttemptOf, Run.StateOf, Run.Planned, CallStates, NoneTwice;
    OnePartition(w);
    JournalAt(w, n);
    AttemptAt(w, n, m);
    AckPlaces(w, n);
    PlaceAt(w, n, m);
    VoteAt(w, n, m);
  }

  lemma VoteOnward(w: World, vs: seq<Visited>, n: nat, m: nat)
    requires Inv(w) && n < |w.journal| && w.journal[n].call < |w.calls| && m < |w.calls[w.journal[n].call].frame| && Before(w, vs, n, m)
    ensures Onward(vs, FrameAt(w, n)[m])
  {
    hide Inv, FrameAt;
    forall i | 0 <= i < |vs| ensures vs[i].place.offset <= n {
      var k: nat, j: nat :| From(w, vs[i], k, j) && Earlier(k, j, n, m);
      PlaceAt(w, k, j);
    }
    PlaceAt(w, n, m);
  }

  lemma PlaceAt(w: World, k: nat, j: nat)
    requires k < |w.journal| && w.journal[k].call < |w.calls| && j < |w.calls[w.journal[k].call].frame|
    ensures FrameAt(w, k)[j].place == Place(0, k) && FrameAt(w, k)[j].index == j
  {
  }

  lemma VoteUnseen(w: World, vs: seq<Visited>, n: nat, m: nat)
    requires Inv(w) && n < |w.journal| && w.journal[n].call < |w.calls| && m < |w.calls[w.journal[n].call].frame| && Before(w, vs, n, m)
    ensures Unseen(w.run, vs, FrameAt(w, n)[m])
  {
    hide Inv, FrameAt, Run.AttemptOf;
    AttemptAt(w, n, m);
    forall i | 0 <= i < |vs| ensures w.run.AttemptOf(vs[i]) != w.run.AttemptOf(FrameAt(w, n)[m]) {
      var k: nat, j: nat :| From(w, vs[i], k, j) && Earlier(k, j, n, m);
      AttemptAt(w, k, j);
      VotesDiffer(w, k, j, n, m);
    }
  }

  lemma VotesDiffer(w: World, k: nat, j: nat, n: nat, m: nat)
    requires Inv(w) && k < |w.journal| && n < |w.journal| && w.journal[k].call < |w.calls| && w.journal[n].call < |w.calls|
    requires j < |w.calls[w.journal[k].call].frame| && m < |w.calls[w.journal[n].call].frame| && (k < n || (k == n && j < m))
    ensures w.calls[w.journal[k].call].frame[j] != w.calls[w.journal[n].call].frame[m]
  {
    JournalAt(w, k);
    JournalAt(w, n);
    if k != n {
      CallsApart(w, w.journal[k].call, w.journal[n].call);
      assert w.calls[w.journal[k].call].frame[j] in w.calls[w.journal[k].call].frame;
    }
  }

  lemma BeforeMore(w: World, vs: seq<Visited>, n: nat, m: nat)
    requires n < |w.journal| && w.journal[n].call < |w.calls| && m < |w.calls[w.journal[n].call].frame| && Before(w, vs, n, m)
    ensures Before(w, vs + [FrameAt(w, n)[m]], n, m + 1)
  {
    hide FrameAt, Placed;
    var v := FrameAt(w, n)[m];
    assert Placed(w, v, n, m + 1) by { PlacedHere(w, n, m); }
    forall i | 0 <= i < |vs| ensures Placed(w, vs[i], n, m + 1) { PlacedLater(w, vs[i], n, m, n, m + 1); }
  }

  lemma PlacedHere(w: World, n: nat, m: nat)
    requires n < |w.journal| && w.journal[n].call < |w.calls| && m < |w.calls[w.journal[n].call].frame|
    ensures Placed(w, FrameAt(w, n)[m], n, m + 1)
  {
    hide FrameAt;
    assert From(w, FrameAt(w, n)[m], n, m) && Earlier(n, m, n, m + 1);
  }

  /** The first m votes of frame n behind the frames before it. */
  lemma {:induction false} FrameLawful(w: World, n: nat, m: nat)
    requires Inv(w) && n < |w.journal| && w.journal[n].call < |w.calls| && m <= |FrameAt(w, n)|
    requires Lawful(w.run, ReceiptsOf(w.acks), Stream(w, n)) && Before(w, Stream(w, n), n, 0)
    ensures Lawful(w.run, ReceiptsOf(w.acks), Stream(w, n) + FrameAt(w, n)[..m]) && Before(w, Stream(w, n) + FrameAt(w, n)[..m], n, m)
    ensures At(Stream(w, n) + FrameAt(w, n)[..m], Place(0, n)) == FrameAt(w, n)[..m]
    ensures forall k: nat | k < n :: At(Stream(w, n) + FrameAt(w, n)[..m], Place(0, k)) == At(Stream(w, n), Place(0, k))
    decreases m
  {
    hide Inv, Lawful, Before, At, FrameAt, Run.Valid, Stream, ReceiptsOf, Next;
    ValidRun(w);
    var vs, f := Stream(w, n), FrameAt(w, n);
    if m == 0 {
      assert vs + f[..0] == vs;
      NothingThere(w, vs, n);
    } else {
      FrameLawful(w, n, m - 1);
      var less := vs + f[..m - 1];
      var v := f[m - 1];
      assert vs + f[..m] == less + [v] && f[..m] == f[..m - 1] + [v];
      OneMoreVote(w, less, n, m - 1);
      LawfulAdd(w.run, ReceiptsOf(w.acks), less, v);
      BeforeMore(w, less, n, m - 1);
      PlaceAt(w, n, m - 1);
      forall q ensures At(less + [v], q) == if v.place == q then At(less, q) + [v] else At(less, q) { AtAdd(less, v, q); }
    }
  }

  lemma NothingThere(w: World, vs: seq<Visited>, n: nat)
    requires Before(w, vs, n, 0)
    ensures At(vs, Place(0, n)) == []
  {
    AtMembers(vs, Place(0, n));
    if At(vs, Place(0, n)) != [] {
      var v := At(vs, Place(0, n))[0];
      assert v in At(vs, Place(0, n)) && v in vs;
      var i :| 0 <= i < |vs| && vs[i] == v;
      var k: nat, j: nat :| From(w, vs[i], k, j) && Earlier(k, j, n, 0);
      PlaceAt(w, k, j);
    }
  }

  lemma {:induction false} StreamLawful(w: World, n: nat)
    requires Inv(w) && n <= |w.journal|
    ensures Lawful(w.run, ReceiptsOf(w.acks), Stream(w, n)) && Before(w, Stream(w, n), n, 0)
    ensures forall k: nat | k < n :: w.journal[k].call < |w.calls| && At(Stream(w, n), Place(0, k)) == FrameAt(w, k)
  {
    hide Inv, Lawful, Before, At, FrameAt, Run.Valid, ReceiptsOf;
    ValidRun(w);
    if n == 0 {
      NothingLawful(w);
    } else {
      StreamLawful(w, n - 1);
      JournalAt(w, n - 1);
      var f := FrameAt(w, n - 1);
      FrameLawful(w, n - 1, |f|);
      assert f[..|f|] == f;
      NextFrame(w, Stream(w, n), n - 1, |f|);
    }
  }

  lemma ValidRun(w: World)
    requires Inv(w)
    ensures w.run.Valid()
  {
  }

  lemma NothingLawful(w: World)
    requires w.run.Valid()
    ensures Lawful(w.run, ReceiptsOf(w.acks), []) && Before(w, [], 0, 0)
  {
    assert forall q :: At([], q) == [];
  }

  lemma NextFrame(w: World, vs: seq<Visited>, n: nat, m: nat)
    requires Before(w, vs, n, m)
    ensures Before(w, vs, n + 1, 0)
  {
    hide Placed;
    forall i | 0 <= i < |vs| ensures Placed(w, vs[i], n + 1, 0) { PlacedLater(w, vs[i], n, m, n + 1, 0); }
  }

  /** Every vote of every frame is in the stream. */
  lemma {:induction false} StreamHas(w: World, n: nat, k: nat, j: nat)
    requires Inv(w) && k < n <= |w.journal| && w.journal[k].call < |w.calls| && j < |FrameAt(w, k)|
    ensures exists i :: 0 <= i < |Stream(w, n)| && Stream(w, n)[i] == FrameAt(w, k)[j]
  {
    hide Inv, FrameAt;
    if k == n - 1 {
      assert Stream(w, n)[|Stream(w, n - 1)| + j] == FrameAt(w, k)[j];
    } else {
      StreamHas(w, n - 1, k, j);
      var i :| 0 <= i < |Stream(w, n - 1)| && Stream(w, n - 1)[i] == FrameAt(w, k)[j];
      assert Stream(w, n)[i] == FrameAt(w, k)[j];
    }
  }

  lemma StreamLedger(w: World)
    requires Inv(w)
    ensures AckedAttempts(w.run, Stream(w, |w.journal|)) == Ledger(w.run)
  {
    var vs := Stream(w, |w.journal|);
    AckedWithinLedger(w.run, vs);
    forall a | a in Ledger(w.run) ensures a in AckedAttempts(w.run, vs) {
      assert Confirmed(w, a);
      var c: nat :| c < |w.calls| && w.calls[c].told == Some(Acked) && a in w.calls[c].frame;
      assert CallOk(w, c);
      hide Inv, FrameAt, Ledger, Run.AttemptOf, Run.StateOf, Run.Planned;
      var k := w.calls[c].at.value;
      var j :| 0 <= j < |w.calls[c].frame| && w.calls[c].frame[j] == a;
      StreamHas(w, |w.journal|, k, j);
      var i :| 0 <= i < |vs| && vs[i] == FrameAt(w, k)[j];
      AttemptAt(w, k, j);
      assert w.run.AttemptOf(vs[i]) == a;
    }
  }

  /** A receipt is that of a frame of the journal. */
  lemma ReceiptIs(w: World, q: Place)
    requires Inv(w) && q in ReceiptsOf(w.acks)
    ensures q.offset >= 0 && q == Place(0, q.offset) && q.offset < |w.journal| && w.journal[q.offset].call < |w.calls|
  {
    hide CallOk, Apart, JournalOk, LedgerOk, AckOf;
    ReceiptsKeys(w.acks);
    var n :| 0 <= n < |w.acks| && w.acks[n].place == q;
    assert AckFits(w, w.acks[n]);
  }

  lemma ReceiptsMatch(w: World, q: Place)
    requires Inv(w) && q in ReceiptsOf(w.acks)
    ensures Matches(w.run, ReceiptsOf(w.acks)[q], At(Stream(w, |w.journal|), q))
  {
    hide Inv, At, Stream, ReceiptsOf, Inputs, Lawful, Before, NoneTwice, CallStates;
    ReceiptIs(w, q);
    var k: nat := q.offset;
    JournalAt(w, k);
    AckPlaces(w, k);
    StreamLawful(w, |w.journal|);
    assert FrameAt(w, k)[0].vote.admittedAt == w.journal[k].admitted;
  }

  /** The journal ends with a CLOSED behind its frames. */
  lemma StreamEnds(w: World)
    requires Inv(w)
    ensures ClosedWell(w.run, Stream(w, |w.journal|), Ended([End(0, |w.journal|)]))
  {
    hide Inv, Lawful, FrameAt, At, Stream, ReceiptsOf, Before;
    OnePartition(w);
    StreamLawful(w, |w.journal|);
    OffsetsBelow(w, Stream(w, |w.journal|), |w.journal|);
  }

  lemma OnePartition(w: World)
    requires Inv(w)
    ensures w.run.Valid() && w.run.partitions == 1
  {
  }

  lemma OffsetsBelow(w: World, vs: seq<Visited>, n: nat)
    requires Before(w, vs, n, 0)
    ensures forall i | 0 <= i < |vs| :: vs[i].place.offset < n
  {
    hide FrameAt;
    forall i | 0 <= i < |vs| ensures vs[i].place.offset < n {
      assert Placed(w, vs[i], n, 0);
      var k: nat, j: nat :| From(w, vs[i], k, j) && Earlier(k, j, n, 0);
      PlaceAt(w, k, j);
    }
  }

  /**
   * At every moment of every workload against a right store, closing the journal there gives one that the
   * client's ledger explains, so the audit reports it correct.
   */
  lemma LedgerExplainsJournal(ws: seq<World>, i: nat)
    requires IsRun(ws) && i < |ws|
    ensures Inv(ws[i])
    ensures Explains(ws[i].run, ws[i].acks, Stream(ws[i], |ws[i].journal|), Ended([End(0, |ws[i].journal|)]))
  {
    RunKeeps(ws, i);
    var w := ws[i];
    hide IsRun;
    assert DistinctPlaces(w.acks) && SumCounts(w.acks) == |Ledger(w.run)| && w.run.Valid();
    StreamLawful(w, |w.journal|);
    forall q | q in ReceiptsOf(w.acks) ensures Matches(w.run, ReceiptsOf(w.acks)[q], At(Stream(w, |w.journal|), q)) {
      ReceiptsMatch(w, q);
    }
    StreamLedger(w);
    StreamEnds(w);
    hide Inv, Lawful, Matches, ClosedWell, Stream, Ledger, AckedAttempts, DistinctPlaces;
  }

  // --------------------------------------------------- what a call can become

  /** A call in flight: dispatched, not appended, its worker told nothing. */
  ghost predicate InFlight(w: World, i: nat, frame: seq<Attempt>) {
    w.run.Valid() && i < |w.calls| && w.calls[i] == Call(frame, None, None) && Consistent(w, i)
  }

  /** A fresh frame can be dispatched; its attempts' outcome is unknown from then on. */
  lemma CanDispatch(w: World, frame: seq<Attempt>, a: Attempt)
    requires w.run.Valid() && Fresh(w.run, frame) && a in frame
    ensures Enabled(w, Dispatch(frame))
    ensures var t := Apply(w, Dispatch(frame)); InFlight(t, |w.calls|, frame) && t.run.Planned(a) && t.run.StateOf(a) == Unknown
  {
    SetStates(w.run, frame, Unknown, a);
    hide SetAll;
  }

  /** Then it can be refused, or its worker can give up, */
  lemma CanRefuse(w: World, i: nat, frame: seq<Attempt>, a: Attempt)
    requires InFlight(w, i, frame) && a in frame
    ensures Enabled(w, Refused(i)) && Enabled(w, Unsure(i))
    ensures var t := Apply(w, Refused(i)); t.run.Planned(a) && t.run.StateOf(a) == Rejected
    ensures Apply(w, Unsure(i)).run == w.run
  {
    SetStates(w.run, frame, Rejected, a);
    hide SetAll;
  }

  /** or it can be appended at the journal's end, */
  lemma CanAppend(w: World, i: nat, frame: seq<Attempt>, admitted: i64)
    requires InFlight(w, i, frame) && w.run.startsAt <= admitted < w.run.endsAt
    ensures Enabled(w, Append(i, admitted))
    ensures var t := Apply(w, Append(i, admitted));
      && t.journal == w.journal + [Entry(i, admitted)] && t.run == w.run
      && |t.calls| == |w.calls| && t.calls[i] == Call(frame, Some(|w.journal|), None) && Consistent(t, i)
  {
  }

  /** and then receipted, which marks its attempts as committed. */
  lemma CanReceipt(w: World, i: nat, frame: seq<Attempt>, at: nat, a: Attempt)
    requires w.run.Valid() && i < |w.calls| && w.calls[i] == Call(frame, Some(at), None) && Consistent(w, i) && a in frame
    ensures Enabled(w, Receipted(i))
    ensures var t := Apply(w, Receipted(i));
      t.run.Planned(a) && t.run.StateOf(a) == Acked && |t.acks| == |w.acks| + 1 && t.journal == w.journal
  {
    SetStates(w.run, frame, Acked, a);
    hide SetAll, AckOf;
  }
}
