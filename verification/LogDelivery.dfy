/**
 * What becomes of the votes and frames that an owner of a Kafka partition admits (internal/votelog/store.go): while
 * it lives none is lost or reordered, and it seals the partition only when all of them are committed and receipted.
 */
module LogDelivery {
  import opened Wrappers
  import opened LogCodec
  import opened LogReplay
  import opened LogProtocol
  import opened LogSafety

  /** A run together with the step taken at each of its moments. */
  ghost predicate IsTrace(c: Config, hash: Hash, p: nat, run: seq<State>, ls: seq<Label>) {
    && c.Valid() && |run| == |ls| + 1 && run[0] == INITIAL
    && forall i | 0 <= i < |ls| :: Enabled(c, hash, p, run[i], ls[i]) && run[i + 1] == Apply(c, hash, p, run[i], ls[i])
  }

  lemma TraceIsRun(c: Config, hash: Hash, p: nat, run: seq<State>, ls: seq<Label>)
    requires IsTrace(c, hash, p, run, ls)
    ensures IsRun(c, hash, p, run)
  {
    hide Apply, Enabled;
    forall i | 0 <= i < |run| - 1 ensures Step(c, hash, p, run[i], run[i + 1]) {
      assert Enabled(c, hash, p, run[i], ls[i]);
    }
  }

  /** What an owner has admitted in the first n steps, in order. */
  function AdmittedBy(ls: seq<Label>, n: nat, o: nat): seq<Entry>
    requires n <= |ls|
  {
    if n == 0 then []
    else AdmittedBy(ls, n - 1, o) + if ls[n - 1].Submit? && ls[n - 1].o == o then [ls[n - 1].entry] else []
  }

  /** The receipts one step gives an owner's callers: those of a committed batch, each at its own offset. */
  function ReceiptsAt(s: State, l: Label, o: nat): seq<Logged> {
    if l == Commit(o) && o < |s.owners| && s.owners[o].place.Ending? && s.owners[o].place.work.WorkBatch?
    then PlacedFrom(s.owners[o].place.work.batch, s.owners[o].place.first)
    else []
  }

  function ReceiptsBy(run: seq<State>, ls: seq<Label>, n: nat, o: nat): seq<Logged>
    requires n <= |ls| <= |run|
  {
    if n == 0 then [] else ReceiptsBy(run, ls, n - 1, o) + ReceiptsAt(run[n - 1], ls[n - 1], o)
  }

  function EntriesIn(log: seq<Logged>): (es: seq<Entry>)
    ensures |es| == |log|
  {
    seq(|log|, i requires 0 <= i < |log| => log[i].entry)
  }

  /** An owner before it serves. */
  predicate Begins(place: Place) {
    place.Starting? || place.Replaying? || (place.Producing? && place.work.WorkBoot?) || (place.Ending? && place.work.WorkBoot?)
  }

  /** An owner that has admitted these entries, and given receipts for those. */
  ghost predicate Delivers(w: Owner, admitted: seq<Entry>, receipted: seq<Entry>) {
    && (w.place != Stopped || w.sealed.Some? ==> admitted == receipted + (w.batch + w.jobs))
    && (Begins(w.place) ==> admitted == [] && !w.closing)
    && (w.sealed.Some? ==> w.closing && w.batch == [] && w.jobs == [])
    && (w.place.Producing? || w.place.Ending? ==>
          match w.place.work
          case WorkBoot => true
          case WorkBatch(b) => b == w.batch && b != []
          case WorkClosed => w.closing && w.batch == [] && w.jobs == [])
  }

  /** A step of another owner or of the broker. */
  lemma OtherDelivers(c: Config, hash: Hash, p: nat, s: State, l: Label, o: nat)
    requires c.Valid() && Enabled(c, hash, p, s, l) && o < |s.owners| && (l.NewOwner? || l.ResolveCommit? || l.ResolveAbort? || l.o != o)
    ensures var t := Apply(c, hash, p, s, l); o < |t.owners| && t.owners[o] == s.owners[o] && ReceiptsAt(s, l, o) == []
  {
    hide ReplayLog, Admissible;
  }

  /** A queued vote or frame is admitted, or goes on to the batch. */
  lemma QueueDelivers(c: Config, hash: Hash, p: nat, s: State, l: Label, admitted: seq<Entry>, receipted: seq<Entry>)
    requires c.Valid() && Enabled(c, hash, p, s, l) && (l.Submit? || l.TakeJob?) && Delivers(s.owners[l.o], admitted, receipted)
    ensures var t := Apply(c, hash, p, s, l);
      l.o < |t.owners| && Delivers(t.owners[l.o], admitted + (if l.Submit? then [l.entry] else []), receipted) && ReceiptsAt(s, l, l.o) == []
  {
    hide ReplayLog, Admissible;
    var w := s.owners[l.o];
    if l.Submit? {
      assert receipted + (w.batch + w.jobs) + [l.entry] == receipted + (w.batch + (w.jobs + [l.entry]));
    } else {
      assert admitted + [] == admitted && w.batch + w.jobs == w.batch + [w.jobs[0]] + w.jobs[1..];
    }
  }

  lemma CommitDelivers(c: Config, hash: Hash, p: nat, s: State, o: nat, admitted: seq<Entry>, receipted: seq<Entry>)
    requires c.Valid() && Enabled(c, hash, p, s, Commit(o)) && Delivers(s.owners[o], admitted, receipted)
    ensures var t := Apply(c, hash, p, s, Commit(o));
      o < |t.owners| && Delivers(t.owners[o], admitted, receipted + EntriesIn(ReceiptsAt(s, Commit(o), o)))
  {
    hide ReplayLog, Admissible;
    var w := s.owners[o];
    assert EntriesIn(PlacedFrom(w.batch, w.place.first)) == w.batch && EntriesIn([]) == [] && receipted + [] == receipted;
    assert receipted + (w.batch + w.jobs) == receipted + w.batch + ([] + w.jobs);
  }

  lemma MoveDelivers(c: Config, hash: Hash, p: nat, s: State, l: Label, admitted: seq<Entry>, receipted: seq<Entry>)
    requires c.Valid() && Enabled(c, hash, p, s, l) && !l.NewOwner? && !l.ResolveCommit? && !l.ResolveAbort?
    requires !l.Submit? && !l.TakeJob? && !l.Commit? && l.o < |s.owners| && Delivers(s.owners[l.o], admitted, receipted)
    ensures var t := Apply(c, hash, p, s, l); l.o < |t.owners| && Delivers(t.owners[l.o], admitted, receipted) && ReceiptsAt(s, l, l.o) == []
  {
    hide ReplayLog, Admissible;
  }

  /** One step, as far as one owner is concerned: what it admits and what it gives receipts for. */
  lemma OwnDelivers(c: Config, hash: Hash, p: nat, s: State, l: Label, o: nat, admitted: seq<Entry>, receipted: seq<Entry>)
    requires c.Valid() && Enabled(c, hash, p, s, l) && o < |s.owners| && Delivers(s.owners[o], admitted, receipted)
    ensures var t := Apply(c, hash, p, s, l);
      && o < |t.owners|
      && Delivers(t.owners[o],
                  admitted + (if l.Submit? && l.o == o then [l.entry] else []),
                  receipted + EntriesIn(ReceiptsAt(s, l, o)))
  {
    hide Apply, Enabled, Delivers, ReceiptsAt;
    assert admitted + [] == admitted && receipted + [] == receipted && EntriesIn([]) == [];
    if l.NewOwner? || l.ResolveCommit? || l.ResolveAbort? || l.o != o {
      OtherDelivers(c, hash, p, s, l, o);
    } else if l.Submit? || l.TakeJob? {
      QueueDelivers(c, hash, p, s, l, admitted, receipted);
    } else if l.Commit? {
      CommitDelivers(c, hash, p, s, o, admitted, receipted);
    } else {
      MoveDelivers(c, hash, p, s, l, admitted, receipted);
    }
  }

  lemma NewDelivers(c: Config, hash: Hash, p: nat, s: State, l: Label)
    requires c.Valid() && Enabled(c, hash, p, s, l)
    ensures |s.owners| <= |Apply(c, hash, p, s, l).owners| <= |s.owners| + 1
    ensures |Apply(c, hash, p, s, l).owners| > |s.owners| ==> Delivers(Apply(c, hash, p, s, l).owners[|s.owners|], [], [])
    ensures forall o: nat | o >= |s.owners| :: ReceiptsAt(s, l, o) == [] && !(l.Submit? && l.o == o)
  {
    hide ReplayLog, Admissible;
  }

  /**
   * In every run an owner that has not stopped has given receipts for the first of its admissions, in order; the rest
   * is its batch and its queue.
   */
  lemma {:induction false} RunDelivers(c: Config, hash: Hash, p: nat, run: seq<State>, ls: seq<Label>, n: nat, o: nat)
    requires IsTrace(c, hash, p, run, ls) && n <= |ls|
    ensures if o < |run[n].owners| then Delivers(run[n].owners[o], AdmittedBy(ls, n, o), EntriesIn(ReceiptsBy(run, ls, n, o)))
            else AdmittedBy(ls, n, o) == [] && ReceiptsBy(run, ls, n, o) == []
  {
    hide Delivers, Apply, Enabled, ReceiptsAt;
    if n > 0 {
      RunDelivers(c, hash, p, run, ls, n - 1, o);
      var s, l := run[n - 1], ls[n - 1];
      assert Enabled(c, hash, p, s, l) && run[n - 1 + 1] == Apply(c, hash, p, s, l);
      NewDelivers(c, hash, p, s, l);
      if o < |s.owners| {
        OwnDelivers(c, hash, p, s, l, o, AdmittedBy(ls, n - 1, o), EntriesIn(ReceiptsBy(run, ls, n - 1, o)));
        EntriesConcat(ReceiptsBy(run, ls, n - 1, o), ReceiptsAt(s, l, o));
      } else {
        var entries: seq<Entry>, logged: seq<Logged> := [], [];
        assert ReceiptsAt(s, l, o) == [] && AdmittedBy(ls, n - 1, o) == [] && ReceiptsBy(run, ls, n - 1, o) == [];
        assert AdmittedBy(ls, n, o) == [] && ReceiptsBy(run, ls, n, o) == [];
        assert entries + entries == entries && logged + logged == logged && EntriesIn(logged) == entries;
      }
    }
  }

  lemma EntriesConcat(a: seq<Logged>, b: seq<Logged>)
    ensures EntriesIn(a + b) == EntriesIn(a) + EntriesIn(b)
  {
  }

  ghost predicate Receipted(run: seq<State>, ls: seq<Label>, n: nat, o: nat, x: Logged)
    requires n <= |ls| <= |run|
  {
    x in ReceiptsBy(run, ls, n, o)
  }

  /** The acknowledgements are the owners' receipts: every receipt is one, and there are no others. */
  lemma {:induction false} AckedAreReceipts(c: Config, hash: Hash, p: nat, run: seq<State>, ls: seq<Label>, n: nat, x: Logged)
    requires IsTrace(c, hash, p, run, ls) && n <= |ls|
    ensures x in run[n].acked <==> exists o: nat :: Receipted(run, ls, n, o, x)
  {
    hide Apply, Enabled, ReceiptsAt;
    if n > 0 {
      AckedAreReceipts(c, hash, p, run, ls, n - 1, x);
      var s, l := run[n - 1], ls[n - 1];
      assert Enabled(c, hash, p, s, l) && run[n - 1 + 1] == Apply(c, hash, p, s, l);
      StepAcks(c, hash, p, s, l, x);
      var m := n - 1;
      if o: nat :| Receipted(run, ls, m, o, x) { assert Receipted(run, ls, n, o, x); }
      if o: nat :| x in ReceiptsAt(s, l, o) { assert Receipted(run, ls, n, o, x); }
      if o: nat :| Receipted(run, ls, n, o, x) { assert Receipted(run, ls, m, o, x) || x in ReceiptsAt(s, l, o); }
    }
  }

  lemma StepAcks(c: Config, hash: Hash, p: nat, s: State, l: Label, x: Logged)
    requires c.Valid() && Enabled(c, hash, p, s, l)
    ensures x in Apply(c, hash, p, s, l).acked <==> x in s.acked || exists o: nat :: x in ReceiptsAt(s, l, o)
  {
    hide ReplayLog, Admissible;
    if l.Commit? && s.owners[l.o].place.work.WorkBatch? {
      var t, w := Apply(c, hash, p, s, l), s.owners[l.o];
      assert ReceiptsAt(s, l, l.o) == PlacedFrom(w.place.work.batch, w.place.first);
      assert t.acked == s.acked + PlacedFrom(w.place.work.batch, w.place.first);
    } else {
      assert forall o: nat :: ReceiptsAt(s, l, o) == [];
    }
  }

  lemma StepStaysClosing(c: Config, hash: Hash, p: nat, s: State, l: Label, o: nat)
    requires c.Valid() && Enabled(c, hash, p, s, l) && o < |s.owners| && s.owners[o].closing
    ensures var t := Apply(c, hash, p, s, l); o < |t.owners| && t.owners[o].closing
  {
    hide ReplayLog, Admissible;
  }

  lemma {:induction false} StaysClosing(c: Config, hash: Hash, p: nat, run: seq<State>, ls: seq<Label>, i: nat, n: nat, o: nat)
    requires IsTrace(c, hash, p, run, ls) && i <= n <= |ls| && o < |run[i].owners| && run[i].owners[o].closing
    ensures o < |run[n].owners| && run[n].owners[o].closing
    decreases n - i
  {
    hide Enabled, Apply;
    if i < n {
      StaysClosing(c, hash, p, run, ls, i, n - 1, o);
      assert Enabled(c, hash, p, run[n - 1], ls[n - 1]) && run[n - 1 + 1] == Apply(c, hash, p, run[n - 1], ls[n - 1]);
      StepStaysClosing(c, hash, p, run[n - 1], ls[n - 1], o);
    }
  }

  /** Once Seal is called, the owner admits nothing more. */
  lemma NothingAfterRequest(c: Config, hash: Hash, p: nat, run: seq<State>, ls: seq<Label>, i: nat, k: nat, o: nat)
    requires IsTrace(c, hash, p, run, ls) && i < k < |ls| && ls[i] == RequestSeal(o) && ls[k].Submit?
    ensures ls[k].o != o
  {
    hide ReplayLog, Admissible;
    assert Enabled(c, hash, p, run[i], ls[i]) && run[i + 1] == Apply(c, hash, p, run[i], ls[i]);
    StaysClosing(c, hash, p, run, ls, i + 1, k, o);
    assert Enabled(c, hash, p, run[k], ls[k]);
  }

  /**
   * A sealed owner has lost nothing: every vote and frame it admitted has its receipt, in order, and is committed
   * before CLOSED.
   */
  lemma SealedHasDelivered(c: Config, hash: Hash, p: nat, run: seq<State>, ls: seq<Label>, n: nat, o: nat)
    requires IsTrace(c, hash, p, run, ls) && n <= |ls| && o < |run[n].owners| && run[n].owners[o].sealed.Some?
    ensures EntriesIn(ReceiptsBy(run, ls, n, o)) == AdmittedBy(ls, n, o)
    ensures forall x | x in ReceiptsBy(run, ls, n, o) :: x in run[n].log && x.offset < run[n].owners[o].sealed.value
  {
    RunDelivers(c, hash, p, run, ls, n, o);
    TraceIsRun(c, hash, p, run, ls);
    RunKeeps(c, hash, p, run, n);
    var s, admitted := run[n], AdmittedBy(ls, n, o);
    assert EntriesIn(ReceiptsBy(run, ls, n, o)) + ([] + []) == EntriesIn(ReceiptsBy(run, ls, n, o));
    forall x | x in ReceiptsBy(run, ls, n, o) ensures x in s.log && x.offset < s.owners[o].sealed.value {
      AckedAreReceipts(c, hash, p, run, ls, n, x);
      assert Receipted(run, ls, n, o, x);
      ReceiptsAreVotes(c, hash, p, run, ls, n, o, x);
      VotesBeforeClosed(c, hash, p, s, o, x);
    }
  }

  /** Receipts are for votes and frames, not for control records. */
  lemma {:induction false} ReceiptsAreVotes(c: Config, hash: Hash, p: nat, run: seq<State>, ls: seq<Label>, n: nat, o: nat, x: Logged)
    requires IsTrace(c, hash, p, run, ls) && n <= |ls| && x in ReceiptsBy(run, ls, n, o)
    ensures Admissible(c, hash, p, x.entry)
  {
    hide Apply, Enabled, Admissible;
    TraceIsRun(c, hash, p, run, ls);
    if x in ReceiptsBy(run, ls, n - 1, o) {
      ReceiptsAreVotes(c, hash, p, run, ls, n - 1, o, x);
    } else {
      RunKeeps(c, hash, p, run, n - 1);
      var s := run[n - 1];
      assert OwnerOk(c, hash, p, s, o);
      assert x.entry in s.owners[o].place.work.batch;
    }
  }

  /** In a log that ends at CLOSED and BOOTs, votes come before CLOSED. */
  lemma VotesBeforeClosed(c: Config, hash: Hash, p: nat, s: State, o: nat, x: Logged)
    requires Inv(c, hash, p, s) && o < |s.owners| && s.owners[o].sealed.Some? && x in s.acked && Admissible(c, hash, p, x.entry)
    ensures x in s.log && x.offset < s.owners[o].sealed.value
  {
    assert OwnerOk(c, hash, p, s, o);
    var i :| 0 <= i < |s.log| && s.log[i] == x;
    ShutAfter(s.log, Fresh, i, s.owners[o].sealed.value);
  }

  lemma {:induction false} ShutAfter(log: seq<Logged>, ph: Phase, i: nat, end: nat)
    requires PhaseAfter(ph, log) == Some(Shut(end)) && i < |log| && !ph.Shut? && Ascending(log)
    ensures log[i].entry == One(Boot) || log[i].entry == One(Closed) || log[i].offset < end
    decreases |log|
  {
    var q := NextPhase(ph, log[0]).value;
    if i == 0 {
      if !q.Shut? { EndIsLater(log[1..], q, end, log[0].offset); }
    } else {
      assert log[1..][i - 1] == log[i];
      if q.Shut? { OnlyBootsAfter(q, log[1..]); } else { ShutAfter(log[1..], q, i - 1, end); }
    }
  }

  lemma {:induction false} EndIsLater(log: seq<Logged>, ph: Phase, end: nat, before: nat)
    requires PhaseAfter(ph, log) == Some(Shut(end)) && !ph.Shut? && forall i | 0 <= i < |log| :: before < log[i].offset
    ensures before < end
    decreases |log|
  {
    var q := NextPhase(ph, log[0]).value;
    if q.Shut? { OnlyBootsAfter(q, log[1..]); } else { EndIsLater(log[1..], q, end, before); }
  }
}
