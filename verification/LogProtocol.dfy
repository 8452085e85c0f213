/**
 * Owners of one Kafka partition over time (internal/votelog/store.go): each New fences the one before,
 * commits BOOT, replays up to it and serves; commits may abort, be half produced, or succeed with the
 * reply lost. Kafka's transactions and fencing are the environment's steps. Partitions are independent:
 * the protocol of one is that of each.
 */
module LogProtocol {
  import opened Wrappers
  import opened LogCodec
  import opened LogReplay

  /** What a writer commits in one transaction. */
  datatype Work = WorkBoot | WorkBatch(batch: seq<Entry>) | WorkClosed

  /** Where an owner stands; `first` is the offset the broker gave the transaction's first record. */
  datatype Place =
    | Starting
    | Producing(work: Work)
    | Ending(work: Work, first: nat)
    | Replaying(barrier: nat)
    | Serving
    | Stopped

  /** One Store's writer: its gate flags, its admitted jobs, the batch it gathers. */
  datatype Owner = Owner(place: Place, closing: bool, sealed: Option<nat>, jobs: seq<Entry>, batch: seq<Entry>)

  /** The partition's open transaction; once `asked`, a commit request may still be honoured. */
  datatype Txn = Txn(owner: nat, records: seq<Logged>, asked: bool)

  /** `acked` is history: what callers got receipts for, at the receipts' offsets. */
  datatype State = State(
    log: seq<Logged>, next: nat, txn: Option<Txn>, current: Option<nat>, owners: seq<Owner>, acked: seq<Logged>)

  const INITIAL := State([], 0, None, None, [], [])

  /**
   * Init acquires the producer ID: earlier owners are fenced from then on. ProducePartly is a produce that
   * failed with a part appended. Commit got its reply; after CommitUnanswered the broker honours the commit
   * (ResolveCommit) or, as after a timeout, fencing or a lost request, does not (ResolveAbort). Stop is any
   * error, Close or crash: the owner never writes again.
   */
  datatype Label =
    | NewOwner
    | Init(o: nat)
    | Produce(o: nat)
    | ProducePartly(o: nat, k: nat)
    | Commit(o: nat)
    | CommitUnanswered(o: nat)
    | ResolveCommit
    | ResolveAbort
    | FinishReplay(o: nat)
    | Submit(o: nat, entry: Entry)
    | TakeJob(o: nat)
    | Flush(o: nat)
    | RequestSeal(o: nat)
    | BeginClosed(o: nat)
    | Stop(o: nat)

  function EntriesOf(w: Work): seq<Entry> {
    match w
    case WorkBoot => [One(Boot)]
    case WorkBatch(batch) => batch
    case WorkClosed => [One(Closed)]
  }

  function PlacedFrom(es: seq<Entry>, first: nat): (l: seq<Logged>)
    ensures |l| == |es|
  {
    seq(|es|, i requires 0 <= i < |es| => Logged(first + i, es[i]))
  }

  /** A caller's vote or frame after admission: valid, routed here, stamped inside the window. */
  ghost predicate Admissible(c: Config, hash: Hash, p: nat, e: Entry)
    requires c.Valid()
  {
    (e.Many? || e.item.Ballot?) && ValidEntry(c, hash, p, e)
  }

  predicate Accepts(w: Owner) {
    && !w.closing && w.sealed.None?
    && (w.place == Serving || (w.place.Producing? && w.place.work.WorkBatch?) || (w.place.Ending? && w.place.work.WorkBatch?))
  }

  ghost predicate Enabled(c: Config, hash: Hash, p: nat, s: State, l: Label)
    requires c.Valid()
  {
    match l
    case NewOwner => true
    case Init(o) => o < |s.owners| && s.owners[o].place == Starting && s.txn.None?
    case Produce(o) => o < |s.owners| && s.owners[o].place.Producing? && s.current == Some(o) && s.txn.None?
    case ProducePartly(o, k) =>
      o < |s.owners| && s.owners[o].place.Producing? && s.current == Some(o) && s.txn.None?
      && k <= |EntriesOf(s.owners[o].place.work)|
    case Commit(o) => o < |s.owners| && s.owners[o].place.Ending? && s.txn.Some? && s.txn.value.owner == o
    case CommitUnanswered(o) => o < |s.owners| && s.owners[o].place.Ending? && s.txn.Some? && s.txn.value.owner == o
    case ResolveCommit => s.txn.Some? && s.txn.value.asked
    case ResolveAbort => s.txn.Some?
    case FinishReplay(o) => o < |s.owners| && s.owners[o].place.Replaying?
    case Submit(o, e) => o < |s.owners| && Accepts(s.owners[o]) && Admissible(c, hash, p, e)
    case TakeJob(o) => o < |s.owners| && s.owners[o].place == Serving && s.owners[o].jobs != []
    case Flush(o) => o < |s.owners| && s.owners[o].place == Serving && s.owners[o].batch != []
    case RequestSeal(o) => o < |s.owners| && Accepts(s.owners[o])
    case BeginClosed(o) =>
      o < |s.owners| && s.owners[o].place == Serving && s.owners[o].closing && s.owners[o].sealed.None?
      && s.owners[o].jobs == [] && s.owners[o].batch == []
    case Stop(o) => o < |s.owners|
  }

  function SetOwner(s: State, o: nat, w: Owner): State
    requires o < |s.owners|
  {
    s.(owners := s.owners[o := w])
  }

  function Begin(s: State, o: nat, records: seq<Logged>): State {
    s.(txn := Some(Txn(o, records, false)), next := s.next + |records|)
  }

  /** The broker commits the open transaction; its marker takes an offset. */
  function CommitTxn(s: State): State
    requires s.txn.Some?
  {
    s.(log := s.log + s.txn.value.records, txn := None, next := s.next + 1)
  }

  function Committed(w: Owner, first: nat): Owner
    requires w.place.Ending?
  {
    match w.place.work
    case WorkBoot => w.(place := Replaying(first))
    case WorkBatch(_) => w.(place := Serving, batch := [])
    case WorkClosed => w.(place := Stopped, sealed := Some(first))
  }

  /** New after its replay: a closed partition is adopted as sealed, an open one is served. */
  function Adopt(w: Owner, turn: Turn): Owner {
    match turn
    case Done(r) => if r.closed.Some? then w.(place := Stopped, closing := true, sealed := r.closed) else w.(place := Serving)
    case Reject => w.(place := Stopped)
    case More(_) => w
  }

  ghost function Apply(c: Config, hash: Hash, p: nat, s: State, l: Label): State
    requires c.Valid() && Enabled(c, hash, p, s, l)
  {
    match l
    case NewOwner => s.(owners := s.owners + [Owner(Starting, false, None, [], [])])
    case Init(o) => SetOwner(s, o, s.owners[o].(place := Producing(WorkBoot))).(current := Some(o))
    case Produce(o) =>
      var work := s.owners[o].place.work;
      SetOwner(Begin(s, o, PlacedFrom(EntriesOf(work), s.next)), o, s.owners[o].(place := Ending(work, s.next)))
    case ProducePartly(o, k) =>
      SetOwner(Begin(s, o, PlacedFrom(EntriesOf(s.owners[o].place.work)[..k], s.next)), o, s.owners[o].(place := Stopped))
    case Commit(o) =>
      var w := s.owners[o];
      var t := SetOwner(CommitTxn(s), o, Committed(w, w.place.first));
      if w.place.work.WorkBatch? then t.(acked := s.acked + PlacedFrom(EntriesOf(w.place.work), w.place.first)) else t
    case CommitUnanswered(o) =>
      SetOwner(s.(txn := Some(s.txn.value.(asked := true))), o, s.owners[o].(place := Stopped))
    case ResolveCommit => CommitTxn(s)
    case ResolveAbort => s.(txn := None, next := s.next + 1)
    case FinishReplay(o) =>
      SetOwner(s, o, Adopt(s.owners[o], ReplayLog(c, hash, p, Some(s.owners[o].place.barrier), START, ToRecs(c, s.log))))
    case Submit(o, e) => SetOwner(s, o, s.owners[o].(jobs := s.owners[o].jobs + [e]))
    case TakeJob(o) =>
      SetOwner(s, o, s.owners[o].(jobs := s.owners[o].jobs[1..], batch := s.owners[o].batch + [s.owners[o].jobs[0]]))
    case Flush(o) => SetOwner(s, o, s.owners[o].(place := Producing(WorkBatch(s.owners[o].batch))))
    case RequestSeal(o) => SetOwner(s, o, s.owners[o].(closing := true))
    case BeginClosed(o) => SetOwner(s, o, s.owners[o].(place := Producing(WorkClosed)))
    case Stop(o) => SetOwner(s, o, s.owners[o].(place := Stopped))
  }

  ghost predicate Step(c: Config, hash: Hash, p: nat, s: State, t: State)
    requires c.Valid()
  {
    exists l :: Enabled(c, hash, p, s, l) && t == Apply(c, hash, p, s, l)
  }

  ghost predicate IsRun(c: Config, hash: Hash, p: nat, run: seq<State>) {
    && c.Valid()
    && run != []
    && run[0] == INITIAL
    && forall i | 0 <= i < |run| - 1 :: Step(c, hash, p, run[i], run[i + 1])
  }

  // ------------------------------------------------------------ invariant

  /** A log whose records are valid, in offset order below `next`, and of the journal's form. */
  ghost predicate LogOk(c: Config, hash: Hash, p: nat, log: seq<Logged>, next: nat)
    requires c.Valid()
  {
    && AllValid(c, hash, p, log)
    && Ascending(log)
    && (forall i | 0 <= i < |log| :: log[i].offset < next)
    && PhaseAfter(Fresh, log).Some?
  }

  function PhaseOf(log: seq<Logged>): Option<Phase> {
    PhaseAfter(Fresh, log)
  }

  ghost predicate TxnOk(c: Config, hash: Hash, p: nat, s: State)
    requires c.Valid()
  {
    s.txn.Some? ==>
      && s.current == Some(s.txn.value.owner) && s.txn.value.owner < |s.owners|
      && LogOk(c, hash, p, s.log + s.txn.value.records, s.next)
      && (s.txn.value.asked ==> s.owners[s.txn.value.owner].place == Stopped)
  }

  ghost predicate AllAdmissible(c: Config, hash: Hash, p: nat, es: seq<Entry>)
    requires c.Valid()
  {
    forall e | e in es :: Admissible(c, hash, p, e)
  }

  ghost predicate WorkOk(c: Config, hash: Hash, p: nat, w: Work)
    requires c.Valid()
  {
    w.WorkBatch? ==> AllAdmissible(c, hash, p, w.batch)
  }

  /** An owner at work on votes or CLOSED, or ready to be. */
  predicate Writes(p: Place) {
    p == Serving || (p.Producing? && p.work != WorkBoot) || (p.Ending? && p.work != WorkBoot)
  }

  /** What is true of the current owner and, once it is fenced, need not be any more. */
  ghost predicate CurrentOk(s: State, o: nat)
    requires o < |s.owners|
  {
    var place := s.owners[o].place;
    && place != Starting
    && (Writes(place) ==> PhaseOf(s.log) == Some(Open))
    && (place.Replaying? ==> s.log != [] && s.log[|s.log| - 1] == Logged(place.barrier, One(Boot)))
    && (place.Producing? || place.Replaying? || place == Serving ==> s.txn.None?)
    && (place.Ending? && s.txn.Some? ==> s.txn.value.records == PlacedFrom(EntriesOf(place.work), place.first))
  }

  ghost predicate OwnerOk(c: Config, hash: Hash, p: nat, s: State, o: nat)
    requires c.Valid() && o < |s.owners|
  {
    var w := s.owners[o];
    && AllAdmissible(c, hash, p, w.jobs) && AllAdmissible(c, hash, p, w.batch)
    && (w.place.Producing? ==> WorkOk(c, hash, p, w.place.work))
    && (w.place.Ending? ==> WorkOk(c, hash, p, w.place.work))
    && (w.sealed.Some? ==> w.place == Stopped && PhaseOf(s.log) == Some(Shut(w.sealed.value)))
    && (w.place.Replaying? ==> Logged(w.place.barrier, One(Boot)) in s.log)
    && (s.current == Some(o) ==> CurrentOk(s, o))
  }

  ghost predicate Inv(c: Config, hash: Hash, p: nat, s: State) {
    && c.Valid()
    && LogOk(c, hash, p, s.log, s.next)
    && TxnOk(c, hash, p, s)
    && (s.current.Some? ==> s.current.value < |s.owners|)
    && (forall o | 0 <= o < |s.owners| :: OwnerOk(c, hash, p, s, o))
    && (forall l | l in s.acked :: l in s.log)
  }

  // ------------------------------------------------ growing the log keeps form

  lemma PlacedValid(c: Config, hash: Hash, p: nat, w: Work, n: nat, k: nat)
    requires c.Valid() && WorkOk(c, hash, p, w) && k <= |EntriesOf(w)|
    ensures AllValid(c, hash, p, PlacedFrom(EntriesOf(w)[..k], n)) && Ascending(PlacedFrom(EntriesOf(w)[..k], n))
    ensures forall i | 0 <= i < k :: n <= PlacedFrom(EntriesOf(w)[..k], n)[i].offset < n + k
  {
    hide ValidVote, Partition;
    var l := PlacedFrom(EntriesOf(w)[..k], n);
    forall i | 0 <= i < k ensures ValidEntry(c, hash, p, l[i].entry) {
      if w.WorkBatch? { assert w.batch[i] in w.batch; }
    }
  }

  lemma {:induction false} VotesKeepOpen(c: Config, hash: Hash, p: nat, log: seq<Logged>)
    requires c.Valid() && forall i | 0 <= i < |log| :: Admissible(c, hash, p, log[i].entry)
    ensures PhaseAfter(Open, log) == Some(Open)
    decreases |log|
  {
    hide ValidEntry;
    if log != [] {
      assert Admissible(c, hash, p, log[0].entry);
      VotesKeepOpen(c, hash, p, log[1..]);
    }
  }

  /** Appending what an owner produces keeps the form, when votes and CLOSED come only in the open phase. */
  lemma WorkKeepsForm(c: Config, hash: Hash, p: nat, log: seq<Logged>, w: Work, n: nat, k: nat)
    requires c.Valid() && LogOk(c, hash, p, log, n) && WorkOk(c, hash, p, w) && k <= |EntriesOf(w)|
    requires w != WorkBoot ==> PhaseOf(log) == Some(Open)
    ensures LogOk(c, hash, p, log + PlacedFrom(EntriesOf(w)[..k], n), n + k)
    ensures w.WorkBatch? ==> PhaseOf(log + PlacedFrom(EntriesOf(w)[..k], n)) == Some(Open)
    ensures w.WorkClosed? && k == 1 ==> PhaseOf(log + PlacedFrom(EntriesOf(w)[..k], n)) == Some(Shut(n))
  {
    var more := PlacedFrom(EntriesOf(w)[..k], n);
    PlacedValid(c, hash, p, w, n, k);
    PhaseConcat(Fresh, log, more);
    match w {
      case WorkBatch(batch) =>
        VotesKeepOpen(c, hash, p, more);
      case _ =>
        assert k <= 1;
        if k == 1 {
          assert more == [Logged(n, EntriesOf(w)[0])] && more[1..] == [];
        }
    }
    hide ValidEntry;
  }

  lemma SealedStays(log: seq<Logged>, more: seq<Logged>, end: nat)
    requires PhaseOf(log) == Some(Shut(end)) && PhaseOf(log + more).Some?
    ensures PhaseOf(log + more) == Some(Shut(end))
  {
    PhaseConcat(Fresh, log, more);
    OnlyBootsAfter(Shut(end), more);
  }

  // ------------------------------------------------- every step keeps it

  /** A change to one owner that leaves the log, the transaction and the fencing alone. */
  lemma OwnerChangeKeeps(c: Config, hash: Hash, p: nat, s: State, o: nat, w: Owner)
    requires Inv(c, hash, p, s) && o < |s.owners| && OwnerOk(c, hash, p, SetOwner(s, o, w), o)
    requires s.txn.Some? && s.txn.value.owner == o && s.txn.value.asked ==> w.place == Stopped
    ensures Inv(c, hash, p, SetOwner(s, o, w))
  {
    var t := SetOwner(s, o, w);
    forall u | 0 <= u < |t.owners| ensures OwnerOk(c, hash, p, t, u) {
      assert OwnerOk(c, hash, p, s, u);
      hide LogOk, AllAdmissible, WorkOk;
    }
    hide LogOk, OwnerOk;
  }

  lemma GateKeeps(c: Config, hash: Hash, p: nat, s: State, l: Label)
    requires Inv(c, hash, p, s) && Enabled(c, hash, p, s, l)
    requires l.Submit? || l.TakeJob? || l.Flush? || l.RequestSeal? || l.BeginClosed? || l.Stop?
    ensures Inv(c, hash, p, Apply(c, hash, p, s, l))
  {
    var o := l.o;
    assert OwnerOk(c, hash, p, s, o);
    var w := Apply(c, hash, p, s, l).owners[o];
    OwnerChangeKeeps(c, hash, p, s, o, w) by {
      hide Inv, LogOk, Admissible, PhaseOf;
    }
  }

  lemma NewOwnerKeeps(c: Config, hash: Hash, p: nat, s: State)
    requires Inv(c, hash, p, s)
    ensures Inv(c, hash, p, Apply(c, hash, p, s, NewOwner))
  {
    var t := Apply(c, hash, p, s, NewOwner);
    forall u | 0 <= u < |t.owners| ensures OwnerOk(c, hash, p, t, u) {
      if u < |s.owners| { assert OwnerOk(c, hash, p, s, u); }
      hide LogOk;
    }
    hide LogOk, OwnerOk;
  }

  /** Fencing: whatever the earlier owner was about to do no longer concerns the log. */
  lemma InitKeeps(c: Config, hash: Hash, p: nat, s: State, o: nat)
    requires Inv(c, hash, p, s) && Enabled(c, hash, p, s, Init(o))
    ensures Inv(c, hash, p, Apply(c, hash, p, s, Init(o)))
  {
    var t := Apply(c, hash, p, s, Init(o));
    forall u | 0 <= u < |t.owners| ensures OwnerOk(c, hash, p, t, u) {
      assert OwnerOk(c, hash, p, s, u);
      hide LogOk, AllAdmissible;
    }
    hide LogOk, OwnerOk;
  }

  lemma ProduceKeeps(c: Config, hash: Hash, p: nat, s: State, o: nat, k: nat, w: Owner)
    requires Inv(c, hash, p, s) && o < |s.owners| && s.owners[o].place.Producing? && s.current == Some(o) && s.txn.None?
    requires k <= |EntriesOf(s.owners[o].place.work)|
    requires w == s.owners[o].(place := Stopped)
          || (w == s.owners[o].(place := Ending(s.owners[o].place.work, s.next)) && k == |EntriesOf(s.owners[o].place.work)|)
    ensures Inv(c, hash, p, SetOwner(Begin(s, o, PlacedFrom(EntriesOf(s.owners[o].place.work)[..k], s.next)), o, w))
  {
    var work := s.owners[o].place.work;
    var t := SetOwner(Begin(s, o, PlacedFrom(EntriesOf(work)[..k], s.next)), o, w);
    assert OwnerOk(c, hash, p, s, o);
    WorkKeepsForm(c, hash, p, s.log, work, s.next, k);
    assert k == |EntriesOf(work)| ==> EntriesOf(work)[..k] == EntriesOf(work);
    assert LogOk(c, hash, p, s.log, t.next);
    hide LogOk, AllAdmissible, WorkOk, PhaseOf;
    forall u | 0 <= u < |t.owners| ensures OwnerOk(c, hash, p, t, u) {
      assert OwnerOk(c, hash, p, s, u);
    }
    hide OwnerOk;
  }

  /** Committing the open transaction, as far as the log and every owner but the transaction's are concerned. */
  lemma CommitTxnKeeps(c: Config, hash: Hash, p: nat, s: State)
    requires Inv(c, hash, p, s) && s.txn.Some?
    ensures var t := CommitTxn(s);
      && LogOk(c, hash, p, t.log, t.next) && TxnOk(c, hash, p, t)
      && (forall o | 0 <= o < |s.owners| && o != s.txn.value.owner :: OwnerOk(c, hash, p, t, o))
      && (forall l | l in s.acked :: l in t.log)
  {
    var t := CommitTxn(s);
    assert LogOk(c, hash, p, t.log, t.next);
    forall o | 0 <= o < |s.owners| && o != s.txn.value.owner ensures OwnerOk(c, hash, p, t, o) {
      assert OwnerOk(c, hash, p, s, o);
      if s.owners[o].sealed.Some? { SealedStays(s.log, s.txn.value.records, s.owners[o].sealed.value); }
      hide LogOk, AllAdmissible, WorkOk, PhaseOf;
    }
    hide LogOk, OwnerOk;
  }

  lemma ResolveCommitKeeps(c: Config, hash: Hash, p: nat, s: State)
    requires Inv(c, hash, p, s) && Enabled(c, hash, p, s, ResolveCommit)
    ensures Inv(c, hash, p, CommitTxn(s))
  {
    CommitTxnKeeps(c, hash, p, s);
    var o, t := s.txn.value.owner, CommitTxn(s);
    assert OwnerOk(c, hash, p, s, o) && s.owners[o].place == Stopped && LogOk(c, hash, p, s.log + s.txn.value.records, s.next);
    if s.owners[o].sealed.Some? { SealedStays(s.log, s.txn.value.records, s.owners[o].sealed.value); }
    assert OwnerOk(c, hash, p, t, o) by { hide Inv, LogOk, AllAdmissible, WorkOk, PhaseOf, TxnOk; }
    hide LogOk, OwnerOk, TxnOk;
  }

  lemma CommitKeeps(c: Config, hash: Hash, p: nat, s: State, o: nat)
    requires Inv(c, hash, p, s) && Enabled(c, hash, p, s, Commit(o))
    ensures Inv(c, hash, p, Apply(c, hash, p, s, Commit(o)))
  {
    CommitTxnKeeps(c, hash, p, s);
    var w, t := s.owners[o], Apply(c, hash, p, s, Commit(o));
    var records := PlacedFrom(EntriesOf(w.place.work), w.place.first);
    assert OwnerOk(c, hash, p, s, o) && s.txn.value.records == records && t.log == s.log + records;
    CommittedOwnerOk(c, hash, p, s, t, o);
    forall u | 0 <= u < |t.owners| ensures OwnerOk(c, hash, p, t, u) {
      if u != o {
        assert OwnerOk(c, hash, p, CommitTxn(s), u);
      }
      hide LogOk, AllAdmissible, WorkOk, PhaseOf;
    }
    hide LogOk, OwnerOk, PhaseOf;
  }

  lemma CommittedOwnerOk(c: Config, hash: Hash, p: nat, s: State, t: State, o: nat)
    requires c.Valid() && o < |s.owners| && o < |t.owners| && OwnerOk(c, hash, p, s, o) && s.owners[o].place.Ending?
    requires s.current == t.current == Some(o) && s.txn.Some? && t.txn.None?
    requires t.owners[o] == Committed(s.owners[o], s.owners[o].place.first) && PhaseOf(t.log).Some?
    requires t.log == s.log + PlacedFrom(EntriesOf(s.owners[o].place.work), s.owners[o].place.first)
    ensures OwnerOk(c, hash, p, t, o)
  {
    var w := s.owners[o];
    var records := PlacedFrom(EntriesOf(w.place.work), w.place.first);
    PhaseConcat(Fresh, s.log, records);
    match w.place.work {
      case WorkBoot =>
        assert records == [Logged(w.place.first, One(Boot))] && t.log[|t.log| - 1] == records[0];
      case WorkBatch(batch) =>
        forall i | 0 <= i < |records| ensures Admissible(c, hash, p, records[i].entry) { assert batch[i] in batch; }
        VotesKeepOpen(c, hash, p, records);
      case WorkClosed =>
        assert records == [Logged(w.place.first, One(Closed))] && records[1..] == [];
    }
    hide AllAdmissible, Admissible;
  }

  lemma CommitUnansweredKeeps(c: Config, hash: Hash, p: nat, s: State, o: nat)
    requires Inv(c, hash, p, s) && Enabled(c, hash, p, s, CommitUnanswered(o))
    ensures Inv(c, hash, p, Apply(c, hash, p, s, CommitUnanswered(o)))
  {
    var t := Apply(c, hash, p, s, CommitUnanswered(o));
    forall u | 0 <= u < |t.owners| ensures OwnerOk(c, hash, p, t, u) {
      UnansweredOwner(c, hash, p, s, o, u);
    }
    hide LogOk, OwnerOk;
  }

  lemma UnansweredOwner(c: Config, hash: Hash, p: nat, s: State, o: nat, u: nat)
    requires Inv(c, hash, p, s) && Enabled(c, hash, p, s, CommitUnanswered(o)) && u < |s.owners|
    ensures OwnerOk(c, hash, p, Apply(c, hash, p, s, CommitUnanswered(o)), u)
  {
    assert OwnerOk(c, hash, p, s, u);
    hide Inv, LogOk, AllAdmissible, WorkOk, PhaseOf;
  }

  lemma ResolveAbortKeeps(c: Config, hash: Hash, p: nat, s: State)
    requires Inv(c, hash, p, s) && s.txn.Some?
    ensures Inv(c, hash, p, s.(txn := None, next := s.next + 1))
  {
    var t := s.(txn := None, next := s.next + 1);
    assert LogOk(c, hash, p, t.log, t.next);
    hide LogOk, AllAdmissible, WorkOk, PhaseOf;
    forall u | 0 <= u < |t.owners| ensures OwnerOk(c, hash, p, t, u) {
      assert OwnerOk(c, hash, p, s, u);
    }
    hide OwnerOk;
  }

  /** Replay up to barrier b came through, and tells whether CLOSED is committed, or was when b was. */
  ghost predicate Recovers(turn: Turn, log: seq<Logged>, b: nat) {
    && turn.Done?
    && (turn.reader.closed.Some? ==> PhaseOf(log) == Some(Shut(turn.reader.closed.value)))
    && (turn.reader.closed.None? && log != [] && log[|log| - 1].offset == b ==> PhaseOf(log) == Some(Open))
  }

  lemma BarrierReplayOf(c: Config, hash: Hash, p: nat, log: seq<Logged>, next: nat, b: nat)
    requires c.Valid() && LogOk(c, hash, p, log, next) && Logged(b, One(Boot)) in log
    ensures Recovers(ReplayLog(c, hash, p, Some(b), START, ToRecs(c, log)), log, b)
  {
    var k :| 0 <= k < |log| && log[k] == Logged(b, One(Boot));
    ReplayReachesBarrier(c, hash, p, START, Fresh, log, k);
    var turn := ReplayLog(c, hash, p, Some(b), START, ToRecs(c, log));
    hide ReplayLog, ToRecs, AllValid, ReplayRecord;
    PhaseBehindBarrier(log, k, turn.reader);
  }

  lemma PhaseBehindBarrier(log: seq<Logged>, k: nat, r: Reader)
    requires k < |log| && PhaseOf(log).Some? && Ascending(log) && PhaseOf(log[..k + 1]).Some? && Tracks(r, PhaseOf(log[..k + 1]).value)
    ensures Recovers(Done(r), log, log[k].offset)
  {
    assert log == log[..k + 1] + log[k + 1..];
    PhaseConcat(Fresh, log[..k + 1], log[k + 1..]);
    BootIsNotFresh(log[..k + 1]);
    var ph := PhaseOf(log[..k + 1]).value;
    if ph.Shut? { OnlyBootsAfter(ph, log[k + 1..]); }
    if log[|log| - 1].offset == log[k].offset {
      assert k == |log| - 1 && log[..k + 1] == log;
    }
  }

  lemma BootIsNotFresh(log: seq<Logged>)
    requires log != [] && PhaseOf(log).Some?
    ensures PhaseOf(log) != Some(Fresh)
  {
    NeverFreshAgain(NextPhase(Fresh, log[0]).value, log[1..]);
  }

  lemma {:induction false} NeverFreshAgain(ph: Phase, log: seq<Logged>)
    requires ph != Fresh && PhaseAfter(ph, log).Some?
    ensures PhaseAfter(ph, log) != Some(Fresh)
    decreases |log|
  {
    if log != [] { NeverFreshAgain(NextPhase(ph, log[0]).value, log[1..]); }
  }

  lemma BarrierIsCommitted(c: Config, hash: Hash, p: nat, s: State, o: nat)
    requires Inv(c, hash, p, s) && o < |s.owners| && s.owners[o].place.Replaying?
    ensures LogOk(c, hash, p, s.log, s.next) && Logged(s.owners[o].place.barrier, One(Boot)) in s.log
    ensures s.current == Some(o) ==> s.log != [] && s.log[|s.log| - 1].offset == s.owners[o].place.barrier
  {
    assert OwnerOk(c, hash, p, s, o);
    hide LogOk, PhaseOf, AllAdmissible;
  }

  /** A new owner's replay up to its own BOOT never fails, and finds CLOSED exactly when it was committed before. */
  lemma BarrierReplay(c: Config, hash: Hash, p: nat, s: State, o: nat)
    requires Inv(c, hash, p, s) && o < |s.owners| && s.owners[o].place.Replaying?
    ensures var b := s.owners[o].place.barrier;
      && Recovers(ReplayLog(c, hash, p, Some(b), START, ToRecs(c, s.log)), s.log, b)
      && (s.current == Some(o) ==> s.log != [] && s.log[|s.log| - 1].offset == b)
  {
    BarrierIsCommitted(c, hash, p, s, o);
    hide Inv, ReplayLog, ToRecs, LogOk, PhaseOf;
    BarrierReplayOf(c, hash, p, s.log, s.next, s.owners[o].place.barrier);
  }

  lemma AdoptedOk(c: Config, hash: Hash, p: nat, s: State, o: nat, turn: Turn)
    requires c.Valid() && o < |s.owners| && OwnerOk(c, hash, p, s, o) && s.owners[o].place.Replaying?
    requires Recovers(turn, s.log, s.owners[o].place.barrier)
    ensures OwnerOk(c, hash, p, SetOwner(s, o, Adopt(s.owners[o], turn)), o)
  {
    hide AllAdmissible, PhaseOf;
  }

  lemma FinishReplayKeeps(c: Config, hash: Hash, p: nat, s: State, o: nat)
    requires Inv(c, hash, p, s) && o < |s.owners| && s.owners[o].place.Replaying?
    ensures var turn := ReplayLog(c, hash, p, Some(s.owners[o].place.barrier), START, ToRecs(c, s.log));
      Inv(c, hash, p, SetOwner(s, o, Adopt(s.owners[o], turn)))
  {
    BarrierReplay(c, hash, p, s, o);
    var turn := ReplayLog(c, hash, p, Some(s.owners[o].place.barrier), START, ToRecs(c, s.log));
    assert OwnerOk(c, hash, p, s, o) && (s.txn.Some? ==> s.txn.value.owner != o);
    hide ReplayLog, ToRecs, OwnerOk, LogOk, PhaseOf, TxnOk;
    AdoptedOk(c, hash, p, s, o, turn);
    OwnerChangeKeeps(c, hash, p, s, o, Adopt(s.owners[o], turn));
  }

  lemma StepKeeps(c: Config, hash: Hash, p: nat, s: State, l: Label)
    requires Inv(c, hash, p, s) && Enabled(c, hash, p, s, l)
    ensures Inv(c, hash, p, Apply(c, hash, p, s, l))
  {
    match l
    case NewOwner => NewOwnerKeeps(c, hash, p, s);
    case Init(o) => InitKeeps(c, hash, p, s, o);
    case Produce(o) =>
      var es := EntriesOf(s.owners[o].place.work);
      assert es[..|es|] == es;
      ProduceKeeps(c, hash, p, s, o, |es|, s.owners[o].(place := Ending(s.owners[o].place.work, s.next)));
    case ProducePartly(o, k) => ProduceKeeps(c, hash, p, s, o, k, s.owners[o].(place := Stopped));
    case Commit(o) => CommitKeeps(c, hash, p, s, o);
    case CommitUnanswered(o) => CommitUnansweredKeeps(c, hash, p, s, o);
    case ResolveCommit => ResolveCommitKeeps(c, hash, p, s);
    case ResolveAbort => ResolveAbortKeeps(c, hash, p, s);
    case FinishReplay(o) => FinishReplayKeeps(c, hash, p, s, o);
    case _ => GateKeeps(c, hash, p, s, l);
  }
}
