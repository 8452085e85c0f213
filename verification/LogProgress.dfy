/**
 * What owners of a Kafka partition can do (internal/votelog/store.go): from every reachable state a new owner can
 * take over, commit and receipt any vote or frame, and seal; and a commit whose reply was lost may still count.
 */
module LogProgress {
  import opened Wrappers
  import opened LogCodec
  import opened LogReplay
  import opened LogProtocol
  import LogSafety

  /** These steps lead from s to t. */
  ghost predicate Leads(c: Config, hash: Hash, p: nat, s: State, ls: seq<Label>, t: State)
    requires c.Valid()
    decreases |ls|
  {
    if ls == [] then s == t
    else Enabled(c, hash, p, s, ls[0]) && Leads(c, hash, p, Apply(c, hash, p, s, ls[0]), ls[1..], t)
  }

  lemma LeadsOne(c: Config, hash: Hash, p: nat, s: State, l: Label)
    requires c.Valid() && Enabled(c, hash, p, s, l)
    ensures Leads(c, hash, p, s, [l], Apply(c, hash, p, s, l))
  {
    hide Enabled, Apply;
    assert [l][1..] == [];
  }

  lemma {:induction false} LeadsOn(c: Config, hash: Hash, p: nat, s: State, ls: seq<Label>, t: State, more: seq<Label>, u: State)
    requires c.Valid() && Leads(c, hash, p, s, ls, t) && Leads(c, hash, p, t, more, u)
    ensures Leads(c, hash, p, s, ls + more, u)
    decreases |ls|
  {
    hide Enabled, Apply;
    if ls == [] {
      assert ls + more == more;
    } else {
      assert (ls + more)[0] == ls[0] && (ls + more)[1..] == ls[1..] + more;
      LeadsOn(c, hash, p, Apply(c, hash, p, s, ls[0]), ls[1..], t, more, u);
    }
  }

  lemma {:induction false} LeadsKeeps(c: Config, hash: Hash, p: nat, s: State, ls: seq<Label>, t: State)
    requires c.Valid() && Inv(c, hash, p, s) && Leads(c, hash, p, s, ls, t)
    ensures Inv(c, hash, p, t)
    decreases |ls|
  {
    hide Inv, Enabled, Apply;
    if ls != [] {
      StepKeeps(c, hash, p, s, ls[0]);
      LeadsKeeps(c, hash, p, Apply(c, hash, p, s, ls[0]), ls[1..], t);
    }
  }

  /** The current owner stands so, with no transaction open. */
  ghost predicate Stands(s: State, o: nat, w: Owner) {
    o < |s.owners| && s.owners[o] == w && s.current == Some(o) && s.txn.None?
  }

  /** From s to t only owner o has changed, to this. */
  ghost predicate Moved(s: State, t: State, o: nat, w: Owner) {
    && Stands(t, o, w) && |t.owners| == |s.owners| && t.log == s.log && t.acked == s.acked && t.next == s.next
  }

  /** A transaction: what the owner was producing is committed, at the next offsets. */
  lemma CanCommit(c: Config, hash: Hash, p: nat, s: State, o: nat, w: Owner) returns (ls: seq<Label>, t: State)
    requires c.Valid() && Stands(s, o, w) && w.place.Producing?
    ensures Leads(c, hash, p, s, ls, t)
    ensures var records := PlacedFrom(EntriesOf(w.place.work), s.next);
      && Stands(t, o, Committed(w.(place := Ending(w.place.work, s.next)), s.next)) && |t.owners| == |s.owners|
      && t.log == s.log + records && t.acked == (if w.place.work.WorkBatch? then s.acked + records else s.acked)
      && t.next == s.next + |records| + 1
  {
    hide ReplayLog, Admissible, Leads;
    LeadsOne(c, hash, p, s, Produce(o));
    var u := Apply(c, hash, p, s, Produce(o));
    LeadsOne(c, hash, p, u, Commit(o));
    t := Apply(c, hash, p, u, Commit(o));
    LeadsOn(c, hash, p, s, [Produce(o)], u, [Commit(o)], t);
    ls := [Produce(o)] + [Commit(o)];
  }

  /** One owner's own step. */
  lemma CanMove(c: Config, hash: Hash, p: nat, s: State, o: nat, w: Owner, l: Label) returns (t: State)
    requires c.Valid() && Stands(s, o, w)
    requires match l
             case Submit(u, e) => u == o && Accepts(w) && Admissible(c, hash, p, e)
             case TakeJob(u) => u == o && w.place == Serving && w.jobs != []
             case Flush(u) => u == o && w.place == Serving && w.batch != []
             case RequestSeal(u) => u == o && Accepts(w)
             case BeginClosed(u) => u == o && w.place == Serving && w.closing && w.sealed.None? && w.jobs == [] && w.batch == []
             case _ => false
    ensures Leads(c, hash, p, s, [l], t)
    ensures Moved(s, t, o, match l
                           case Submit(_, e) => w.(jobs := w.jobs + [e])
                           case TakeJob(_) => w.(jobs := w.jobs[1..], batch := w.batch + [w.jobs[0]])
                           case Flush(_) => w.(place := Producing(WorkBatch(w.batch)))
                           case RequestSeal(_) => w.(closing := true)
                           case _ => w.(place := Producing(WorkClosed)))
  {
    hide ReplayLog, Admissible, Leads, Accepts;
    LeadsOne(c, hash, p, s, l);
    t := Apply(c, hash, p, s, l);
  }

  const SERVES := Owner(Serving, false, None, [], [])

  /** An owner that serves can commit any vote or frame and give its receipt. */
  lemma CanDeliver(c: Config, hash: Hash, p: nat, s: State, o: nat, e: Entry) returns (ls: seq<Label>, t: State)
    requires c.Valid() && Stands(s, o, SERVES) && Admissible(c, hash, p, e)
    ensures Leads(c, hash, p, s, ls, t) && Stands(t, o, SERVES)
    ensures t.log == s.log + [Logged(s.next, e)] && t.acked == s.acked + [Logged(s.next, e)]
  {
    hide Leads, Admissible;
    var w := SERVES.(jobs := [e]);
    assert [] + [e] == [e] && [e][1..] == [];
    var a := CanMove(c, hash, p, s, o, SERVES, Submit(o, e));
    var b := CanMove(c, hash, p, a, o, w, TakeJob(o));
    LeadsOn(c, hash, p, s, [Submit(o, e)], a, [TakeJob(o)], b);
    var d := CanMove(c, hash, p, b, o, SERVES.(batch := [e]), Flush(o));
    LeadsOn(c, hash, p, s, [Submit(o, e)] + [TakeJob(o)], b, [Flush(o)], d);
    var more;
    more, t := CanCommit(c, hash, p, d, o, SERVES.(batch := [e], place := Producing(WorkBatch([e]))));
    LeadsOn(c, hash, p, s, [Submit(o, e)] + [TakeJob(o)] + [Flush(o)], d, more, t);
    ls := [Submit(o, e)] + [TakeJob(o)] + [Flush(o)] + more;
    assert PlacedFrom([e], s.next) == [Logged(s.next, e)];
  }

  /** And it can seal the partition at the next offset. */
  lemma CanSeal(c: Config, hash: Hash, p: nat, s: State, o: nat) returns (ls: seq<Label>, t: State)
    requires c.Valid() && Stands(s, o, SERVES)
    ensures Leads(c, hash, p, s, ls, t) && Stands(t, o, Owner(Stopped, true, Some(s.next), [], []))
    ensures t.log == s.log + [Logged(s.next, One(Closed))] && t.acked == s.acked
  {
    hide Leads;
    var a := CanMove(c, hash, p, s, o, SERVES, RequestSeal(o));
    var b := CanMove(c, hash, p, a, o, SERVES.(closing := true), BeginClosed(o));
    LeadsOn(c, hash, p, s, [RequestSeal(o)], a, [BeginClosed(o)], b);
    var more;
    more, t := CanCommit(c, hash, p, b, o, SERVES.(closing := true, place := Producing(WorkClosed)));
    LeadsOn(c, hash, p, s, [RequestSeal(o)] + [BeginClosed(o)], b, more, t);
    ls := [RequestSeal(o)] + [BeginClosed(o)] + more;
    assert PlacedFrom([One(Closed)], s.next) == [Logged(s.next, One(Closed))];
  }

  /** A new owner starts, when the broker has done with the transaction before, and becomes the current one. */
  lemma CanBegin(c: Config, hash: Hash, p: nat, s: State) returns (ls: seq<Label>, t: State)
    requires c.Valid()
    ensures Leads(c, hash, p, s, ls, t) && t.log == s.log
    ensures Stands(t, |s.owners|, Owner(Producing(WorkBoot), false, None, [], []))
  {
    hide ReplayLog, Admissible, Leads;
    var o := |s.owners|;
    var u := s;
    ls := [];
    assert Leads(c, hash, p, s, [], s) by { LeadsNowhere(c, hash, p, s); }
    if s.txn.Some? {
      LeadsOne(c, hash, p, s, ResolveAbort);
      u, ls := Apply(c, hash, p, s, ResolveAbort), [ResolveAbort];
    }
    LeadsOne(c, hash, p, u, NewOwner);
    var v := Apply(c, hash, p, u, NewOwner);
    LeadsOn(c, hash, p, s, ls, u, [NewOwner], v);
    LeadsOne(c, hash, p, v, Init(o));
    t := Apply(c, hash, p, v, Init(o));
    LeadsOn(c, hash, p, s, ls + [NewOwner], v, [Init(o)], t);
    ls := ls + [NewOwner] + [Init(o)];
  }

  lemma LeadsNowhere(c: Config, hash: Hash, p: nat, s: State)
    requires c.Valid()
    ensures Leads(c, hash, p, s, [], s)
  {
  }

  /**
   * From every reachable state a new owner can take over: it commits its BOOT, replays up to it, and then serves,
   * or, exactly if CLOSED is committed, is sealed where that is.
   */
  lemma CanTakeOver(c: Config, hash: Hash, p: nat, s: State) returns (ls: seq<Label>, t: State, o: nat)
    requires Inv(c, hash, p, s)
    ensures c.Valid() && Leads(c, hash, p, s, ls, t) && Inv(c, hash, p, t) && o == |s.owners|
    ensures PhaseOf(s.log).Some? && s.log <= t.log
    ensures Stands(t, o, match PhaseOf(s.log).value
                         case Shut(end) => Owner(Stopped, true, Some(end), [], [])
                         case _ => SERVES)
  {
    assert c.Valid() && PhaseOf(s.log).Some?;
    hide Inv, Leads, PhaseOf, Enabled, Apply, ReplayLog, ToRecs;
    o := |s.owners|;
    var u, v, more;
    ls, u := CanBegin(c, hash, p, s);
    more, v := CanCommit(c, hash, p, u, o, Owner(Producing(WorkBoot), false, None, [], []));
    LeadsOn(c, hash, p, s, ls, u, more, v);
    ls := ls + more;
    LeadsKeeps(c, hash, p, s, ls, v);
    Adopts(c, hash, p, v, o, s.log);
    LeadsOne(c, hash, p, v, FinishReplay(o));
    t := Apply(c, hash, p, v, FinishReplay(o));
    LeadsOn(c, hash, p, s, ls, v, [FinishReplay(o)], t);
    ls := ls + [FinishReplay(o)];
    LeadsKeeps(c, hash, p, s, ls, t);
  }

  /** Replay up to the owner's own BOOT tells whether CLOSED was committed before. */
  lemma Adopts(c: Config, hash: Hash, p: nat, s: State, o: nat, before: seq<Logged>)
    requires c.Valid() && Inv(c, hash, p, s) && o < |s.owners| && s.owners[o].place.Replaying?
    requires Stands(s, o, Owner(s.owners[o].place, false, None, [], [])) && PhaseOf(before).Some?
    requires s.log == before + [Logged(s.owners[o].place.barrier, One(Boot))]
    ensures Enabled(c, hash, p, s, FinishReplay(o))
    ensures var t := Apply(c, hash, p, s, FinishReplay(o));
      && t.log == s.log
      && Stands(t, o, match PhaseOf(before).value
                      case Shut(end) => Owner(Stopped, true, Some(end), [], [])
                      case _ => SERVES)
  {
    BarrierReplay(c, hash, p, s, o);
    var b := s.owners[o].place.barrier;
    PhaseConcat(Fresh, before, [Logged(b, One(Boot))]);
    BootKeepsPhase(PhaseOf(before).value, b);
    hide Inv, ReplayLog, ToRecs, PhaseAfter;
    AdoptsTurn(c, hash, p, s, o, ReplayLog(c, hash, p, Some(b), START, ToRecs(c, s.log)));
    assert PhaseOf(s.log) == Some(if PhaseOf(before).value.Shut? then PhaseOf(before).value else Open);
    hide PhaseOf, Enabled, Apply, Stands;
  }

  lemma AdoptsTurn(c: Config, hash: Hash, p: nat, s: State, o: nat, turn: Turn)
    requires c.Valid() && o < |s.owners| && s.owners[o].place.Replaying? && turn.Done?
    requires Stands(s, o, Owner(s.owners[o].place, false, None, [], []))
    requires turn == ReplayLog(c, hash, p, Some(s.owners[o].place.barrier), START, ToRecs(c, s.log))
    ensures Enabled(c, hash, p, s, FinishReplay(o))
    ensures var t := Apply(c, hash, p, s, FinishReplay(o));
      && t.log == s.log
      && Stands(t, o, match turn.reader.closed
                      case Some(end) => Owner(Stopped, true, Some(end), [], [])
                      case None => SERVES)
  {
    hide ReplayLog, ToRecs;
  }

  lemma BootKeepsPhase(ph: Phase, b: nat)
    ensures PhaseAfter(ph, [Logged(b, One(Boot))]) == Some(if ph.Shut? then ph else Open)
  {
    assert [Logged(b, One(Boot))][1..] == [];
  }

  /** A commit request whose reply is lost stops its owner, and yet its records may be committed. */
  lemma LostReplyCanCommit(c: Config, hash: Hash, p: nat, s: State, o: nat) returns (t: State)
    requires c.Valid() && o < |s.owners| && s.owners[o].place.Ending? && s.txn.Some? && s.txn.value.owner == o
    ensures Leads(c, hash, p, s, [CommitUnanswered(o), ResolveCommit], t)
    ensures t.log == s.log + s.txn.value.records && t.acked == s.acked && t.owners[..] == s.owners[o := s.owners[o].(place := Stopped)]
  {
    hide ReplayLog, Admissible, Leads;
    LeadsOne(c, hash, p, s, CommitUnanswered(o));
    var u := Apply(c, hash, p, s, CommitUnanswered(o));
    LeadsOne(c, hash, p, u, ResolveCommit);
    t := Apply(c, hash, p, u, ResolveCommit);
    LeadsOn(c, hash, p, s, [CommitUnanswered(o)], u, [ResolveCommit], t);
    assert [CommitUnanswered(o)] + [ResolveCommit] == [CommitUnanswered(o), ResolveCommit];
  }

  /**
   * So, at any moment of any run in which CLOSED is not committed, any vote or frame of the partition can be committed
   * and receipted by a new owner, which then seals.
   */
  lemma CanReceipt(c: Config, hash: Hash, p: nat, run: seq<State>, i: nat, e: Entry) returns (ls: seq<Label>, t: State, o: nat, n: nat)
    requires IsRun(c, hash, p, run) && i < |run| && c.Valid() && Admissible(c, hash, p, e)
    requires forall x | x in run[i].log :: x.entry != One(Closed)
    ensures Leads(c, hash, p, run[i], ls, t)
    ensures Logged(n, e) in t.acked && o < |t.owners| && t.owners[o].sealed.Some? && run[i].log <= t.log
  {
    LogSafety.RunKeeps(c, hash, p, run, i);
    var s := run[i];
    assert PhaseOf(s.log).Some?;
    LogSafety.OpenWithoutClosed(Fresh, s.log);
    hide IsRun, Inv, Leads, Admissible, PhaseOf, Enabled, Apply;
    var u, v, more;
    ls, u, o := CanTakeOver(c, hash, p, s);
    more, v := CanDeliver(c, hash, p, u, o, e);
    LeadsOn(c, hash, p, s, ls, u, more, v);
    ls, n := ls + more, u.next;
    more, t := CanSeal(c, hash, p, v, o);
    LeadsOn(c, hash, p, s, ls, v, more, t);
    ls := ls + more;
  }
}
