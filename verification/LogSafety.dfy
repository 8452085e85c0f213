/** What every run of a journal partition's owners guarantees. */
module LogSafety {
  import opened Wrappers
  import opened LogCodec
  import opened LogReplay
  import opened LogProtocol

  lemma {:induction false} RunKeeps(c: Config, hash: Hash, p: nat, run: seq<State>, i: nat)
    requires IsRun(c, hash, p, run) && i < |run|
    ensures Inv(c, hash, p, run[i])
    decreases i
  {
    hide Inv, Apply, Enabled;
    if i == 0 {
      InitialInv(c, hash, p);
    } else {
      RunKeeps(c, hash, p, run, i - 1);
      assert Step(c, hash, p, run[i - 1], run[i - 1 + 1]);
      var l :| Enabled(c, hash, p, run[i - 1], l) && run[i] == Apply(c, hash, p, run[i - 1], l);
      StepKeeps(c, hash, p, run[i - 1], l);
    }
  }

  lemma InitialInv(c: Config, hash: Hash, p: nat)
    requires c.Valid()
    ensures Inv(c, hash, p, INITIAL)
  {
  }

  lemma StepExtends(c: Config, hash: Hash, p: nat, s: State, l: Label)
    requires c.Valid() && Enabled(c, hash, p, s, l)
    ensures s.log <= Apply(c, hash, p, s, l).log && s.acked <= Apply(c, hash, p, s, l).acked
  {
    hide ReplayLog, Admissible;
  }

  /** Nothing committed or acknowledged is ever taken back. */
  lemma {:induction false} RunExtends(c: Config, hash: Hash, p: nat, run: seq<State>, i: nat, j: nat)
    requires IsRun(c, hash, p, run) && i <= j < |run|
    ensures run[i].log <= run[j].log && run[i].acked <= run[j].acked
    decreases j
  {
    hide Apply, Enabled;
    if i < j {
      RunExtends(c, hash, p, run, i, j - 1);
      assert Step(c, hash, p, run[j - 1], run[j - 1 + 1]);
      var l :| Enabled(c, hash, p, run[j - 1], l) && run[j] == Apply(c, hash, p, run[j - 1], l);
      StepExtends(c, hash, p, run[j - 1], l);
    }
  }

  /**
   * The committed log always has the form BOOT (BOOT | vote | frame)* [CLOSED BOOT*]: CLOSED is
   * committed at most once, and behind it there is never a vote, whichever owners overlap.
   */
  lemma LogHasForm(c: Config, hash: Hash, p: nat, run: seq<State>, i: nat)
    requires IsRun(c, hash, p, run) && i < |run|
    ensures var log := run[i].log;
      && PhaseOf(log).Some?
      && (log != [] ==> log[0].entry == One(Boot))
      && (forall a, b | 0 <= a < b < |log| && log[a].entry == One(Closed) :: log[b].entry == One(Boot))
      && (forall a, b | 0 <= a < b < |log| :: log[a].offset < log[b].offset)
  {
    RunKeeps(c, hash, p, run, i);
    var log := run[i].log;
    forall a | 0 <= a < |log| && log[a].entry == One(Closed)
      ensures forall b | a < b < |log| :: log[b].entry == One(Boot)
    {
      ClosedIsLast(log, a);
    }
    hide IsRun;
  }

  lemma ClosedIsLast(log: seq<Logged>, a: nat)
    requires PhaseOf(log).Some? && a < |log| && log[a].entry == One(Closed)
    ensures forall b | a < b < |log| :: log[b].entry == One(Boot)
    ensures PhaseOf(log) == Some(Shut(log[a].offset))
  {
    assert log == log[..a] + log[a..];
    PhaseConcat(Fresh, log[..a], log[a..]);
    var ph := PhaseAfter(Fresh, log[..a]).value;
    assert NextPhase(ph, log[a..][0]).Some? && NextPhase(ph, log[a..][0]).value == Shut(log[a].offset);
    OnlyBootsAfter(Shut(log[a].offset), log[a..][1..]);
    forall b | a < b < |log| ensures log[b].entry == One(Boot) {
      assert log[b] == log[a..][1..][b - a - 1];
    }
  }

  /**
   * Replay, the offline audit, never rejects the partition: it finishes at CLOSED once one is committed,
   * visiting every vote before it at its own position, and waits while none is.
   */
  lemma ReplayNeverRejects(c: Config, hash: Hash, p: nat, run: seq<State>, i: nat)
    requires IsRun(c, hash, p, run) && i < |run|
    ensures var log := run[i].log;
      var turn := ReplayLog(c, hash, p, None, START, ToRecs(c, log));
      && (forall k | 0 <= k < |log| && log[k].entry == One(Closed) ::
            turn == Done(Reader(true, Some(log[k].offset), VotesOf(log))))
      && ((forall k | 0 <= k < |log| :: log[k].entry != One(Closed)) ==> turn.More? && turn.reader.visits == VotesOf(log))
  {
    RunKeeps(c, hash, p, run, i);
    var log := run[i].log;
    ReplayAcceptsForm(c, hash, p, START, Fresh, log);
    assert [] + VotesOf(log) == VotesOf(log);
    hide IsRun, Inv, ReplayLog, ToRecs, VotesOf;
    forall k | 0 <= k < |log| && log[k].entry == One(Closed) ensures PhaseOf(log) == Some(Shut(log[k].offset)) {
      ClosedIsLast(log, k);
    }
    if forall a | 0 <= a < |log| :: log[a].entry != One(Closed) {
      OpenWithoutClosed(Fresh, log);
    }
  }

  lemma {:induction false} OpenWithoutClosed(ph: Phase, log: seq<Logged>)
    requires !ph.Shut? && PhaseAfter(ph, log).Some? && forall a | 0 <= a < |log| :: log[a].entry != One(Closed)
    ensures !PhaseAfter(ph, log).value.Shut?
    decreases |log|
  {
    if log != [] { OpenWithoutClosed(NextPhase(ph, log[0]).value, log[1..]); }
  }

  /** Recovery never rejects it either: New's replay up to its own BOOT always succeeds. */
  lemma RecoveryNeverRejects(c: Config, hash: Hash, p: nat, run: seq<State>, i: nat, o: nat)
    requires IsRun(c, hash, p, run) && i < |run| && o < |run[i].owners| && run[i].owners[o].place.Replaying?
    ensures ReplayLog(c, hash, p, Some(run[i].owners[o].place.barrier), START, ToRecs(c, run[i].log)).Done?
  {
    RunKeeps(c, hash, p, run, i);
    BarrierReplay(c, hash, p, run[i], o);
  }

  /** The configuration check of a later New: the first committed record is a BOOT without a key. */
  lemma FirstRecordIsBoot(c: Config, hash: Hash, p: nat, run: seq<State>, i: nat)
    requires IsRun(c, hash, p, run) && i < |run| && run[i].log != []
    ensures DecodeRecord(c, ToRecs(c, run[i].log)[0].value) == Some(Boot) && ToRecs(c, run[i].log)[0].key == []
  {
    LogHasForm(c, hash, p, run, i);
    RecordRoundTrip(c, Boot);
  }

  lemma {:induction false} VotesOfContains(log: seq<Logged>, k: nat, i: nat)
    requires k < |log| && i < |VotesIn(log[k].entry)|
    requires forall a | 0 <= a < k :: log[a].entry != One(Closed)
    ensures Visit(log[k].offset, i, VotesIn(log[k].entry)[i]) in VotesOf(log)
    decreases k
  {
    if k == 0 {
      assert Visit(log[0].offset, i, VotesIn(log[0].entry)[i]) == VisitsOf(log[0].offset, VotesIn(log[0].entry))[i];
    } else {
      VotesOfContains(log[1..], k - 1, i);
    }
  }

  /**
   * Acknowledged attempts are committed: a receipt names an offset where exactly that vote or frame is,
   * at every later moment, and replay visits each of its votes at (offset, index).
   */
  lemma AcknowledgedIsCommitted(c: Config, hash: Hash, p: nat, run: seq<State>, i: nat, j: nat, l: Logged)
    requires IsRun(c, hash, p, run) && i <= j < |run| && l in run[i].acked
    ensures l in run[j].log
    ensures forall n: nat | n < |VotesIn(l.entry)| :: Visit(l.offset, n, VotesIn(l.entry)[n]) in VotesOf(run[j].log)
  {
    RunExtends(c, hash, p, run, i, j);
    RunKeeps(c, hash, p, run, j);
    var log := run[j].log;
    assert l in run[j].acked;
    var k :| 0 <= k < |log| && log[k] == l;
    hide Inv, IsRun, PhaseOf;
    forall n: nat | n < |VotesIn(l.entry)| ensures Visit(l.offset, n, VotesIn(l.entry)[n]) in VotesOf(log) {
      LogHasForm(c, hash, p, run, j);
      assert forall a | 0 <= a < k :: log[a].entry != One(Closed);
      VotesOfContains(log, k, n);
    }
  }

  /** What Seal returns for the partition is where Replay finds CLOSED, at every later moment. */
  lemma SealAgreesWithReplay(c: Config, hash: Hash, p: nat, run: seq<State>, i: nat, j: nat, o: nat)
    requires IsRun(c, hash, p, run) && i <= j < |run| && o < |run[i].owners| && run[i].owners[o].sealed.Some?
    ensures var end := run[i].owners[o].sealed.value;
      var turn := ReplayLog(c, hash, p, None, START, ToRecs(c, run[j].log));
      turn == Done(Reader(true, Some(end), VotesOf(run[j].log)))
    ensures VotesOf(run[j].log) == VotesOf(run[i].log)
  {
    RunKeeps(c, hash, p, run, i);
    RunKeeps(c, hash, p, run, j);
    RunExtends(c, hash, p, run, i, j);
    assert OwnerOk(c, hash, p, run[i], o);
    var end := run[i].owners[o].sealed.value;
    var more := run[j].log[|run[i].log|..];
    assert run[j].log == run[i].log + more;
    SealedStays(run[i].log, more, end);
    ReplayAcceptsForm(c, hash, p, START, Fresh, run[j].log);
    assert [] + VotesOf(run[j].log) == VotesOf(run[j].log);
    hide IsRun, Inv, ReplayLog, ToRecs, OwnerOk;
    PhaseConcat(Fresh, run[i].log, more);
    VotesStopAtClosed(Fresh, run[i].log, more, end);
  }

  lemma {:induction false} VotesStopAtClosed(ph: Phase, log: seq<Logged>, more: seq<Logged>, end: nat)
    requires !ph.Shut? && PhaseAfter(ph, log) == Some(Shut(end))
    ensures VotesOf(log + more) == VotesOf(log)
    decreases |log|
  {
    assert log != [] && (log + more)[0] == log[0] && (log + more)[1..] == log[1..] + more;
    if log[0].entry != One(Closed) {
      VotesStopAtClosed(NextPhase(ph, log[0]).value, log[1..], more, end);
    }
  }
}
