/** Reading one partition of the journal back: replay's state machine (internal/votelog/audit.go). */
module LogReplay {
  import opened Bytes
  import opened Wrappers
  import opened LogCodec

  /** The first eight bytes of SHA-256 over poll ID and token: any function of the token will do. */
  type Hash = Token -> u64

  function Partition(c: Config, hash: Hash, token: Token): (p: nat)
    requires c.Valid()
    ensures p < c.partitions
  {
    hash(token) % c.partitions
  }

  /** A committed Kafka record. */
  datatype Rec = Rec(offset: nat, key: seq<u8>, value: seq<u8>)

  /** What a record's value can hold: a version-1 item or a frame. */
  datatype Entry = One(item: Item) | Many(frame: Frame)

  /** A committed entry at its offset. */
  datatype Logged = Logged(offset: nat, entry: Entry)

  function VotesIn(e: Entry): seq<Vote> {
    match e
    case One(Ballot(v)) => [v]
    case One(_) => []
    case Many(f) => f
  }

  predicate ValidEntry(c: Config, hash: Hash, p: nat, e: Entry)
    requires c.Valid()
  {
    forall v | v in VotesIn(e) :: ValidVote(c, v) && Partition(c, hash, v.token) == p
  }

  function KeyOf(e: Entry): seq<u8> {
    match e
    case One(Ballot(v)) => v.token
    case _ => []
  }

  function ToRec(c: Config, l: Logged): Rec
    requires c.Valid()
  {
    Rec(l.offset, KeyOf(l.entry),
        match l.entry case One(item) => EncodeRecord(c, item) case Many(f) => EncodeFrame(c, f))
  }

  function ToRecs(c: Config, log: seq<Logged>): (rs: seq<Rec>)
    requires c.Valid()
    ensures |rs| == |log|
  {
    seq(|log|, i requires 0 <= i < |log| => ToRec(c, log[i]))
  }

  datatype Visit = Visit(offset: nat, index: nat, vote: Vote)

  function VisitsOf(offset: nat, votes: seq<Vote>): seq<Visit> {
    seq(|votes|, i requires 0 <= i < |votes| => Visit(offset, i, votes[i]))
  }

  /** replay's variables for one partition. */
  datatype Reader = Reader(seenBoot: bool, closed: Option<nat>, visits: seq<Visit>)

  /** After one record: the scan fails, goes on, or is done with this partition. */
  datatype Turn = Reject | More(reader: Reader) | Done(reader: Reader)

  function ReplayFrame(c: Config, hash: Hash, p: nat, barrier: Option<nat>, s: Reader, r: Rec): Turn
    requires c.Valid()
  {
    if !s.seenBoot || s.closed.Some? || r.key != [] then Reject
    else if barrier.Some? && r.offset >= barrier.value then Reject
    else match DecodeFrame(c, r.value)
      case None => Reject
      case Some(f) =>
        if exists v | v in f :: Partition(c, hash, v.token) != p then Reject
        else More(s.(visits := s.visits + VisitsOf(r.offset, f)))
  }

  function ReplayItem(c: Config, hash: Hash, p: nat, s: Reader, r: Rec, item: Item): Option<Reader>
    requires c.Valid()
  {
    match item
    case Boot => if r.key != [] then None else Some(s.(seenBoot := true))
    case Ballot(v) =>
      if s.closed.Some? || Partition(c, hash, v.token) != p || r.key != v.token then None
      else Some(s.(visits := s.visits + VisitsOf(r.offset, [v])))
    case Closed => if r.key != [] || s.closed.Some? then None else Some(s.(closed := Some(r.offset)))
  }

  function ReplayRecord(c: Config, hash: Hash, p: nat, barrier: Option<nat>, s: Reader, r: Rec): Turn
    requires c.Valid()
  {
    if |r.value| > 0 && r.value[0] == FRAME_VERSION then ReplayFrame(c, hash, p, barrier, s, r)
    else match DecodeRecord(c, r.value)
      case None => Reject
      case Some(item) =>
        if !s.seenBoot && item != Boot then Reject
        else match ReplayItem(c, hash, p, s, r, item)
          case None => Reject
          case Some(t) =>
            if barrier.None? then (if item == Closed then Done(t) else More(t))
            else if r.offset > barrier.value then Reject
            else if r.offset == barrier.value then (if item == Boot then Done(t) else Reject)
            else More(t)
  }

  /** Reading committed records in order; More when they run out, where the scan keeps polling. */
  function ReplayLog(c: Config, hash: Hash, p: nat, barrier: Option<nat>, s: Reader, rs: seq<Rec>): Turn
    requires c.Valid()
    decreases |rs|
  {
    if rs == [] then More(s)
    else match ReplayRecord(c, hash, p, barrier, s, rs[0])
      case Reject => Reject
      case Done(t) => Done(t)
      case More(t) => ReplayLog(c, hash, p, barrier, t, rs[1..])
  }

  const START := Reader(false, None, [])

  // ------------------------------------------------------ the journal form

  /** BOOT (BOOT | vote | frame)* [CLOSED BOOT*], as an automaton. */
  datatype Phase = Fresh | Open | Shut(end: nat)

  function NextPhase(ph: Phase, l: Logged): Option<Phase> {
    match (ph, l.entry)
    case (Fresh, One(Boot)) => Some(Open)
    case (Open, One(Closed)) => Some(Shut(l.offset))
    case (Open, _) => Some(Open)
    case (Shut(_), One(Boot)) => Some(ph)
    case _ => None
  }

  function PhaseAfter(ph: Phase, log: seq<Logged>): Option<Phase>
    decreases |log|
  {
    if log == [] then Some(ph)
    else match NextPhase(ph, log[0])
      case None => None
      case Some(q) => PhaseAfter(q, log[1..])
  }

  /** The votes of the log up to its CLOSED, in order, each at its position. */
  function VotesOf(log: seq<Logged>): seq<Visit> {
    if log == [] || log[0].entry == One(Closed) then []
    else VisitsOf(log[0].offset, VotesIn(log[0].entry)) + VotesOf(log[1..])
  }

  lemma {:induction false} PhaseConcat(ph: Phase, a: seq<Logged>, b: seq<Logged>)
    decreases |a|
    ensures PhaseAfter(ph, a + b) == match PhaseAfter(ph, a) case None => None case Some(q) => PhaseAfter(q, b)
  {
    if a == [] {
      assert a + b == b;
    } else {
      assert (a + b)[0] == a[0] && (a + b)[1..] == a[1..] + b;
      if NextPhase(ph, a[0]).Some? { PhaseConcat(NextPhase(ph, a[0]).value, a[1..], b); }
    }
  }

  ghost predicate AllValid(c: Config, hash: Hash, p: nat, log: seq<Logged>)
    requires c.Valid()
  {
    forall i | 0 <= i < |log| :: ValidEntry(c, hash, p, log[i].entry)
  }

  /** Agreement between replay's variables and the automaton. */
  predicate Tracks(s: Reader, ph: Phase) {
    && (s.seenBoot <==> ph != Fresh)
    && s.closed == if ph.Shut? then Some(ph.end) else None
  }

  /** How replay must treat one well-formed record of its partition. */
  lemma ReplayFollowsPhase(c: Config, hash: Hash, p: nat, barrier: Option<nat>, s: Reader, ph: Phase, l: Logged)
    requires c.Valid() && ValidEntry(c, hash, p, l.entry) && Tracks(s, ph)
    ensures var turn := ReplayRecord(c, hash, p, barrier, s, ToRec(c, l));
      var t := Reader(true, if l.entry == One(Closed) then Some(l.offset) else s.closed, s.visits + VisitsOf(l.offset, VotesIn(l.entry)));
      match NextPhase(ph, l)
      case None => turn == Reject
      case Some(q) =>
        && Tracks(t, q)
        && turn == (if barrier.None? then (if l.entry == One(Closed) then Done(t) else More(t))
                    else if l.offset < barrier.value then More(t)
                    else if l.offset == barrier.value && l.entry == One(Boot) then Done(t) else Reject)
  {
    hide EncodeRecord, EncodeFrame, DecodeRecord, DecodeFrame, Partition;
    match l.entry {
      case One(item) =>
        RecordRoundTrip(c, item);
        VersionsDisjoint(c, EncodeRecord(c, item));
        assert item.Ballot? ==> item.vote in VotesIn(l.entry);
        assert s.visits + [] == s.visits;
      case Many(f) =>
        FrameRoundTrip(c, f);
        VersionsDisjoint(c, EncodeFrame(c, f));
    }
  }

  /**
   * Replay never rejects a log of the journal's form: it is done at CLOSED, having visited every vote
   * before it in order, or waits for more.
   */
  lemma {:induction false} ReplayAcceptsForm(c: Config, hash: Hash, p: nat, s: Reader, ph: Phase, log: seq<Logged>)
    requires c.Valid() && AllValid(c, hash, p, log) && Tracks(s, ph) && !ph.Shut? && PhaseAfter(ph, log).Some?
    ensures var turn := ReplayLog(c, hash, p, None, s, ToRecs(c, log));
      match PhaseAfter(ph, log).value
      case Shut(end) => turn == Done(Reader(true, Some(end), s.visits + VotesOf(log)))
      case q => turn.More? && Tracks(turn.reader, q) && turn.reader.visits == s.visits + VotesOf(log)
    decreases |log|
  {
    hide ReplayRecord, ToRec, Partition;
    if log == [] {
      assert s.visits + [] == s.visits;
    } else {
      ReplayFollowsPhase(c, hash, p, None, s, ph, log[0]);
      var t := ReplayRecord(c, hash, p, None, s, ToRec(c, log[0])).reader;
      assert ToRecs(c, log)[0] == ToRec(c, log[0]) && ToRecs(c, log)[1..] == ToRecs(c, log[1..]);
      var q := NextPhase(ph, log[0]).value;
      if q.Shut? {
        OnlyBootsAfter(q, log[1..]);
        assert s.visits + VisitsOf(log[0].offset, []) == s.visits + VotesOf(log);
      } else {
        ReplayAcceptsForm(c, hash, p, t, q, log[1..]);
        Assoc(s.visits, VisitsOf(log[0].offset, VotesIn(log[0].entry)), VotesOf(log[1..]));
      }
    }
  }

  /** Behind CLOSED only BOOT can follow, so CLOSED happens at most once. */
  lemma {:induction false} OnlyBootsAfter(ph: Phase, log: seq<Logged>)
    requires ph.Shut? && PhaseAfter(ph, log).Some?
    decreases |log|
    ensures PhaseAfter(ph, log) == Some(ph)
    ensures forall i | 0 <= i < |log| :: log[i].entry == One(Boot)
  {
    if log != [] { OnlyBootsAfter(ph, log[1..]); }
  }

  predicate Ascending(log: seq<Logged>) {
    forall i, j | 0 <= i < j < |log| :: log[i].offset < log[j].offset
  }

  /** Recovery: up to a committed BOOT barrier replay always succeeds and reports whether CLOSED came before. */
  lemma {:induction false} ReplayReachesBarrier(c: Config, hash: Hash, p: nat, s: Reader, ph: Phase, log: seq<Logged>, k: nat)
    requires c.Valid() && AllValid(c, hash, p, log) && Tracks(s, ph) && Ascending(log) && PhaseAfter(ph, log).Some?
    requires k < |log| && log[k].entry == One(Boot)
    ensures var turn := ReplayLog(c, hash, p, Some(log[k].offset), s, ToRecs(c, log));
      && PhaseAfter(ph, log[..k + 1]).Some?
      && turn.Done? && Tracks(turn.reader, PhaseAfter(ph, log[..k + 1]).value)
    decreases k
  {
    hide ReplayRecord, ToRec, Partition;
    var b := log[k].offset;
    ReplayFollowsPhase(c, hash, p, Some(b), s, ph, log[0]);
    assert ToRecs(c, log)[0] == ToRec(c, log[0]) && ToRecs(c, log)[1..] == ToRecs(c, log[1..]);
    if k > 0 {
      var t := ReplayRecord(c, hash, p, Some(b), s, ToRec(c, log[0])).reader;
      ReplayReachesBarrier(c, hash, p, t, NextPhase(ph, log[0]).value, log[1..], k - 1);
      assert log[..k + 1][1..] == log[1..][..k];
    } else {
      assert log[..1][1..] == [];
    }
  }

  // ------------------------------------------------------ arbitrary records

  /** The one entry a record that replay does not reject can be. */
  function EntryOf(c: Config, r: Rec): Option<Entry> {
    match DecodeRecord(c, r.value)
    case Some(item) => Some(One(item))
    case None => match DecodeFrame(c, r.value)
      case Some(f) => Some(Many(f))
      case None => None
  }

  /** Whatever the record, replay goes on only if it is the encoding of a valid entry of this partition, under its key. */
  lemma ReadIsEntry(c: Config, hash: Hash, p: nat, barrier: Option<nat>, s: Reader, r: Rec)
    requires c.Valid() && ReplayRecord(c, hash, p, barrier, s, r) != Reject
    ensures EntryOf(c, r).Some?
    ensures var e := EntryOf(c, r).value; ValidEntry(c, hash, p, e) && ToRec(c, Logged(r.offset, e)) == r
  {
    VersionsDisjoint(c, r.value);
    if r.value != [] && r.value[0] == FRAME_VERSION {
      FrameInverse(c, r.value);
      hide DecodeRecord, DecodeFrame, EncodeFrame, Partition;
    } else {
      RecordInverse(c, r.value);
      hide DecodeRecord, DecodeFrame, EncodeRecord, Partition;
    }
  }

  /** A log that replay can have read: the records' entries, all valid, of the journal's form. */
  ghost predicate Reads(c: Config, hash: Hash, p: nat, ph: Phase, rs: seq<Rec>, log: seq<Logged>)
    requires c.Valid()
  {
    |log| <= |rs| && ToRecs(c, log) == rs[..|log|] && AllValid(c, hash, p, log) && PhaseAfter(ph, log).Some?
  }

  /** How far replay goes: to CLOSED, or to the barrier's BOOT, or through all there is. */
  ghost predicate EndsAt(turn: Turn, barrier: Option<nat>, rs: seq<Rec>, log: seq<Logged>)
    requires |log| <= |rs|
  {
    && (turn.More? ==> |log| == |rs|)
    && (turn.Done? ==> log != [] && if barrier.None? then log[|log| - 1].entry == One(Closed)
                                    else log[|log| - 1] == Logged(barrier.value, One(Boot)))
  }

  /** The votes of a log that follows this phase: none behind CLOSED. */
  function VotesFrom(ph: Phase, log: seq<Logged>): seq<Visit> {
    if ph.Shut? then [] else VotesOf(log)
  }

  lemma ReadsOn(c: Config, hash: Hash, p: nat, ph: Phase, rs: seq<Rec>, l: Logged, rest: seq<Logged>)
    requires c.Valid() && rs != [] && ToRec(c, l) == rs[0] && ValidEntry(c, hash, p, l.entry) && NextPhase(ph, l).Some?
    requires Reads(c, hash, p, NextPhase(ph, l).value, rs[1..], rest)
    ensures Reads(c, hash, p, ph, rs, [l] + rest) && PhaseAfter(ph, [l] + rest) == PhaseAfter(NextPhase(ph, l).value, rest)
  {
    hide ToRec, ValidEntry;
    var log := [l] + rest;
    assert log[0] == l && log[1..] == rest;
    assert ToRecs(c, log) == [rs[0]] + rs[1..][..|rest|] == rs[..|log|];
  }

  lemma VisitsOn(before: seq<Visit>, ph: Phase, l: Logged, rest: seq<Logged>)
    requires NextPhase(ph, l).Some?
    ensures before + VisitsOf(l.offset, VotesIn(l.entry)) + VotesFrom(NextPhase(ph, l).value, rest) == before + VotesFrom(ph, [l] + rest)
  {
    assert ([l] + rest)[1..] == rest;
    assert VisitsOf(l.offset, []) == [];
    assert before + [] == before;
    Assoc(before, VisitsOf(l.offset, VotesIn(l.entry)), VotesFrom(NextPhase(ph, l).value, rest));
  }

  /**
   * On arbitrary records: unless replay rejects, what it has read is exactly the encoding of a log of valid
   * entries in the journal's form, whose votes up to CLOSED it has visited in order.
   */
  lemma {:induction false} ReplaySound(c: Config, hash: Hash, p: nat, barrier: Option<nat>, s: Reader, ph: Phase, rs: seq<Rec>)
    returns (log: seq<Logged>)
    requires c.Valid() && Tracks(s, ph) && ReplayLog(c, hash, p, barrier, s, rs) != Reject
    ensures Reads(c, hash, p, ph, rs, log)
    ensures var turn := ReplayLog(c, hash, p, barrier, s, rs);
      && EndsAt(turn, barrier, rs, log) && Tracks(turn.reader, PhaseAfter(ph, log).value)
      && turn.reader.visits == s.visits + VotesFrom(ph, log)
    decreases |rs|
  {
    hide ReplayRecord, ToRec, Partition, EntryOf;
    if rs == [] {
      log := [];
      assert s.visits + [] == s.visits;
    } else {
      ReadIsEntry(c, hash, p, barrier, s, rs[0]);
      var l := Logged(rs[0].offset, EntryOf(c, rs[0]).value);
      ReplayFollowsPhase(c, hash, p, barrier, s, ph, l);
      var turn := ReplayRecord(c, hash, p, barrier, s, rs[0]);
      var q := NextPhase(ph, l).value;
      var rest: seq<Logged> := [];
      if turn.More? {
        rest := ReplaySound(c, hash, p, barrier, turn.reader, q, rs[1..]);
        assert rest != [] ==> ([l] + rest)[|rest|] == rest[|rest| - 1];
      }
      log := [l] + rest;
      ReadsOn(c, hash, p, ph, rs, l, rest);
      VisitsOn(s.visits, ph, l, rest);
    }
  }

  lemma {:induction false} ReplayLonger(c: Config, hash: Hash, p: nat, barrier: Option<nat>, s: Reader, rs: seq<Rec>, more: seq<Rec>)
    requires c.Valid() && ReplayLog(c, hash, p, barrier, s, rs).Done?
    ensures ReplayLog(c, hash, p, barrier, s, rs + more) == ReplayLog(c, hash, p, barrier, s, rs)
    decreases |rs|
  {
    hide ReplayRecord;
    if rs != [] {
      assert (rs + more)[0] == rs[0] && (rs + more)[1..] == rs[1..] + more;
      var turn := ReplayRecord(c, hash, p, barrier, s, rs[0]);
      if turn.More? { ReplayLonger(c, hash, p, barrier, turn.reader, rs[1..], more); }
    }
  }

  /** A log of the form that ends with CLOSED. */
  ghost predicate ClosedLog(c: Config, hash: Hash, p: nat, rs: seq<Rec>, log: seq<Logged>)
    requires c.Valid()
  {
    Reads(c, hash, p, Fresh, rs, log) && log != [] && log[|log| - 1].entry == One(Closed)
  }

  lemma ClosedIsShut(c: Config, hash: Hash, p: nat, rs: seq<Rec>, log: seq<Logged>)
    requires c.Valid() && ClosedLog(c, hash, p, rs, log)
    ensures PhaseAfter(Fresh, log) == Some(Shut(log[|log| - 1].offset))
  {
    var n := |log| - 1;
    hide ToRecs, AllValid;
    assert log == log[..n] + [log[n]];
    PhaseConcat(Fresh, log[..n], [log[n]]);
    assert [log[n]][1..] == [];
  }

  /**
   * On arbitrary records the offline replay comes to its end exactly if they begin with the encoding of a log of
   * valid entries in the journal's form that ends with CLOSED; it then reports that offset and the log's votes.
   */
  lemma ReplayDoneIff(c: Config, hash: Hash, p: nat, rs: seq<Rec>)
    requires c.Valid()
    ensures var turn := ReplayLog(c, hash, p, None, START, rs);
      && (turn.Done? <==> exists log :: ClosedLog(c, hash, p, rs, log))
      && (forall log: seq<Logged> | ClosedLog(c, hash, p, rs, log) :: turn == Done(Reader(true, Some(log[|log| - 1].offset), VotesOf(log))))
  {
    hide ReplayLog, PhaseAfter, ToRecs, AllValid, Tracks;
    var turn := ReplayLog(c, hash, p, None, START, rs);
    assert Tracks(START, Fresh) by { StartTracks(); }
    if turn.Done? {
      var log := ReplaySound(c, hash, p, None, START, Fresh, rs);
      assert ClosedLog(c, hash, p, rs, log);
    }
    forall log: seq<Logged> | ClosedLog(c, hash, p, rs, log) ensures turn == Done(Reader(true, Some(log[|log| - 1].offset), VotesOf(log))) {
      ClosedIsShut(c, hash, p, rs, log);
      ReplayAcceptsForm(c, hash, p, START, Fresh, log);
      ReplayLonger(c, hash, p, None, START, rs[..|log|], rs[|log|..]);
      assert rs == rs[..|log|] + rs[|log|..] && [] + VotesOf(log) == VotesOf(log);
    }
  }

  lemma StartTracks()
    ensures Tracks(START, Fresh)
  {
  }
}
