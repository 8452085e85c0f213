/**
 * The final audit of all partitions (internal/votelog/audit.go): whatever order the fetches interleave
 * in, the same canonical first choices, counts and totals.
 */
module LogAudit {
  import opened Bits
  import opened Bytes
  import opened Wrappers
  import opened LogCodec
  import opened LogReplay

  const RECORD_LIMIT := 12_000_000

  /** One fetched record of one partition. */
  datatype Delivery = Delivery(partition: nat, rec: Rec)

  datatype Position = Position(partition: nat, offset: nat, index: nat)

  datatype AuditResult = AuditResult(
    canonical: map<Token, Vote>, records: map<Position, Vote>, total: nat, counts: seq<nat>, closed: seq<int>)

  /** The records of one partition, in the order they were delivered. */
  function Project(ds: seq<Delivery>, p: nat): seq<Rec> {
    if ds == [] then []
    else Project(ds[..|ds| - 1], p) + (if ds[|ds| - 1].partition == p then [ds[|ds| - 1].rec] else [])
  }

  /** How replay ends for one partition on its own. */
  function TurnOf(c: Config, hash: Hash, ds: seq<Delivery>, p: nat): Turn
    requires c.Valid()
  {
    ReplayLog(c, hash, p, None, START, Project(ds, p))
  }

  function VisitsSeen(t: Turn): seq<Visit> {
    if t.Reject? then [] else t.reader.visits
  }

  // ------------------------------------------- one more delivered record

  function Continue(c: Config, hash: Hash, p: nat, t: Turn, r: Rec): Turn
    requires c.Valid()
  {
    match t
    case More(s) => ReplayRecord(c, hash, p, None, s, r)
    case _ => t
  }

  lemma {:induction false} ReplayAppend(c: Config, hash: Hash, p: nat, s: Reader, rs: seq<Rec>, r: Rec)
    requires c.Valid()
    ensures ReplayLog(c, hash, p, None, s, rs + [r]) == Continue(c, hash, p, ReplayLog(c, hash, p, None, s, rs), r)
    decreases |rs|
  {
    hide ReplayRecord;
    if rs == [] {
      assert rs + [r] == [r] && [r][1..] == [];
    } else {
      assert (rs + [r])[0] == rs[0] && (rs + [r])[1..] == rs[1..] + [r];
      var t := ReplayRecord(c, hash, p, None, s, rs[0]);
      if t.More? { ReplayAppend(c, hash, p, t.reader, rs[1..], r); }
    }
  }

  lemma TurnStep(c: Config, hash: Hash, ds: seq<Delivery>, d: Delivery, p: nat)
    requires c.Valid()
    ensures TurnOf(c, hash, ds + [d], p)
         == if d.partition == p then Continue(c, hash, p, TurnOf(c, hash, ds, p), d.rec) else TurnOf(c, hash, ds, p)
  {
    hide ReplayLog, Continue;
    assert (ds + [d])[..|ds|] == ds;
    ReplayAppend(c, hash, p, START, Project(ds, p), d.rec);
    assert Project(ds, p) + [] == Project(ds, p);
  }

  /** A finished partition stays finished, a failed one failed; visits only grow. */
  ghost predicate Advances(t: Turn, u: Turn) {
    && (t.Reject? ==> u.Reject?)
    && (t.Done? ==> u == t)
    && (u.Reject? || VisitsSeen(t) <= VisitsSeen(u))
  }

  lemma ContinueAdvances(c: Config, hash: Hash, p: nat, t: Turn, r: Rec)
    requires c.Valid()
    ensures Advances(t, Continue(c, hash, p, t, r))
  {
    hide DecodeFrame, DecodeRecord, Partition;
  }

  lemma {:induction false} TurnAdvances(c: Config, hash: Hash, ds: seq<Delivery>, i: nat, p: nat)
    requires c.Valid() && i <= |ds|
    ensures Advances(TurnOf(c, hash, ds[..i], p), TurnOf(c, hash, ds, p))
    decreases |ds| - i
  {
    hide TurnOf, Continue;
    if i < |ds| {
      assert ds[..i + 1] == ds[..i] + [ds[i]];
      TurnStep(c, hash, ds[..i], ds[i], p);
      ContinueAdvances(c, hash, p, TurnOf(c, hash, ds[..i], p), ds[i].rec);
      TurnAdvances(c, hash, ds, i + 1, p);
    } else {
      assert ds[..i] == ds;
    }
  }

  // --------------------------------------------------- what an audit says

  ghost predicate Routed(c: Config, hash: Hash, p: nat, vs: seq<Visit>)
    requires c.Valid()
  {
    forall i | 0 <= i < |vs| :: Partition(c, hash, vs[i].vote.token) == p
  }

  lemma ContinueRoutes(c: Config, hash: Hash, p: nat, t: Turn, r: Rec)
    requires c.Valid() && Routed(c, hash, p, VisitsSeen(t))
    ensures Routed(c, hash, p, VisitsSeen(Continue(c, hash, p, t, r)))
  {
    hide DecodeFrame, DecodeRecord, Partition;
  }

  lemma {:induction false} VisitsRouted(c: Config, hash: Hash, ds: seq<Delivery>, p: nat)
    requires c.Valid()
    ensures Routed(c, hash, p, VisitsSeen(TurnOf(c, hash, ds, p)))
  {
    hide Continue, Routed;
    if ds == [] {
      assert VisitsSeen(TurnOf(c, hash, [], p)) == [];
      NothingRouted(c, hash, p);
    } else {
      var n := |ds| - 1;
      assert ds == ds[..n] + [ds[n]];
      VisitsRouted(c, hash, ds[..n], p);
      TurnStep(c, hash, ds[..n], ds[n], p);
      ContinueRoutes(c, hash, p, TurnOf(c, hash, ds[..n], p), ds[n].rec);
    }
  }

  lemma NothingRouted(c: Config, hash: Hash, p: nat)
    requires c.Valid()
    ensures Routed(c, hash, p, [])
  {
  }

  /** The first vote for a token among visits. */
  function FirstVote(vs: seq<Visit>, token: Token): Option<Vote> {
    if vs == [] then None
    else match FirstVote(vs[..|vs| - 1], token)
      case Some(v) => Some(v)
      case None => if vs[|vs| - 1].vote.token == token then Some(vs[|vs| - 1].vote) else None
  }

  ghost function Choosers(canonical: map<Token, Vote>, bit: nat): set<Token> {
    set t | t in canonical && Bit(canonical[t].choice, bit)
  }

  ghost predicate CountsMatch(canonical: map<Token, Vote>, counts: seq<nat>) {
    |counts| == 32 && forall b | 0 <= b < 32 :: counts[b] == |Choosers(canonical, b)|
  }

  /** canonical maps each token seen to its first vote in the partition its token is routed to. */
  ghost predicate CanonicalOf(c: Config, hash: Hash, canonical: map<Token, Vote>, seen: seq<seq<Visit>>)
    requires c.Valid() && |seen| == c.partitions
  {
    forall t: Token ::
      FirstVote(seen[Partition(c, hash, t)], t) == if t in canonical then Some(canonical[t]) else None
  }

  ghost predicate RecordsOf(records: map<Position, Vote>, seen: seq<seq<Visit>>) {
    && (forall p, i | 0 <= p < |seen| && 0 <= i < |seen[p]| ::
          var k := Position(p, seen[p][i].offset, seen[p][i].index); k in records && records[k] == seen[p][i].vote)
    && (forall k | k in records :: k.partition < |seen| && Visit(k.offset, k.index, records[k]) in seen[k.partition])
  }

  ghost predicate Distinct(vs: seq<Visit>) {
    forall i, j | 0 <= i < j < |vs| :: vs[i].offset != vs[j].offset || vs[i].index != vs[j].index
  }

  ghost predicate AllDistinct(seen: seq<seq<Visit>>) {
    forall p | 0 <= p < |seen| :: Distinct(seen[p])
  }

  function TotalVisits(seen: seq<seq<Visit>>): nat {
    if seen == [] then 0 else TotalVisits(seen[..|seen| - 1]) + |seen[|seen| - 1]|
  }

  ghost function Seen(c: Config, hash: Hash, ds: seq<Delivery>): (s: seq<seq<Visit>>)
    requires c.Valid()
    ensures |s| == c.partitions
  {
    seq(c.partitions, p requires 0 <= p < c.partitions => VisitsSeen(TurnOf(c, hash, ds, p)))
  }

  ghost predicate InRange(c: Config, ds: seq<Delivery>) {
    forall i | 0 <= i < |ds| :: ds[i].partition < c.partitions
  }

  /** When an audit of these deliveries must succeed: a condition on each partition's own records. */
  ghost predicate Auditable(c: Config, hash: Hash, ds: seq<Delivery>)
    requires c.Valid()
  {
    && InRange(c, ds)
    && (forall p | 0 <= p < c.partitions :: TurnOf(c, hash, ds, p).Done?)
    && AllDistinct(Seen(c, hash, ds))
    && TotalVisits(Seen(c, hash, ds)) <= RECORD_LIMIT
  }

  /** What a successful audit's result says about the deliveries. */
  ghost predicate Audits(c: Config, hash: Hash, ds: seq<Delivery>, r: AuditResult)
    requires c.Valid()
  {
    var seen := Seen(c, hash, ds);
    && CanonicalOf(c, hash, r.canonical, seen)
    && RecordsOf(r.records, seen)
    && r.total == TotalVisits(seen)
    && CountsMatch(r.canonical, r.counts)
    && |r.closed| == c.partitions
    && (forall p | 0 <= p < c.partitions ::
          TurnOf(c, hash, ds, p).Done? && r.closed[p] >= 0 && TurnOf(c, hash, ds, p).reader.closed == Some(r.closed[p]))
  }

  /**
   * The audit is confluent: two interleavings that deliver the same records of each partition in the
   * same order have the same canonical choices, counts and totals.
   */
  lemma AuditIsConfluent(c: Config, hash: Hash, ds: seq<Delivery>, es: seq<Delivery>, r: AuditResult, q: AuditResult)
    requires c.Valid() && forall p | 0 <= p < c.partitions :: Project(ds, p) == Project(es, p)
    requires Audits(c, hash, ds, r) && Audits(c, hash, es, q)
    ensures r == q
  {
    hide ReplayLog, CanonicalOf, Distinct, RecordsOf;
    assert forall p | 0 <= p < c.partitions :: TurnOf(c, hash, ds, p) == TurnOf(c, hash, es, p);
    assert Seen(c, hash, ds) == Seen(c, hash, es);
    var seen := Seen(c, hash, ds);
    CanonicalUnique(c, hash, r.canonical, q.canonical, seen);
    RecordsUnique(r.records, q.records, seen);
    assert forall b | 0 <= b < 32 :: r.counts[b] == q.counts[b];
    assert r.counts == q.counts;
    assert forall p | 0 <= p < c.partitions :: Some(r.closed[p]) == Some(q.closed[p]);
    assert r.closed == q.closed;
  }

  /** ... and an audit of both succeeds or of neither. */
  lemma AuditableIsConfluent(c: Config, hash: Hash, ds: seq<Delivery>, es: seq<Delivery>)
    requires c.Valid() && forall p | 0 <= p < c.partitions :: Project(ds, p) == Project(es, p)
    requires InRange(c, ds) && InRange(c, es)
    ensures Auditable(c, hash, ds) == Auditable(c, hash, es)
  {
    hide ReplayLog, AllDistinct;
    assert forall p | 0 <= p < c.partitions :: TurnOf(c, hash, ds, p) == TurnOf(c, hash, es, p);
    assert Seen(c, hash, ds) == Seen(c, hash, es);
  }

  lemma CanonicalUnique(c: Config, hash: Hash, a: map<Token, Vote>, b: map<Token, Vote>, seen: seq<seq<Visit>>)
    requires c.Valid() && |seen| == c.partitions && CanonicalOf(c, hash, a, seen) && CanonicalOf(c, hash, b, seen)
    ensures a == b
  {
    hide FirstVote;
    forall t: Token ensures t in a <==> t in b ensures t in a ==> a[t] == b[t] {
      assert (if t in a then Some(a[t]) else None) == FirstVote(seen[Partition(c, hash, t)], t);
      assert (if t in b then Some(b[t]) else None) == FirstVote(seen[Partition(c, hash, t)], t);
    }
  }

  lemma RecordsUnique(a: map<Position, Vote>, b: map<Position, Vote>, seen: seq<seq<Visit>>)
    requires RecordsOf(a, seen) && RecordsOf(b, seen)
    ensures a == b
  {
    RecordsWithin(a, b, seen);
    RecordsWithin(b, a, seen);
  }

  lemma RecordsWithin(a: map<Position, Vote>, b: map<Position, Vote>, seen: seq<seq<Visit>>)
    requires RecordsOf(a, seen) && RecordsOf(b, seen)
    ensures forall k | k in a :: k in b && a[k] == b[k]
  {
    forall k | k in a ensures k in b && a[k] == b[k] {
      var i :| 0 <= i < |seen[k.partition]| && seen[k.partition][i] == Visit(k.offset, k.index, a[k]);
    }
  }

  /** The canonical vote of a token is the one at its least position: no earlier visit has the token. */
  lemma {:induction false} FirstVoteIsFirst(vs: seq<Visit>, token: Token)
    ensures FirstVote(vs, token).None? <==> forall i | 0 <= i < |vs| :: vs[i].vote.token != token
    ensures FirstVote(vs, token).Some? ==>
              exists k :: 0 <= k < |vs| && vs[k].vote.token == token && FirstVote(vs, token) == Some(vs[k].vote)
                          && forall i | 0 <= i < k :: vs[i].vote.token != token
    decreases |vs|
  {
    if vs != [] {
      var n := |vs| - 1;
      FirstVoteIsFirst(vs[..n], token);
      assert forall i | 0 <= i < n :: vs[..n][i] == vs[i];
    }
  }

  // --------------------------------------------- visits in offset order

  ghost predicate RecsAscend(rs: seq<Rec>) {
    forall i, j | 0 <= i < j < |rs| :: rs[i].offset < rs[j].offset
  }

  predicate VisitBefore(v: Visit, w: Visit) {
    v.offset < w.offset || (v.offset == w.offset && v.index < w.index)
  }

  ghost predicate VisitsAscend(vs: seq<Visit>) {
    forall i, j | 0 <= i < j < |vs| :: VisitBefore(vs[i], vs[j])
  }

  ghost predicate VisitsBelow(vs: seq<Visit>, bound: nat) {
    forall i | 0 <= i < |vs| :: vs[i].offset < bound
  }

  /** One more record adds visits at its own offset only, in index order. */
  lemma ContinueAscends(c: Config, hash: Hash, p: nat, t: Turn, r: Rec, bound: nat)
    requires c.Valid() && VisitsAscend(VisitsSeen(t)) && VisitsBelow(VisitsSeen(t), r.offset) && r.offset < bound
    ensures VisitsAscend(VisitsSeen(Continue(c, hash, p, t, r))) && VisitsBelow(VisitsSeen(Continue(c, hash, p, t, r)), bound)
  {
    hide DecodeFrame, DecodeRecord, Partition;
  }

  lemma {:induction false} VisitsInOrder(c: Config, hash: Hash, ds: seq<Delivery>, p: nat, bound: nat)
    requires c.Valid() && RecsAscend(Project(ds, p)) && forall i | 0 <= i < |Project(ds, p)| :: Project(ds, p)[i].offset < bound
    ensures VisitsAscend(VisitsSeen(TurnOf(c, hash, ds, p))) && VisitsBelow(VisitsSeen(TurnOf(c, hash, ds, p)), bound)
    decreases |ds|
  {
    hide Continue, VisitsAscend, VisitsBelow;
    if ds == [] {
      assert VisitsSeen(TurnOf(c, hash, [], p)) == [];
      NoVisitsInOrder(bound);
    } else {
      var n := |ds| - 1;
      var d := ds[n];
      assert ds == ds[..n] + [d];
      TurnStep(c, hash, ds[..n], d, p);
      if d.partition == p {
        var before := Project(ds[..n], p);
        assert Project(ds, p) == before + [d.rec];
        assert Project(ds, p)[|before|] == d.rec && forall i | 0 <= i < |before| :: Project(ds, p)[i] == before[i];
        LastIsGreatest(before, d.rec);
        VisitsInOrder(c, hash, ds[..n], p, d.rec.offset);
        ContinueAscends(c, hash, p, TurnOf(c, hash, ds[..n], p), d.rec, bound);
      } else {
        assert Project(ds, p) == Project(ds[..n], p);
        VisitsInOrder(c, hash, ds[..n], p, bound);
      }
    }
  }

  lemma NoVisitsInOrder(bound: nat)
    ensures VisitsAscend([]) && VisitsBelow([], bound)
  {
  }

  lemma LastIsGreatest(rs: seq<Rec>, r: Rec)
    requires RecsAscend(rs + [r])
    ensures RecsAscend(rs) && forall i | 0 <= i < |rs| :: rs[i].offset < r.offset
  {
    var more := rs + [r];
    assert more[|rs|] == r && forall i | 0 <= i < |rs| :: more[i] == rs[i];
  }

  /** Above every offset. */
  lemma {:induction false} SomeBound(rs: seq<Rec>) returns (bound: nat)
    ensures forall i | 0 <= i < |rs| :: rs[i].offset < bound
  {
    if rs == [] {
      return 0;
    }
    var n := |rs| - 1;
    bound := SomeBound(rs[..n]);
    if bound <= rs[n].offset { bound := rs[n].offset + 1; }
    assert forall i | 0 <= i < n :: rs[..n][i] == rs[i];
  }

  /**
   * Over a journal whose offsets ascend in each partition, the canonical vote of a token is the one at the
   * least (offset, index) among all its votes, which are all in one partition.
   */
  lemma CanonicalIsLeast(c: Config, hash: Hash, ds: seq<Delivery>, r: AuditResult, p: nat, i: nat)
    requires c.Valid() && Audits(c, hash, ds, r) && p < c.partitions && i < |Seen(c, hash, ds)[p]|
    requires RecsAscend(Project(ds, p))
    ensures var vs := Seen(c, hash, ds)[p];
      var t := vs[i].vote.token;
      && p == Partition(c, hash, t) && t in r.canonical
      && exists k :: 0 <= k < |vs| && vs[k].vote.token == t && r.canonical[t] == vs[k].vote
                     && forall j | 0 <= j < |vs| && j != k && vs[j].vote.token == t :: VisitBefore(vs[k], vs[j])
  {
    hide ReplayLog, Partition, CountsMatch, RecordsOf, TotalVisits;
    var vs := Seen(c, hash, ds)[p];
    var t := vs[i].vote.token;
    var bound := SomeBound(Project(ds, p));
    VisitsInOrder(c, hash, ds, p, bound);
    VisitsRouted(c, hash, ds, p);
    assert vs == VisitsSeen(TurnOf(c, hash, ds, p));
    hide TurnOf, Seen;
    FirstVoteIsFirst(vs, t);
    assert FirstVote(vs, t).Some? == (t in r.canonical);
    hide FirstVote;
    var k :| 0 <= k < |vs| && vs[k].vote.token == t && FirstVote(vs, t) == Some(vs[k].vote)
             && forall j | 0 <= j < k :: vs[j].vote.token != t;
    forall j | 0 <= j < |vs| && j != k && vs[j].vote.token == t ensures VisitBefore(vs[k], vs[j]) {
      assert k < j;
    }
  }

  // ------------------------------------------------------ adding one visit

  lemma ChoosersAdd(canonical: map<Token, Vote>, v: Vote, b: nat)
    requires v.token !in canonical && b < 32
    ensures |Choosers(canonical[v.token := v], b)| == |Choosers(canonical, b)| + (if Bit(v.choice, b) then 1 else 0)
  {
    hide Bit;
    var before, after := Choosers(canonical, b), Choosers(canonical[v.token := v], b);
    assert v.token !in before;
    assert after == if Bit(v.choice, b) then before + {v.token} else before;
  }

  lemma CountsAdd(canonical: map<Token, Vote>, counts: seq<nat>, v: Vote)
    requires CountsMatch(canonical, counts) && v.token !in canonical
    ensures CountsMatch(canonical[v.token := v], seq(32, b requires 0 <= b < 32 => counts[b] + (if Bit(v.choice, b) then 1 else 0)))
  {
    hide Bit, Choosers;
    forall b | 0 <= b < 32 ensures |Choosers(canonical[v.token := v], b)| == counts[b] + (if Bit(v.choice, b) then 1 else 0) {
      ChoosersAdd(canonical, v, b);
    }
  }

  lemma CanonicalAdd(c: Config, hash: Hash, canonical: map<Token, Vote>, seen: seq<seq<Visit>>, p: nat, v: Visit)
    requires c.Valid() && |seen| == c.partitions && p < |seen| && CanonicalOf(c, hash, canonical, seen)
    requires Partition(c, hash, v.vote.token) == p
    ensures CanonicalOf(c, hash, if v.vote.token in canonical then canonical else canonical[v.vote.token := v.vote], seen[p := seen[p] + [v]])
  {
    hide Partition;
    assert (seen[p] + [v])[..|seen[p]|] == seen[p];
    forall t: Token
      ensures var after := if v.vote.token in canonical then canonical else canonical[v.vote.token := v.vote];
        FirstVote(seen[p := seen[p] + [v]][Partition(c, hash, t)], t) == if t in after then Some(after[t]) else None
    {
      assert FirstVote(seen[Partition(c, hash, t)], t) == if t in canonical then Some(canonical[t]) else None;
    }
  }

  lemma RecordsAdd(records: map<Position, Vote>, seen: seq<seq<Visit>>, p: nat, v: Visit)
    requires p < |seen| && RecordsOf(records, seen) && Position(p, v.offset, v.index) !in records
    ensures RecordsOf(records[Position(p, v.offset, v.index) := v.vote], seen[p := seen[p] + [v]])
  {
    var after, more := records[Position(p, v.offset, v.index) := v.vote], seen[p := seen[p] + [v]];
    forall k | k in after ensures k.partition < |more| && Visit(k.offset, k.index, after[k]) in more[k.partition] {
      if k == Position(p, v.offset, v.index) { assert more[p][|seen[p]|] == v; }
    }
    forall q, i | 0 <= q < |more| && 0 <= i < |more[q]|
      ensures var k := Position(q, more[q][i].offset, more[q][i].index); k in after && after[k] == more[q][i].vote
    {
      if q != p || i < |seen[p]| { assert more[q][i] == seen[q][i]; }
    }
  }

  lemma DistinctAdd(records: map<Position, Vote>, seen: seq<seq<Visit>>, p: nat, v: Visit)
    requires p < |seen| && RecordsOf(records, seen) && AllDistinct(seen) && Position(p, v.offset, v.index) !in records
    ensures AllDistinct(seen[p := seen[p] + [v]])
  {
    forall i | 0 <= i < |seen[p]| ensures seen[p][i].offset != v.offset || seen[p][i].index != v.index {
      assert Position(p, seen[p][i].offset, seen[p][i].index) in records;
    }
    var more := seen[p := seen[p] + [v]];
    forall q | 0 <= q < |more| ensures Distinct(more[q]) {
      assert Distinct(seen[q]);
    }
  }

  lemma {:induction false} TotalAdd(seen: seq<seq<Visit>>, p: nat, vs: seq<Visit>)
    requires p < |seen|
    ensures TotalVisits(seen[p := vs]) == TotalVisits(seen) - |seen[p]| + |vs|
    decreases |seen|
  {
    var n := |seen| - 1;
    if p < n {
      assert seen[p := vs][..n] == seen[..n][p := vs];
      TotalAdd(seen[..n], p, vs);
    } else {
      assert seen[p := vs][..n] == seen[..n];
    }
  }

  lemma {:induction false} TotalGrows(a: seq<seq<Visit>>, b: seq<seq<Visit>>)
    requires |a| == |b| && forall p | 0 <= p < |a| :: a[p] <= b[p]
    ensures TotalVisits(a) <= TotalVisits(b)
    decreases |a|
  {
    if a != [] { TotalGrows(a[..|a| - 1], b[..|b| - 1]); }
  }

  // ------------------------------------------------------------ the audit

  /** Audit's accumulators, updated by the visitor. */
  class Tally {
    var canonical: map<Token, Vote>
    var records: map<Position, Vote>
    var total: nat
    const counts: array<nat>

    constructor ()
      ensures canonical == map[] && records == map[] && total == 0 && fresh(counts) && counts[..] == seq(32, _ => 0)
    {
      canonical, records, total := map[], map[], 0;
      counts := new nat[32](_ => 0);
    }

    ghost predicate Holds(c: Config, hash: Hash, seen: seq<seq<Visit>>)
      requires c.Valid()
      reads this, counts
    {
      && |seen| == c.partitions
      && CanonicalOf(c, hash, canonical, seen) && RecordsOf(records, seen) && AllDistinct(seen)
      && total == TotalVisits(seen) <= RECORD_LIMIT && CountsMatch(canonical, counts[..])
    }

    /** The visitor: false when the record limit is exceeded or a position comes twice. */
    method Visit(c: Config, hash: Hash, p: nat, v: Visit, ghost seen: seq<seq<Visit>>) returns (ok: bool)
      requires c.Valid() && Holds(c, hash, seen) && p < c.partitions && Partition(c, hash, v.vote.token) == p
      modifies this, counts
      ensures ok ==> Holds(c, hash, seen[p := seen[p] + [v]])
      ensures !ok ==> TotalVisits(seen[p := seen[p] + [v]]) > RECORD_LIMIT || !Distinct(seen[p] + [v])
    {
      hide CanonicalOf, CountsMatch, Partition, AllDistinct;
      TotalAdd(seen, p, seen[p] + [v]);
      if total >= RECORD_LIMIT {
        return false;
      }
      var k := Position(p, v.offset, v.index);
      if k in records {
        RecordIsVisit(records, seen, p, v);
        return false;
      }
      CanonicalAdd(c, hash, canonical, seen, p, v);
      RecordsAdd(records, seen, p, v);
      DistinctAdd(records, seen, p, v);
      records := records[k := v.vote];
      total := total + 1;
      if v.vote.token !in canonical {
        CountsAdd(canonical, counts[..], v.vote);
        ghost var before := counts[..];
        canonical := canonical[v.vote.token := v.vote];
        CountVote(v.vote.choice);
        assert |before| == 32 by { CountsLength(old(canonical), before); }
        assert counts[..] == seq(32, b requires 0 <= b < 32 => before[b] + (if Bit(v.vote.choice, b) then 1 else 0));
      }
      ok := true;
    }

    method CountVote(choice: u32)
      modifies counts
      ensures forall b | 0 <= b < counts.Length ::
                counts[b] == old(counts[b]) + (if b < 32 && Bit(choice, b) then 1 else 0)
    {
      hide Bit;
      for b := 0 to counts.Length
        invariant forall k | 0 <= k < counts.Length ::
                    counts[k] == old(counts[k]) + (if k < b && k < 32 && Bit(choice, k) then 1 else 0)
      {
        if b < 32 && Bit(choice, b) {
          counts[b] := counts[b] + 1;
        }
      }
    }
  }

  lemma CountsLength(canonical: map<Token, Vote>, counts: seq<nat>)
    requires CountsMatch(canonical, counts)
    ensures |counts| == 32
  {
  }

  lemma RecordIsVisit(records: map<Position, Vote>, seen: seq<seq<Visit>>, p: nat, v: Visit)
    requires p < |seen| && RecordsOf(records, seen) && Position(p, v.offset, v.index) in records
    ensures !Distinct(seen[p] + [v])
  {
    var k := Position(p, v.offset, v.index);
    var i :| 0 <= i < |seen[p]| && seen[p][i] == LogReplay.Visit(v.offset, v.index, records[k]);
    var vs := seen[p] + [v];
    assert vs[i].offset == vs[|seen[p]|].offset && vs[i].index == vs[|seen[p]|].index;
  }

  // ------------------------------------------------- one delivered record

  /** A record adds the same visits whatever was visited before it. */
  lemma VisitsShift(c: Config, hash: Hash, p: nat, s: Reader, r: Rec)
    requires c.Valid()
    ensures var turn := ReplayRecord(c, hash, p, None, s.(visits := []), r);
      ReplayRecord(c, hash, p, None, s, r)
      == match turn
        case Reject => Reject
        case More(t) => More(t.(visits := s.visits + t.visits))
        case Done(t) => Done(t.(visits := s.visits + t.visits))
    ensures ReplayRecord(c, hash, p, None, s, r).Done? ==> ReplayRecord(c, hash, p, None, s, r).reader.closed.Some?
  {
    hide DecodeFrame, DecodeRecord, Partition;
    assert forall vs: seq<Visit> :: [] + vs == vs;
    assert s.visits + [] == s.visits;
  }

  function ClosedAt(offset: int): Option<nat> {
    if offset < 0 then None else Some(offset)
  }

  function Undone(done: seq<bool>): nat {
    if done == [] then 0 else Undone(done[..|done| - 1]) + (if done[|done| - 1] then 0 else 1)
  }

  lemma {:induction false} UndoneUpdate(done: seq<bool>, p: nat)
    requires p < |done| && !done[p]
    ensures Undone(done[p := true]) == Undone(done) - 1
  {
    var n := |done| - 1;
    if p < n {
      assert done[p := true][..n] == done[..n][p := true];
      UndoneUpdate(done[..n], p);
    } else {
      assert done[p := true][..n] == done[..n];
    }
  }

  lemma {:induction false} UndoneZero(done: seq<bool>)
    ensures Undone(done) == 0 <==> forall p | 0 <= p < |done| :: done[p]
  {
    if done != [] { UndoneZero(done[..|done| - 1]); }
  }

  lemma {:induction false} UndoneAll(n: nat)
    ensures Undone(seq(n, _ => false)) == n
  {
    if n > 0 {
      UndoneAll(n - 1);
      assert seq(n, _ => false)[..n - 1] == seq(n - 1, _ => false);
    }
  }

  // -------------------------------------------------------------- Audit

  /** What the arrays of replay hold for each partition once the deliveries so far have been handled. */
  ghost predicate Follows(c: Config, hash: Hash, ds: seq<Delivery>, done: seq<bool>, boot: seq<bool>, closed: seq<int>)
    requires c.Valid()
  {
    && |done| == |boot| == |closed| == c.partitions
    && (forall p | 0 <= p < c.partitions ::
          FollowsOne(TurnOf(c, hash, ds, p), done[p], boot[p], closed[p]))
  }

  ghost predicate FollowsOne(t: Turn, done: bool, boot: bool, closed: int) {
    && !t.Reject? && t.Done? == done && t.reader.seenBoot == boot && t.reader.closed == ClosedAt(closed)
    && (done ==> closed >= 0)
  }

  lemma FollowsStep(c: Config, hash: Hash, ds: seq<Delivery>, d: Delivery, done: seq<bool>, boot: seq<bool>, closed: seq<int>, t: Turn)
    requires c.Valid() && Follows(c, hash, ds, done, boot, closed) && d.partition < c.partitions && !done[d.partition]
    requires t == ReplayRecord(c, hash, d.partition, None, Reader(boot[d.partition], ClosedAt(closed[d.partition]), []), d.rec)
    ensures t.Reject? ==> TurnOf(c, hash, ds + [d], d.partition).Reject?
    ensures !t.Reject? ==>
              && Follows(c, hash, ds + [d], done[d.partition := t.Done?], boot[d.partition := t.reader.seenBoot],
                         closed[d.partition := ToOffset(t.reader.closed)])
              && Seen(c, hash, ds + [d])
                 == Seen(c, hash, ds)[d.partition := Seen(c, hash, ds)[d.partition] + t.reader.visits]
  {
    hide ReplayRecord, TurnOf;
    var p := d.partition;
    var before := TurnOf(c, hash, ds, p);
    VisitsShift(c, hash, p, before.reader, d.rec);
    forall q | 0 <= q < c.partitions
      ensures TurnOf(c, hash, ds + [d], q) == if q == p then Continue(c, hash, p, before, d.rec) else TurnOf(c, hash, ds, q)
    {
      TurnStep(c, hash, ds, d, q);
    }
  }

  function ToOffset(closed: Option<nat>): int {
    match closed case None => -1 case Some(n) => n
  }

  lemma FollowsSkip(c: Config, hash: Hash, ds: seq<Delivery>, d: Delivery, done: seq<bool>, boot: seq<bool>, closed: seq<int>)
    requires c.Valid() && Follows(c, hash, ds, done, boot, closed) && d.partition < c.partitions && done[d.partition]
    ensures Follows(c, hash, ds + [d], done, boot, closed) && Seen(c, hash, ds + [d]) == Seen(c, hash, ds)
  {
    hide TurnOf;
    forall q | 0 <= q < c.partitions ensures TurnOf(c, hash, ds + [d], q) == TurnOf(c, hash, ds, q) {
      TurnStep(c, hash, ds, d, q);
      assert q == d.partition ==> TurnOf(c, hash, ds, q).Done?;
    }
  }

  /** A failure on a prefix of the deliveries is a failure of the whole. */
  lemma FailuresStay(c: Config, hash: Hash, ds: seq<Delivery>, i: nat, p: nat)
    requires c.Valid() && i <= |ds| && p < c.partitions && TurnOf(c, hash, ds[..i], p).Reject?
    ensures !Auditable(c, hash, ds)
  {
    hide TurnOf, AllDistinct;
    TurnAdvances(c, hash, ds, i, p);
  }

  lemma AuditableBounds(c: Config, hash: Hash, ds: seq<Delivery>, i: nat, part: seq<seq<Visit>>)
    requires c.Valid() && i <= |ds| && |part| == c.partitions && Auditable(c, hash, ds)
    requires forall p | 0 <= p < c.partitions :: part[p] <= Seen(c, hash, ds[..i])[p]
    ensures TotalVisits(part) <= RECORD_LIMIT && AllDistinct(part)
  {
    hide TurnOf;
    var all := Seen(c, hash, ds);
    forall p | 0 <= p < c.partitions ensures part[p] <= all[p] {
      TurnAdvances(c, hash, ds, i, p);
      assert TurnOf(c, hash, ds, p).Done?;
    }
    TotalGrows(part, all);
    forall p | 0 <= p < |part| ensures Distinct(part[p]) {
      assert Distinct(all[p]);
    }
  }

  lemma OverflowsStay(c: Config, hash: Hash, ds: seq<Delivery>, i: nat, part: seq<seq<Visit>>)
    requires c.Valid() && i <= |ds| && |part| == c.partitions
    requires forall p | 0 <= p < c.partitions :: part[p] <= Seen(c, hash, ds[..i])[p]
    requires TotalVisits(part) > RECORD_LIMIT || !AllDistinct(part)
    ensures !Auditable(c, hash, ds)
  {
    hide TurnOf, Auditable, AllDistinct;
    if Auditable(c, hash, ds) { AuditableBounds(c, hash, ds, i, part); }
  }

  lemma StepRouted(c: Config, hash: Hash, ds: seq<Delivery>, p: nat, vs: seq<Visit>)
    requires c.Valid() && p < c.partitions && vs <= Seen(c, hash, ds)[p]
    ensures Routed(c, hash, p, vs)
  {
    hide TurnOf, Partition;
    VisitsRouted(c, hash, ds, p);
  }

  lemma NothingSeen(c: Config, hash: Hash)
    requires c.Valid()
    ensures Follows(c, hash, [], seq(c.partitions, _ => false), seq(c.partitions, _ => false), seq(c.partitions, _ => -1))
    ensures Seen(c, hash, []) == seq(c.partitions, _ => [])
    ensures TotalVisits(Seen(c, hash, [])) == 0
    ensures CanonicalOf(c, hash, map[], Seen(c, hash, [])) && RecordsOf(map[], Seen(c, hash, [])) && AllDistinct(Seen(c, hash, []))
  {
    assert Seen(c, hash, []) == seq(c.partitions, _ => []);
    NoVisits(c.partitions);
  }

  lemma {:induction false} NoVisits(n: nat)
    ensures TotalVisits(seq(n, _ => [])) == 0
  {
    if n > 0 {
      assert seq<seq<Visit>>(n, _ => [])[..n - 1] == seq(n - 1, _ => []);
      NoVisits(n - 1);
    }
  }

  lemma NobodyChose()
    ensures CountsMatch(map[], seq(32, _ => 0))
  {
    assert forall b | 0 <= b < 32 :: Choosers(map[], b) == {};
  }

  lemma OutOfRange(c: Config, hash: Hash, ds: seq<Delivery>, i: nat)
    requires c.Valid() && i < |ds| && ds[i].partition >= c.partitions
    ensures !Auditable(c, hash, ds)
  {
    hide TurnOf, AllDistinct;
  }

  lemma Unfinished(c: Config, hash: Hash, ds: seq<Delivery>, done: seq<bool>, boot: seq<bool>, closed: seq<int>)
    requires c.Valid() && Follows(c, hash, ds, done, boot, closed) && exists p :: 0 <= p < |done| && !done[p]
    ensures !Auditable(c, hash, ds)
  {
    hide TurnOf, AllDistinct;
  }

  lemma Finished(c: Config, hash: Hash, ds: seq<Delivery>, done: seq<bool>, boot: seq<bool>, closed: seq<int>,
                 tally: Tally, r: AuditResult)
    requires c.Valid() && Follows(c, hash, ds, done, boot, closed) && forall p | 0 <= p < |done| :: done[p]
    requires InRange(c, ds) && tally.Holds(c, hash, Seen(c, hash, ds))
    requires r == AuditResult(tally.canonical, tally.records, tally.total, tally.counts[..], closed)
    ensures Auditable(c, hash, ds) && Audits(c, hash, ds, r)
  {
    hide TurnOf, AllDistinct, CanonicalOf, RecordsOf, CountsMatch, Seen;
  }

  /** Shows the tally the new visits of one record, in order; false when it refuses one. */
  method VisitAll(c: Config, hash: Hash, ds: seq<Delivery>, i: nat, vs: seq<Visit>, tally: Tally) returns (ok: bool)
    requires c.Valid() && i < |ds| && ds[i].partition < c.partitions
    requires Seen(c, hash, ds[..i + 1])
          == Seen(c, hash, ds[..i])[ds[i].partition := Seen(c, hash, ds[..i])[ds[i].partition] + vs]
    requires tally.Holds(c, hash, Seen(c, hash, ds[..i]))
    modifies tally, tally.counts
    ensures ok ==> tally.Holds(c, hash, Seen(c, hash, ds[..i + 1]))
    ensures !ok ==> !Auditable(c, hash, ds)
  {
    hide Seen, Auditable, AllDistinct, Distinct, CanonicalOf, RecordsOf, CountsMatch, Partition;
    var p := ds[i].partition;
    ghost var before := Seen(c, hash, ds[..i]);
    ghost var after := Seen(c, hash, ds[..i + 1]);
    assert before[p] + [] == before[p] && before[p := before[p]] == before;
    for k := 0 to |vs|
      invariant tally.Holds(c, hash, before[p := before[p] + vs[..k]])
    {
      ghost var seen := before[p := before[p] + vs[..k]];
      assert vs[..k + 1] == vs[..k] + [vs[k]];
      assert before[p] + vs[..k + 1] == seen[p] + [vs[k]];
      ghost var more := before[p := before[p] + vs[..k + 1]];
      assert more == seen[p := seen[p] + [vs[k]]];
      assert more[p] <= after[p];
      StepRouted(c, hash, ds[..i + 1], p, more[p]);
      assert more[p][|more[p]| - 1] == vs[k];
      ok := tally.Visit(c, hash, p, vs[k], seen);
      if !ok {
        DistinctOf(more, p);
        OverflowsStay(c, hash, ds, i + 1, more);
        return;
      }
    }
    assert vs[..|vs|] == vs;
    ok := true;
  }

  lemma DistinctOf(seen: seq<seq<Visit>>, p: nat)
    requires p < |seen|
    ensures !Distinct(seen[p]) ==> !AllDistinct(seen)
  {
  }

  /** Stores what one record did to its partition's flags and to the number of unfinished partitions. */
  method Advance(done: array<bool>, boot: array<bool>, closed: array<int>, p: nat, turn: Turn, remaining: nat) returns (left: nat)
    requires p < done.Length == boot.Length == closed.Length && done != boot && !turn.Reject?
    requires !done[p] && remaining == Undone(done[..])
    modifies done, boot, closed
    ensures done[..] == old(done[..])[p := turn.Done?]
    ensures boot[..] == old(boot[..])[p := turn.reader.seenBoot]
    ensures closed[..] == old(closed[..])[p := ToOffset(turn.reader.closed)]
    ensures left == Undone(done[..])
  {
    left := remaining;
    boot[p], closed[p] := turn.reader.seenBoot, ToOffset(turn.reader.closed);
    if turn.Done? {
      UndoneUpdate(done[..], p);
      done[p] := true;
      left := left - 1;
    }
    assert done[..] == old(done[..])[p := turn.Done?];
  }

  /**
   * Audit over everything fetched: it succeeds exactly when every partition's own records replay to
   * CLOSED within the record limit and no position comes twice, and then describes the first choices.
   */
  method Audit(c: Config, hash: Hash, ds: seq<Delivery>) returns (r: Option<AuditResult>)
    requires c.Valid()
    ensures r.Some? <==> Auditable(c, hash, ds)
    ensures r.Some? ==> Audits(c, hash, ds, r.value)
  {
    hide ReplayRecord, TurnOf, Auditable, Audits, Follows, Seen, AllDistinct, Partition, CanonicalOf, RecordsOf, CountsMatch, Undone, Project;
    var n := c.partitions;
    var done, boot, closed := new bool[n](_ => false), new bool[n](_ => false), new int[n](_ => -1);
    var remaining := n;
    var tally := new Tally();
    NothingSeen(c, hash);
    NobodyChose();
    UndoneAll(n);
    assert ds[..0] == [];
    assert tally.Holds(c, hash, Seen(c, hash, []));
    hide Tally.Holds, TotalVisits;
    assert done[..] == seq(n, _ => false) && boot[..] == seq(n, _ => false) && closed[..] == seq(n, _ => -1);
    for i := 0 to |ds|
      invariant fresh(tally) && fresh(tally.counts)
      invariant Follows(c, hash, ds[..i], done[..], boot[..], closed[..])
      invariant tally.Holds(c, hash, Seen(c, hash, ds[..i]))
      invariant remaining == Undone(done[..])
      invariant InRange(c, ds[..i])
    {
      var d := ds[i];
      var p := d.partition;
      assert ds[..i + 1] == ds[..i] + [d];
      if p >= n {
        OutOfRange(c, hash, ds, i);
        return None;
      }
      if done[p] {
        FollowsSkip(c, hash, ds[..i], d, done[..], boot[..], closed[..]);
        continue;
      }
      var turn := ReplayRecord(c, hash, p, None, Reader(boot[p], ClosedAt(closed[p]), []), d.rec);
      FollowsStep(c, hash, ds[..i], d, done[..], boot[..], closed[..], turn);
      if turn.Reject? {
        FailuresStay(c, hash, ds, i + 1, p);
        return None;
      }
      var ok := VisitAll(c, hash, ds, i, turn.reader.visits, tally);
      if !ok {
        return None;
      }
      remaining := Advance(done, boot, closed, p, turn, remaining);
    }
    assert ds[..|ds|] == ds;
    UndoneZero(done[..]);
    if remaining > 0 {
      Unfinished(c, hash, ds, done[..], boot[..], closed[..]);
      return None;
    }
    r := Some(AuditResult(tally.canonical, tally.records, tally.total, tally.counts[..], closed[..]));
    Finished(c, hash, ds, done[..], boot[..], closed[..], tally, r.value);
  }
}
