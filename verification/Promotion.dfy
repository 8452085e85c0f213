/**
 * The promotion controller of scripts/replication_lab.py as a machine of persistent steps: one command runs
 * at a time, and it, or any server, can stop between any two of them.
 */
module Promotion {
  import opened Wrappers

  /**
   * A server's data directory and process. wal holds its durable commits; signal is standby.signal. received
   * and replayed are what SQL shows of a standby: the last position received since it started, if any, and
   * the last one replayed. Both can lag behind the WAL on disk.
   */
  datatype Server = Server(present: bool, signal: bool, running: bool, wal: seq<nat>, received: Option<nat>, replayed: nat)
  {
    /** flush_lsn: of a primary the position flushed, of a standby the position received. */
    function Flush(): Option<nat> {
      if signal then received else Some(|wal|)
    }

    predicate LsnOk() {
      replayed <= |wal| && (received.Some? ==> received.value <= |wal|)
    }
  }

  /** node_snapshot of a running server, as far as promotion looks at it. */
  datatype Snapshot = Snapshot(inRecovery: bool, flush: Option<nat>, replay: nat)
  {
    /** max(flush_lsn, replay_lsn), a missing one counting as 0. */
    function Shown(): nat {
      match flush
      case Some(f) => if f > replay then f else replay
      case None => replay
    }

    /** What the promotion intent records: flush_lsn or, without one, replay_lsn. */
    function Recorded(): nat {
      match flush
      case Some(f) => f
      case None => replay
    }
  }

  function Read(x: Server): Snapshot {
    Snapshot(x.signal, x.Flush(), x.replayed)
  }

  function Shown(x: Server): nat {
    Read(x).Shown()
  }

  datatype Pending = Pending(from: nat, next: nat, lsn: nat)

  /** metadata.json. names are the replication identities, the primary's being none. */
  datatype Meta = Meta(current: nat, epoch: nat, retired: set<nat>, pending: Option<Pending>, names: seq<Option<nat>>)

  /**
   * The command in progress, if any, and how far it got. A promotion first reads its candidate, then compares
   * the other standbys with that; compared says of each whether SQL showed all of its WAL at the time.
   */
  datatype Command =
    | Idle
    | Promoting(prior: nat, candidate: nat, target: Option<Snapshot>, compared: map<nat, bool>)
    | Fenced(prior: nat, candidate: nat)
    | Rebuilding(node: nat)
    | Copied(node: nat)

  /**
   * safe is the longest history that a non-retired standby has had on disk; base is the length of the history
   * that the last promotion started from, and verified whether a standby has had that much since.
   */
  datatype State = State(servers: seq<Server>, meta: Meta, command: Command, safe: seq<nat>, base: nat, verified: bool, switches: nat)

  datatype Label =
    | Commit(node: nat, value: nat)
    | Stream(node: nat, leader: nat, upTo: nat)
    | Replay(node: nat, upTo: nat)
    | Die(node: nat)
    | Crash
    | Configure(node: nat)
    | Start(node: nat, upTo: nat)
    | Copy(node: nat)
    | RebuildArchive(node: nat)
    | RebuildCopy
    | RebuildRelease
    | PromoteBegin(candidate: nat)
    | PromoteStart(node: nat, upTo: nat)
    | PromoteRead
    | PromoteCompare(node: nat)
    | PromoteIntent
    | PromoteResume
    | PromoteServer
    | PromoteFinish

  /** A running server that accepts writes. */
  predicate Writable(s: State, n: nat) {
    n < |s.servers| && s.servers[n].present && s.servers[n].running && !s.servers[n].signal
  }

  predicate Standby(s: State, n: nat) {
    n < |s.servers| && s.servers[n].present && s.servers[n].running && s.servers[n].signal
  }

  /** The nodes that a promotion from prior to candidate compares. */
  predicate Other(s: State, prior: nat, candidate: nat, n: nat) {
    n < |s.servers| && n != prior && n != candidate && n !in s.meta.retired
  }

  ghost predicate AllCompared(s: State) {
    && s.command.Promoting? && s.command.target.Some?
    && forall n: nat | Other(s, s.command.prior, s.command.candidate, n) :: n in s.command.compared
  }

  /** A server can be started with what it has replayed when SQL answers; a primary has replayed everything. */
  predicate Startable(s: State, n: nat, upTo: nat) {
    n < |s.servers| && s.servers[n].present && n !in s.meta.retired && upTo <= |s.servers[n].wal|
  }

  ghost predicate Enabled(s: State, l: Label) {
    var m := s.meta;
    match l
    case Commit(n, _) => Writable(s, n)
    case Stream(n, leader, k) =>
      && Standby(s, n) && Writable(s, leader) && n !in m.retired
      && s.servers[n].wal <= s.servers[leader].wal && |s.servers[n].wal| <= k <= |s.servers[leader].wal|
    case Replay(n, k) => Standby(s, n) && s.servers[n].replayed <= k <= |s.servers[n].wal|
    case Die(n) => n < |s.servers|
    case Crash => true
    case Configure(n) => s.command == Idle && m.pending.None? && n < |s.servers| && s.servers[n].present && n != m.current
    case Start(n, k) => s.command == Idle && m.pending.None? && Startable(s, n, k) && (n == m.current <==> !s.servers[n].signal)
    case Copy(n) =>
      && s.command == Idle && m.pending.None? && n < |s.servers| && n != m.current && n !in m.retired
      && !s.servers[n].present && Writable(s, m.current)
    case RebuildArchive(n) =>
      && s.command == Idle && m.pending.None? && n < |s.servers| && n != m.current && s.servers[n].present && !s.servers[n].running
      && Writable(s, m.current)
    case RebuildCopy => s.command.Rebuilding? && s.command.node < |s.servers| && !s.servers[s.command.node].present && Writable(s, m.current)
    case RebuildRelease => s.command.Copied? && s.command.node < |s.servers|
    case PromoteBegin(c) =>
      && s.command == Idle && c < |s.servers|
      && (match m.pending
          case Some(p) => p.next == c && p.from < |s.servers| && !s.servers[p.from].running
          case None => c != m.current && c !in m.retired && m.current < |s.servers| && !s.servers[m.current].running)
    case PromoteStart(n, k) =>
      && s.command.Promoting? && m.pending.Some? && Startable(s, n, k)
      && (n == s.command.candidate || (Other(s, s.command.prior, s.command.candidate, n) && s.servers[n].signal))
    case PromoteRead =>
      && s.command.Promoting? && s.command.target.None?
      && s.command.candidate < |s.servers| && s.servers[s.command.candidate].present && s.servers[s.command.candidate].running
      && (m.pending.Some? ==> Shown(s.servers[s.command.candidate]) >= m.pending.value.lsn)
    case PromoteCompare(n) =>
      && s.command.Promoting? && s.command.target.Some? && Other(s, s.command.prior, s.command.candidate, n) && Standby(s, n)
      && Shown(s.servers[n]) <= s.command.target.value.Shown()
    case PromoteIntent => AllCompared(s) && m.pending.None? && s.command.target.value.inRecovery && s.command.candidate < |s.servers|
    case PromoteResume => AllCompared(s) && m.pending.Some?
    case PromoteServer => s.command.Fenced? && Standby(s, s.command.candidate)
    case PromoteFinish =>
      && s.command.Fenced? && s.command.candidate < |s.servers| && !s.servers[s.command.candidate].signal
      && s.command.prior < |m.names| && s.command.candidate < |m.names|
  }

  function WithServer(s: State, n: nat, x: Server): State
    requires n < |s.servers|
  {
    s.(servers := s.servers[n := x])
  }

  /** A standby's WAL on disk counts as flushed history once the node is not retired. */
  function Noted(s: State, n: nat): State
    requires n < |s.servers|
  {
    if n in s.meta.retired then s
    else
      var w := s.servers[n].wal;
      s.(safe := if |w| > |s.safe| then w else s.safe, verified := s.verified || |w| >= s.base)
  }

  function Started(x: Server, upTo: nat): Server {
    x.(running := true, received := None, replayed := upTo)
  }

  function CopyOf(x: Server): Server {
    Server(true, true, false, x.wal, None, 0)
  }

  function Apply(s: State, l: Label): State
    requires Enabled(s, l)
  {
    var m := s.meta;
    match l
    case Commit(n, v) => WithServer(s, n, s.servers[n].(wal := s.servers[n].wal + [v]))
    case Stream(n, leader, k) => Noted(WithServer(s, n, s.servers[n].(wal := s.servers[leader].wal[..k], received := Some(k))), n)
    case Replay(n, k) => WithServer(s, n, s.servers[n].(replayed := k))
    case Die(n) => WithServer(s, n, s.servers[n].(running := false))
    case Crash => s.(command := Idle)
    case Configure(n) => WithServer(s, n, s.servers[n].(signal := true))
    case Start(n, k) => WithServer(s, n, Started(s.servers[n], k))
    case Copy(n) => Noted(WithServer(s, n, CopyOf(s.servers[m.current])), n)
    case RebuildArchive(n) => WithServer(s, n, s.servers[n].(present := false)).(command := Rebuilding(n))
    case RebuildCopy =>
      var n := s.command.node;
      Noted(WithServer(s, n, CopyOf(s.servers[m.current])).(command := Copied(n)), n)
    case RebuildRelease => Noted(s.(meta := m.(retired := m.retired - {s.command.node}), command := Idle), s.command.node)
    case PromoteBegin(c) => s.(command := Promoting(if m.pending.Some? then m.pending.value.from else m.current, c, None, map[]))
    case PromoteStart(n, k) => WithServer(s, n, Started(s.servers[n], k))
    case PromoteRead => s.(command := s.command.(target := Some(Read(s.servers[s.command.candidate]))))
    case PromoteCompare(n) =>
      s.(command := s.command.(compared := s.command.compared[n := Shown(s.servers[n]) == |s.servers[n].wal|]))
    case PromoteIntent =>
      var (prior, c) := (s.command.prior, s.command.candidate);
      s.(meta := m.(pending := Some(Pending(prior, c, s.command.target.value.Recorded())), retired := m.retired + {prior}),
         command := Fenced(prior, c), base := |s.servers[c].wal|, verified := false)
    case PromoteResume => s.(command := Fenced(s.command.prior, s.command.candidate))
    case PromoteServer => WithServer(s, s.command.candidate, s.servers[s.command.candidate].(signal := false))
    case PromoteFinish =>
      var (prior, c) := (s.command.prior, s.command.candidate);
      s.(meta := Meta(c, m.epoch + 1, m.retired, None, m.names[prior := m.names[c]][c := None]), command := Idle, switches := s.switches + 1)
  }

  // ------------------------------------------------------------- invariants

  /** The node whose history counts: the promised next primary while a promotion is pending. */
  function Lead(s: State): nat {
    match s.meta.pending
    case Some(p) => p.next
    case None => s.meta.current
  }

  /** A node that is neither the lead nor fenced off and has data. */
  predicate Follower(s: State, n: nat) {
    n < |s.servers| && s.servers[n].present && n !in s.meta.retired && n != Lead(s)
  }

  ghost predicate MetaInv(s: State) {
    var m := s.meta;
    && m.current < |s.servers| == |m.names| && m.epoch == 1 + s.switches && Lead(s) < |s.servers| && Lead(s) !in m.retired
    && s.servers[Lead(s)].present
    && (forall p | m.pending == Some(p) ::
          p.from == m.current && p.from in m.retired && p.lsn <= |s.servers[p.next].wal|)
  }

  /** Fenced branches do not run. */
  ghost predicate RetiredInv(s: State) {
    forall n: nat | n in s.meta.retired && n < |s.servers| :: !s.servers[n].running
  }

  /** Followers are standbys. */
  ghost predicate FollowersInv(s: State) {
    forall n: nat | Follower(s, n) :: s.servers[n].signal
  }

  /** SQL never shows more than is on disk. */
  ghost predicate LsnInv(s: State) {
    forall n: nat | n < |s.servers| :: s.servers[n].LsnOk()
  }

  /** Exactly the primary has no replication identity, and no two nodes share one. */
  ghost predicate NamesInv(s: State) {
    && (forall n: nat | n < |s.meta.names| :: s.meta.names[n].None? <==> n == s.meta.current)
    && (forall i: nat, j: nat | i < j < |s.meta.names| :: s.meta.names[i].Some? ==> s.meta.names[i] != s.meta.names[j])
  }

  ghost predicate CommandInv(s: State)
    requires MetaInv(s)
  {
    match s.command
    case Idle => true
    case Promoting(prior, c, target, compared) =>
      && prior == s.meta.current && !s.servers[prior].running
      && c != prior && c < |s.servers| && c !in s.meta.retired
      && (s.meta.pending.Some? ==> c == s.meta.pending.value.next)
      && (target.Some? ==> target.value.Shown() <= |s.servers[c].wal| && (target.value.inRecovery || !s.servers[c].signal))
      && (target.Some? && target.value.inRecovery ==> s.servers[c].present)
      && (target.None? ==> compared == map[])
      && (forall n | n in compared :: Other(s, prior, c, n) && s.servers[n].present && (compared[n] ==> |s.servers[n].wal| <= |s.servers[c].wal|))
    case Fenced(prior, c) => s.meta.pending.Some? && s.meta.pending.value.from == prior && s.meta.pending.value.next == c
    case Rebuilding(n) => s.meta.pending.None? && n < |s.servers| && n != s.meta.current
    case Copied(n) =>
      s.meta.pending.None? && n < |s.servers| && n != s.meta.current && s.servers[n].present && s.servers[n].signal && !s.servers[n].running
  }

  ghost predicate Inv(s: State) {
    MetaInv(s) && RetiredInv(s) && FollowersInv(s) && LsnInv(s) && NamesInv(s) && CommandInv(s)
  }

  /** Only the lead can accept writes. */
  lemma OnlyLeadWritable(s: State, n: nat)
    requires MetaInv(s) && RetiredInv(s) && FollowersInv(s) && Writable(s, n)
    ensures n == Lead(s)
  {
    assert n !in s.meta.retired;
    assert !Follower(s, n);
  }

  lemma MetaKept(s: State, l: Label)
    requires Inv(s) && Enabled(s, l)
    ensures MetaInv(Apply(s, l))
  {
    hide Inv, Enabled, Apply, MetaInv;
    if l.RebuildRelease? || l.PromoteIntent? || l.PromoteFinish? { MetaChanges(s, l); } else { MetaStays(s, l); }
  }

  /** The steps that save new metadata. */
  lemma MetaChanges(s: State, l: Label)
    requires Inv(s) && Enabled(s, l) && (l.RebuildRelease? || l.PromoteIntent? || l.PromoteFinish?)
    ensures MetaInv(Apply(s, l))
  {
    hide NamesInv, RetiredInv, FollowersInv, LsnInv;
  }

  lemma MetaStays(s: State, l: Label)
    requires Inv(s) && Enabled(s, l) && !l.RebuildRelease? && !l.PromoteIntent? && !l.PromoteFinish?
    ensures MetaInv(Apply(s, l))
  {
    if l.Commit? { OnlyLeadWritable(s, l.node); }
    hide NamesInv, RetiredInv, FollowersInv, LsnInv;
  }

  lemma RetiredKept(s: State, l: Label)
    requires Inv(s) && Enabled(s, l)
    ensures RetiredInv(Apply(s, l))
  {
    hide NamesInv, FollowersInv, LsnInv;
  }

  lemma FollowersKept(s: State, l: Label)
    requires Inv(s) && Enabled(s, l) && MetaInv(Apply(s, l))
    ensures FollowersInv(Apply(s, l))
  {
    hide NamesInv, RetiredInv, LsnInv;
    var t := Apply(s, l);
    forall n: nat | Follower(t, n) ensures t.servers[n].signal {
      assert Follower(s, n) || ((l.RebuildRelease? || l.RebuildCopy?) && n == s.command.node) || (l.Copy? && n == l.node);
    }
  }

  lemma LsnKept(s: State, l: Label)
    requires Inv(s) && Enabled(s, l)
    ensures LsnInv(Apply(s, l))
  {
    hide NamesInv, RetiredInv, FollowersInv, CommandInv;
  }

  lemma NamesKept(s: State, l: Label)
    requires Inv(s) && Enabled(s, l)
    ensures NamesInv(Apply(s, l))
  {
    hide RetiredInv, FollowersInv;
  }

  lemma CommandKept(s: State, l: Label)
    requires Inv(s) && Enabled(s, l) && MetaInv(Apply(s, l))
    ensures CommandInv(Apply(s, l))
  {
    hide Inv, Enabled, Apply, MetaInv, CommandInv;
    if l.PromoteRead? {
      ReadKeeps(s);
    } else if l.PromoteCompare? {
      CompareKeeps(s, l.node);
    } else if l.Commit? || l.Stream? {
      GrowthKeepsCommand(s, l);
    } else if ServersOnly(l) {
      ServersKeepCommand(s, l);
    } else {
      OtherKeepsCommand(s, l);
    }
  }

  /** Steps of one server that leave metadata and command alone. */
  predicate ServersOnly(l: Label) {
    l.Replay? || l.Die? || l.Configure? || l.Start? || l.Copy? || l.PromoteStart? || l.PromoteServer?
  }

  lemma ReadKeeps(s: State)
    requires Inv(s) && Enabled(s, PromoteRead) && MetaInv(Apply(s, PromoteRead))
    ensures CommandInv(Apply(s, PromoteRead))
  {
    hide NamesInv, RetiredInv, FollowersInv;
    assert s.servers[s.command.candidate].LsnOk();
  }

  lemma CompareKeeps(s: State, n: nat)
    requires Inv(s) && Enabled(s, PromoteCompare(n)) && MetaInv(Apply(s, PromoteCompare(n)))
    ensures CommandInv(Apply(s, PromoteCompare(n)))
  {
    hide NamesInv, RetiredInv, FollowersInv, LsnInv;
  }

  lemma GrowthKeepsCommand(s: State, l: Label)
    requires Inv(s) && Enabled(s, l) && MetaInv(Apply(s, l))
    requires l.Commit? || l.Stream?
    ensures CommandInv(Apply(s, l))
  {
    OnlyLeadWritable(s, if l.Commit? then l.node else l.leader);
    hide RetiredInv, FollowersInv;
    if s.command.Promoting? { ComparedStay(s, l); }
  }

  lemma ServersKeepCommand(s: State, l: Label)
    requires Inv(s) && Enabled(s, l) && MetaInv(Apply(s, l)) && ServersOnly(l)
    ensures CommandInv(Apply(s, l))
  {
    hide NamesInv, RetiredInv, FollowersInv, LsnInv;
  }

  lemma OtherKeepsCommand(s: State, l: Label)
    requires Inv(s) && Enabled(s, l) && MetaInv(Apply(s, l))
    requires !l.PromoteRead? && !l.PromoteCompare? && !l.Commit? && !l.Stream? && !ServersOnly(l)
    ensures CommandInv(Apply(s, l))
  {
    hide NamesInv, RetiredInv, FollowersInv, LsnInv;
  }

  /** While candidates are compared, only the candidate itself can gain history and stream it. */
  lemma ComparedStay(s: State, l: Label)
    requires MetaInv(s) && CommandInv(s) && s.command.Promoting? && Enabled(s, l) && MetaInv(Apply(s, l))
    requires (l.Commit? && l.node == Lead(s)) || (l.Stream? && l.leader == Lead(s))
    ensures CommandInv(Apply(s, l))
  {
    assert s.meta.pending.Some?;
  }

  // ---------------------------------------------------------- whole runs

  lemma StepKeeps(s: State, l: Label)
    requires Inv(s) && Enabled(s, l)
    ensures Inv(Apply(s, l))
  {
    hide Enabled, Apply, MetaInv, RetiredInv, FollowersInv, LsnInv, NamesInv, CommandInv;
    MetaKept(s, l);
    RetiredKept(s, l);
    FollowersKept(s, l);
    NamesKept(s, l);
    CommandKept(s, l);
    LsnKept(s, l);
  }

  /** A freshly initialised lab: the primary alone has data. */
  ghost predicate Init(s: State) {
    && |s.servers| > 0 && |s.meta.names| == |s.servers|
    && (forall n: nat | n < |s.servers| :: s.servers[n] == Server(n == 0, false, false, [], None, 0))
    && s.meta.(names := []) == Meta(0, 1, {}, None, []) && NamesInv(s)
    && s.command == Idle && s.safe == [] && s.base == 0 && s.verified && s.switches == 0
  }

  ghost predicate Next(s: State, t: State) {
    exists l :: Enabled(s, l) && t == Apply(s, l)
  }

  ghost predicate IsRun(ss: seq<State>) {
    && ss != [] && Init(ss[0])
    && forall i | 0 <= i < |ss| - 1 :: Next(ss[i], ss[i + 1])
  }

  lemma {:induction false} RunKeeps(ss: seq<State>, i: nat)
    requires IsRun(ss) && i < |ss|
    ensures Inv(ss[i])
  {
    hide Enabled, Apply;
    if i == 0 {
      hide NamesInv;
    } else {
      hide Inv, Init;
      RunKeeps(ss, i - 1);
      assert Next(ss[i - 1], ss[i]);
      var l :| Enabled(ss[i - 1], l) && ss[i] == Apply(ss[i - 1], l);
      StepKeeps(ss[i - 1], l);
    }
  }

  /**
   * At every point of every run, the servers that could accept writes if they ran, those with data, without
   * standby.signal and not fenced off, are at most one: the primary, or the candidate of a pending promotion.
   */
  lemma OneWritableLineage(ss: seq<State>, i: nat, n: nat)
    requires IsRun(ss) && i < |ss|
    ensures var s := ss[i];
      && (n < |s.servers| && s.servers[n].present && !s.servers[n].signal && n !in s.meta.retired ==> n == Lead(s))
      && (Writable(s, n) ==> n == Lead(s))
  {
    RunKeeps(ss, i);
    var s := ss[i];
    hide IsRun, NamesInv, CommandInv;
    if Writable(s, n) { OnlyLeadWritable(s, n); }
  }

  /** The epoch rises by one with each promotion, which is the only thing that changes the primary. */
  lemma EpochCountsPromotions(s: State, l: Label)
    requires Inv(s) && Enabled(s, l)
    ensures var t := Apply(s, l);
      && t.meta.epoch == s.meta.epoch + (if l.PromoteFinish? then 1 else 0)
      && (t.meta.current != s.meta.current <==> l.PromoteFinish?)
      && (l.PromoteFinish? ==> s.meta.pending.Some? && t.meta.current == s.meta.pending.value.next && s.meta.current in t.meta.retired)
  {
    hide FollowersInv, RetiredInv, NamesInv;
  }

  /** Once promoted, a pending candidate is never made a standby again, and never loses history. */
  lemma PromotedStays(s: State, l: Label)
    requires Inv(s) && Enabled(s, l) && s.meta.pending.Some?
    ensures var c, t := s.meta.pending.value.next, Apply(s, l);
      && Lead(t) == c && s.servers[c].wal <= t.servers[c].wal
      && (!s.servers[c].signal ==> !t.servers[c].signal)
  {
    if l.Stream? { OnlyLeadWritable(s, l.leader); }
    hide FollowersInv, RetiredInv, NamesInv;
  }

  // ------------------------------------------------------- flushed history

  /** Some node other than the lead and not fenced off holds all flushed history, or is being copied anew. */
  ghost predicate Covered(s: State) {
    s.safe == []
    || exists n: nat :: n < |s.servers| && n !in s.meta.retired && n != Lead(s) && (!s.servers[n].present || s.safe <= s.servers[n].wal)
  }

  /** The flushed history is in the lead's. */
  predicate Kept(s: State) {
    Lead(s) < |s.servers| && s.safe <= s.servers[Lead(s)].wal
  }

  /** The node that a rebuild has copied but not yet released. */
  predicate Fresh(s: State, n: nat) {
    s.command == Copied(n) && n < |s.servers|
  }

  /** One lineage: what followers hold is flushed history, and that is the lead's. */
  ghost predicate Lineage(s: State) {
    && Kept(s)
    && (forall n: nat | Follower(s, n) :: s.servers[n].wal <= s.safe)
    && (forall n: nat | Fresh(s, n) :: s.servers[n].wal <= s.servers[Lead(s)].wal)
    && s.base <= |s.servers[Lead(s)].wal|
    && (if s.verified then Covered(s) else |s.safe| <= s.base)
  }

  /** The comparison as it is meant: no compared standby has more on disk than the candidate. */
  ghost predicate Ahead(s: State) {
    s.command.Promoting? && s.command.candidate < |s.servers|
    && forall n: nat | Other(s, s.command.prior, s.command.candidate, n) :: |s.servers[n].wal| <= |s.servers[s.command.candidate].wal|
  }

  /** Every compared standby showed all of its WAL when it was compared. */
  ghost predicate AllShown(s: State) {
    s.command.Promoting? && forall n | n in s.command.compared :: s.command.compared[n]
  }

  lemma ShorterPrefix<T>(a: seq<T>, b: seq<T>, c: seq<T>)
    requires a <= c && b <= c && |a| <= |b|
    ensures a <= b
  {
  }

  /**
   * What the controller compares can stand for what is on disk exactly for standbys that show all of it: a
   * comparison that a standby's position passes is right, whatever candidate it is with, if and only if it does.
   */
  lemma ComparisonIsRight(x: Server)
    requires x.LsnOk()
    ensures (forall c: Server | c.LsnOk() && Shown(x) <= Shown(c) :: |x.wal| <= |c.wal|) <==> Shown(x) == |x.wal|
  {
    var shown := Shown(x);
    if shown < |x.wal| {
      var c := Server(true, true, true, x.wal[..shown], Some(shown), shown);
      assert c.LsnOk() && Shown(c) == shown && |c.wal| < |x.wal|;
    }
  }

  /** When all of them did, the candidate is ahead of them on disk. */
  lemma ShownIsAhead(s: State)
    requires Inv(s) && AllCompared(s) && AllShown(s)
    ensures Ahead(s)
  {
    hide NamesInv, RetiredInv, FollowersInv, LsnInv;
  }

  /**
   * When a promotion has passed its comparisons and records its intent, the candidate has all flushed history
   * exactly if some non-retired standby still does and the candidate is ahead of the others on disk: the
   * primary's own copy is about to be fenced off.
   */
  lemma IntentKeepsFlushed(s: State)
    requires Inv(s) && Lineage(s) && Enabled(s, PromoteIntent)
    ensures Kept(Apply(s, PromoteIntent)) <==> Covered(s) && Ahead(s)
  {
    hide NamesInv, RetiredInv, LsnInv;
    var c := s.command.candidate;
    assert Follower(s, c);
    assert forall n: nat | Other(s, s.command.prior, c, n) :: Follower(s, n);
    assert Kept(Apply(s, PromoteIntent)) <==> s.safe <= s.servers[c].wal;
    hide Enabled, Apply;
    if Covered(s) && Ahead(s) && s.safe != [] {
      var n: nat :| n < |s.servers| && n !in s.meta.retired && n != Lead(s) && (!s.servers[n].present || s.safe <= s.servers[n].wal);
      assert n == c || Other(s, s.command.prior, c, n);
    }
  }

  lemma IntentKeepsLineage(s: State)
    requires Inv(s) && Lineage(s) && Enabled(s, PromoteIntent) && Covered(s) && Ahead(s)
    ensures Lineage(Apply(s, PromoteIntent))
  {
    hide NamesInv, RetiredInv, LsnInv;
    IntentKeepsFlushed(s);
    var t := Apply(s, PromoteIntent);
    forall n: nat | Follower(t, n) ensures Follower(s, n) {}
  }

  /** A lineage in which node n may hold more of the lead's history than is known to be flushed. */
  ghost predicate LineageBut(s: State, n: nat) {
    && Kept(s) && n < |s.servers| && n != Lead(s) && s.servers[n].present && s.servers[n].wal <= s.servers[Lead(s)].wal
    && (forall m: nat | Follower(s, m) && m != n :: s.servers[m].wal <= s.safe)
    && (forall m: nat | Fresh(s, m) :: s.servers[m].wal <= s.servers[Lead(s)].wal)
    && s.base <= |s.servers[Lead(s)].wal|
    && (if s.verified then Covered(s) || |s.safe| <= |s.servers[n].wal| else |s.safe| <= s.base)
  }

  /** Counting what the node holds as flushed makes the lineage whole. */
  lemma NotedKeeps(s: State, n: nat)
    requires LineageBut(s, n) && (n in s.meta.retired ==> (s.verified ==> Covered(s)))
    ensures Lineage(Noted(s, n))
  {
    var t := Noted(s, n);
    if n !in s.meta.retired {
      var w := s.servers[n].wal;
      if |w| >= |s.safe| {
        ShorterPrefix(s.safe, w, s.servers[Lead(s)].wal);
        assert t.safe == w;
        assert Covered(t);
      } else {
        ShorterPrefix(w, s.safe, s.servers[Lead(s)].wal);
        assert t.safe == s.safe;
        assert Covered(s) ==> Covered(t);
      }
    }
  }

  /** Steps in which no standby gains history. */
  predicate Quiet(l: Label) {
    !l.Stream? && !l.Copy? && !l.RebuildCopy? && !l.RebuildRelease? && !l.PromoteIntent?
  }

  lemma QuietLead(s: State, l: Label)
    requires Inv(s) && Enabled(s, l) && Quiet(l) && (l.Commit? ==> l.node == Lead(s))
    ensures var t := Apply(s, l);
      && Lead(t) == Lead(s) && |t.servers| == |s.servers| && s.servers[Lead(s)].wal <= t.servers[Lead(s)].wal
      && t.safe == s.safe && t.base == s.base && t.verified == s.verified && t.meta.retired == s.meta.retired
      && (forall n: nat | Fresh(t, n) :: Fresh(s, n))
  {
    hide NamesInv, FollowersInv, RetiredInv, LsnInv;
  }

  /** No other node gains or loses history, though its directory may go. */
  lemma QuietOthers(s: State, l: Label, n: nat)
    requires Enabled(s, l) && Quiet(l) && (l.Commit? ==> l.node == Lead(s)) && n < |s.servers| && n != Lead(s)
    ensures var t := Apply(s, l);
      n < |t.servers| && t.servers[n].wal == s.servers[n].wal && (t.servers[n].present ==> s.servers[n].present)
  {
  }

  lemma QuietKeeps(s: State, l: Label)
    requires Inv(s) && Lineage(s) && Enabled(s, l) && Quiet(l) && (l.Commit? ==> l.node == Lead(s))
    ensures Lineage(Apply(s, l))
  {
    var t := Apply(s, l);
    QuietLead(s, l);
    forall n: nat | n < |s.servers| && n != Lead(s)
      ensures t.servers[n].wal == s.servers[n].wal && (t.servers[n].present ==> s.servers[n].present)
    {
      QuietOthers(s, l, n);
    }
    FreshIsNotLead(s);
    hide Enabled, Apply, Inv;
    LineageWithin(s, t);
  }

  lemma FreshIsNotLead(s: State)
    requires Inv(s)
    ensures forall n: nat | Fresh(s, n) :: n != Lead(s)
  {
    hide NamesInv, FollowersInv, RetiredInv, LsnInv;
  }

  /** A lineage stays one while its lead grows and the others at most lose their directories. */
  lemma LineageWithin(s: State, t: State)
    requires Lineage(s) && Lead(t) == Lead(s) && |t.servers| == |s.servers| && s.servers[Lead(s)].wal <= t.servers[Lead(s)].wal
    requires t.safe == s.safe && t.base == s.base && t.verified == s.verified && t.meta.retired == s.meta.retired
    requires forall n: nat | n < |s.servers| && n != Lead(s) ::
               t.servers[n].wal == s.servers[n].wal && (t.servers[n].present ==> s.servers[n].present)
    requires forall n: nat | Fresh(t, n) :: Fresh(s, n) && n != Lead(s)
    ensures Lineage(t)
  {
    assert forall n: nat | Follower(t, n) :: Follower(s, n);
    if Covered(s) && s.safe != [] {
      var n: nat :| n < |s.servers| && n !in s.meta.retired && n != Lead(s) && (!s.servers[n].present || s.safe <= s.servers[n].wal);
      assert n < |t.servers|;
    }
  }

  lemma StreamKeeps(s: State, l: Label)
    requires Inv(s) && Lineage(s) && Enabled(s, l) && l.Stream? && l.leader == Lead(s)
    ensures Lineage(Apply(s, l))
  {
    hide NamesInv, FollowersInv, RetiredInv, LsnInv;
    var n := l.node;
    var u := WithServer(s, n, s.servers[n].(wal := s.servers[l.leader].wal[..l.upTo], received := Some(l.upTo)));
    assert Lead(u) == Lead(s) && u.servers[Lead(s)] == s.servers[Lead(s)];
    assert forall m: nat | Follower(u, m) && m != n :: Follower(s, m);
    CoveredStays(s, u, n);
    NotedKeeps(u, n);
  }

  /** Changing one node covers what was covered, if that node loses nothing. */
  lemma CoveredStays(s: State, u: State, n: nat)
    requires u.safe == s.safe && |u.servers| == |s.servers| && u.meta.retired <= s.meta.retired && Lead(u) == Lead(s) && n < |s.servers|
    requires forall m: nat | m < |s.servers| && m != n :: u.servers[m] == s.servers[m]
    requires !s.servers[n].present || s.servers[n].wal <= u.servers[n].wal
    ensures Covered(s) ==> Covered(u) || s.safe <= u.servers[n].wal || !s.servers[n].present
  {
    if Covered(s) && s.safe != [] {
      var m: nat :| m < |s.servers| && m !in s.meta.retired && m != Lead(s) && (!s.servers[m].present || s.safe <= s.servers[m].wal);
      assert m < |u.servers|;
    }
  }

  lemma CopyKeeps(s: State, l: Label)
    requires Inv(s) && Lineage(s) && Enabled(s, l) && (l.Copy? || l.RebuildCopy?)
    ensures Lineage(Apply(s, l))
  {
    hide NamesInv, FollowersInv, RetiredInv, LsnInv;
    var n := if l.Copy? then l.node else s.command.node;
    var u := WithServer(s, n, CopyOf(s.servers[s.meta.current])).(command := if l.Copy? then s.command else Copied(n));
    assert Lead(u) == Lead(s) == s.meta.current && u.servers[Lead(s)] == s.servers[Lead(s)];
    assert s.safe <= u.servers[n].wal;
    assert forall m: nat | Follower(u, m) && m != n :: Follower(s, m);
    if n in s.meta.retired { RetiredCovers(s, u, n); }
    NotedKeeps(u, n);
  }

  /** A retired node covers nothing, so changing it uncovers nothing. */
  lemma RetiredCovers(s: State, u: State, n: nat)
    requires n in s.meta.retired && u.safe == s.safe && |u.servers| == |s.servers| && u.meta == s.meta
    requires forall m: nat | m < |s.servers| && m != n :: u.servers[m] == s.servers[m]
    ensures Covered(s) ==> Covered(u)
  {
    if Covered(s) && s.safe != [] {
      var m: nat :| m < |s.servers| && m !in s.meta.retired && m != Lead(s) && (!s.servers[m].present || s.safe <= s.servers[m].wal);
      assert m < |u.servers|;
    }
  }

  lemma ReleaseKeeps(s: State, l: Label)
    requires Inv(s) && Lineage(s) && Enabled(s, l) && l.RebuildRelease?
    ensures Lineage(Apply(s, l))
  {
    hide NamesInv, FollowersInv, RetiredInv, LsnInv;
    var n := s.command.node;
    var u := s.(meta := s.meta.(retired := s.meta.retired - {n}), command := Idle);
    assert Fresh(s, n);
    assert Lead(u) == Lead(s);
    assert forall m: nat | Follower(u, m) && m != n :: Follower(s, m);
    CoveredStays(s, u, n);
    NotedKeeps(u, n);
  }

  /** Every step keeps the lineage, an intent that is not covered or whose candidate is not ahead aside. */
  lemma StepKeepsLineage(s: State, l: Label)
    requires Inv(s) && Lineage(s) && Enabled(s, l)
    requires l.PromoteIntent? ==> Covered(s) && Ahead(s)
    ensures Lineage(Apply(s, l))
  {
    if l.Commit? || l.Stream? { OnlyLeadWritable(s, if l.Commit? then l.node else l.leader); }
    hide Enabled, Apply, Inv, Lineage;
    match l {
      case PromoteIntent => IntentKeepsLineage(s);
      case Stream(_, _, _) => StreamKeeps(s, l);
      case Copy(_) => CopyKeeps(s, l);
      case RebuildCopy => CopyKeeps(s, l);
      case RebuildRelease => ReleaseKeeps(s, l);
      case _ => QuietKeeps(s, l);
    }
  }

  // ------------------------------------------------- flushed history in runs

  /** An intent is recorded after state i: nothing was pending and then something is. */
  predicate IntentAt(ss: seq<State>, i: nat) {
    i + 1 < |ss| && ss[i].meta.pending.None? && ss[i + 1].meta.pending.Some?
  }

  lemma IntentSetsPending(s: State, l: Label)
    requires Enabled(s, l)
    ensures l.PromoteIntent? <==> s.meta.pending.None? && Apply(s, l).meta.pending.Some?
  {
  }

  lemma InitLineage(s: State)
    requires Init(s)
    ensures Lineage(s)
  {
    hide NamesInv;
  }

  lemma {:induction false} LineageWhile(ss: seq<State>, i: nat)
    requires IsRun(ss) && i < |ss| && forall j: nat | j < i && IntentAt(ss, j) :: Covered(ss[j]) && Ahead(ss[j])
    ensures Lineage(ss[i])
  {
    hide Enabled, Apply, Covered, Ahead, Init, Inv, Lineage;
    if i == 0 {
      InitLineage(ss[0]);
    } else {
      LineageWhile(ss, i - 1);
      RunKeeps(ss, i - 1);
      var s, t := ss[i - 1], ss[i];
      assert Next(s, t);
      var l :| Enabled(s, l) && t == Apply(s, l);
      IntentSetsPending(s, l);
      StepKeepsLineage(s, l);
    }
  }

  lemma {:induction false} KeptIntents(ss: seq<State>, i: nat)
    requires IsRun(ss) && i < |ss| && forall j: nat | j < |ss| :: Kept(ss[j])
    ensures forall j: nat | j < i && IntentAt(ss, j) :: Covered(ss[j]) && Ahead(ss[j])
  {
    hide Enabled, Apply, Covered, Ahead, Init, Inv, Lineage, Kept;
    if i > 0 {
      KeptIntents(ss, i - 1);
      if IntentAt(ss, i - 1) {
        LineageWhile(ss, i - 1);
        RunKeeps(ss, i - 1);
        var s, t := ss[i - 1], ss[i];
        assert Next(s, t);
        var l :| Enabled(s, l) && t == Apply(s, l);
        IntentSetsPending(s, l);
        IntentKeepsFlushed(s);
      }
    }
  }

  /**
   * In every run, crashes anywhere included, all history that any standby has had on disk is in the lead's at
   * every moment exactly if, whenever an intent was recorded, some non-retired standby still held all of it
   * and the candidate was ahead of the others on disk.
   */
  lemma FlushedHistoryKept(ss: seq<State>)
    requires IsRun(ss)
    ensures (forall i: nat | i < |ss| :: Kept(ss[i])) <==> forall i: nat | IntentAt(ss, i) :: Covered(ss[i]) && Ahead(ss[i])
  {
    hide IsRun, Covered, Ahead, Kept;
    if forall i: nat | IntentAt(ss, i) :: Covered(ss[i]) && Ahead(ss[i]) {
      forall i: nat | i < |ss| ensures Kept(ss[i]) {
        LineageWhile(ss, i);
        LineageKeeps(ss[i]);
      }
    }
    if forall i: nat | i < |ss| :: Kept(ss[i]) {
      forall i: nat | IntentAt(ss, i) ensures Covered(ss[i]) && Ahead(ss[i]) {
        KeptIntents(ss, i + 1);
      }
    }
  }

  lemma LineageKeeps(s: State)
    requires Lineage(s)
    ensures Kept(s) && (s.verified ==> Covered(s))
  {
    hide Covered;
  }

  /** What an operator can look at: the last promotion was followed by a standby catching up, and SQL showed all WAL. */
  ghost predicate IntentsShown(ss: seq<State>) {
    forall i: nat | IntentAt(ss, i) :: (ss[i].verified || Covered(ss[i])) && AllShown(ss[i])
  }

  /** That is enough. */
  lemma {:induction false} ShownIntentsKeep(ss: seq<State>, i: nat)
    requires IsRun(ss) && IntentsShown(ss) && i < |ss|
    ensures Kept(ss[i]) && forall j: nat | j < i && IntentAt(ss, j) :: Covered(ss[j]) && Ahead(ss[j])
  {
    hide Enabled, Apply, Covered, Ahead, Init, Inv, Lineage, Kept, AllShown;
    if i > 0 {
      ShownIntentsKeep(ss, i - 1);
      if IntentAt(ss, i - 1) {
        LineageWhile(ss, i - 1);
        LineageKeeps(ss[i - 1]);
        RunKeeps(ss, i - 1);
        var s, t := ss[i - 1], ss[i];
        assert Next(s, t);
        var l :| Enabled(s, l) && t == Apply(s, l);
        IntentSetsPending(s, l);
        IntentHasCompared(s);
        ShownIsAhead(s);
      }
    }
    LineageWhile(ss, i);
    LineageKeeps(ss[i]);
  }

  lemma IntentHasCompared(s: State)
    requires Enabled(s, PromoteIntent)
    ensures AllCompared(s)
  {
  }

  // ------------------------------------------------------------ examples

  /** A run can go on with any enabled step. */
  lemma Extend(ss: seq<State>, l: Label) returns (tt: seq<State>)
    requires IsRun(ss) && ss != [] && Enabled(ss[|ss| - 1], l)
    ensures IsRun(tt) && |tt| == |ss| + 1 && tt[|tt| - 1] == Apply(ss[|ss| - 1], l) && tt[|tt| - 2] == ss[|ss| - 1]
  {
    hide Enabled, Apply, Init;
    tt := ss + [Apply(ss[|ss| - 1], l)];
    forall i | 0 <= i < |tt| - 1 ensures Next(tt[i], tt[i + 1]) {
      if i < |ss| - 1 {
        assert Next(ss[i], ss[i + 1]);
      } else {
        assert Enabled(tt[i], l);
      }
    }
  }

  /**
   * The wait for the WAL that an intent recorded can always end: whatever happened since, a crashed promotion can
   * be taken up again, its candidate started, and be read once it has replayed what is on its disk.
   */
  lemma ResumeCanRead(ss: seq<State>) returns (tt: seq<State>)
    requires IsRun(ss) && ss[|ss| - 1].meta.pending.Some? && ss[|ss| - 1].command == Idle
    ensures IsRun(tt) && |ss| < |tt| && ss[|ss| - 1].meta == tt[|tt| - 1].meta
    ensures tt[|tt| - 1].command.Promoting? && tt[|tt| - 1].command.target.Some?
    ensures tt[|tt| - 1].command.target.value.Shown() >= ss[|ss| - 1].meta.pending.value.lsn
  {
    RunKeeps(ss, |ss| - 1);
    var s := ss[|ss| - 1];
    var c := s.meta.pending.value.next;
    ResumeIsEnabled(s);
    hide Inv, Enabled, IsRun, Shown;
    tt := Extend(ss, PromoteBegin(c));
    tt := Extend(tt, PromoteStart(c, |s.servers[c].wal|));
    tt := Extend(tt, PromoteRead);
  }

  lemma ResumeIsEnabled(s: State)
    requires Inv(s) && s.meta.pending.Some? && s.command == Idle
    ensures var c := s.meta.pending.value.next;
      && c < |s.servers| && Enabled(s, PromoteBegin(c))
      && var t := Apply(s, PromoteBegin(c));
      && Enabled(t, PromoteStart(c, |s.servers[c].wal|))
      && var u := Apply(t, PromoteStart(c, |s.servers[c].wal|));
      && Enabled(u, PromoteRead) && Shown(u.servers[c]) >= s.meta.pending.value.lsn
  {
    hide NamesInv, FollowersInv, LsnInv;
  }

  const NAMES: seq<Option<nat>> := [None, Some(0), Some(1)]
  const SWAPPED: seq<Option<nat>> := [Some(0), None, Some(1)]
  const ABSENT := Server(false, false, false, [], None, 0)
  const FOLLOWS := Server(true, true, true, [], None, 0)
  const LEADS := Server(true, false, true, [], None, 0)
  const HOLDS := Server(true, true, true, [7], Some(1), 0)
  const DOWN := Server(true, false, false, [7], None, 0)
  const FIRST := Meta(0, 1, {}, None, NAMES)
  const SECOND := Meta(1, 2, {0}, None, SWAPPED)

  /** The primary runs with two standbys. */
  lemma ExampleStart() returns (ss: seq<State>)
    ensures IsRun(ss) && ss != [] && ss[|ss| - 1] == State([LEADS, FOLLOWS, FOLLOWS], FIRST, Idle, [], 0, true, 0)
  {
    var s := State([LEADS.(running := false), ABSENT, ABSENT], FIRST, Idle, [], 0, true, 0);
    ss := [s];
    assert IsRun(ss);
    hide IsRun, Init;
    ss := Extend(ss, Start(0, 0));
    ss := Extend(ss, Copy(1));
    ss := Extend(ss, Start(1, 0));
    ss := Extend(ss, Copy(2));
    ss := Extend(ss, Start(2, 0));
    assert ss[|ss| - 1].servers == [LEADS, FOLLOWS, FOLLOWS];
  }

  /** A commit reaches the second server; then the primary stops. */
  lemma ExampleCommit() returns (ss: seq<State>)
    ensures IsRun(ss) && ss != []
    ensures ss[|ss| - 1] == State([DOWN.(running := true), HOLDS, FOLLOWS], FIRST, Idle, [7], 0, true, 0)
  {
    ss := ExampleStart();
    hide IsRun;
    ss := Extend(ss, Commit(0, 7));
    assert [] + [7] == [7];
    ss := Extend(ss, Stream(1, 0, 1));
    assert [7][..1] == [7];
    assert ss[|ss| - 1].servers == [DOWN.(running := true), HOLDS, FOLLOWS];
  }

  /** The second server is promoted and stops before the third has caught up. */
  lemma ExamplePromotion() returns (ss: seq<State>)
    ensures IsRun(ss) && ss != []
    ensures ss[|ss| - 1] == State([DOWN, HOLDS.(signal := false, running := false), FOLLOWS], SECOND, Idle, [7], 1, false, 1)
  {
    ss := ExampleCommit();
    hide IsRun;
    ss := Extend(ss, Die(0));
    ss := Extend(ss, PromoteBegin(1));
    ss := Extend(ss, PromoteRead);
    ss := Extend(ss, PromoteCompare(2));
    ss := Extend(ss, PromoteIntent);
    ss := Extend(ss, PromoteServer);
    ss := Extend(ss, PromoteFinish);
    assert ss[|ss| - 1].meta == SECOND;
    ss := Extend(ss, Die(1));
    assert ss[|ss| - 1].servers == [DOWN, HOLDS.(signal := false, running := false), FOLLOWS];
  }

  /**
   * Coverage is needed: promoting the third server next fences off both copies of a flushed commit, although
   * every comparison the controller makes has passed.
   */
  lemma SecondPromotionLosesFlushed() returns (ss: seq<State>)
    ensures IsRun(ss) && |ss| >= 2 && IntentAt(ss, |ss| - 2) && AllShown(ss[|ss| - 2]) && !Kept(ss[|ss| - 1])
  {
    ss := ExamplePromotion();
    hide IsRun;
    ss := Extend(ss, PromoteBegin(2));
    ss := Extend(ss, PromoteRead);
    ss := Extend(ss, PromoteIntent);
    assert ss[|ss| - 1].safe == [7] && ss[|ss| - 1].servers[Lead(ss[|ss| - 1])].wal == [];
  }

  /**
   * So is looking at the disk: a standby that was restarted without its upstream shows, before it has replayed
   * its WAL, less than it has, and a candidate without the commit passes the comparison with it.
   */
  lemma LaggingReplayLosesFlushed() returns (ss: seq<State>)
    ensures IsRun(ss) && |ss| >= 2 && IntentAt(ss, |ss| - 2) && Covered(ss[|ss| - 2]) && !Kept(ss[|ss| - 1])
  {
    ss := ExampleCommit();
    hide IsRun;
    ss := Extend(ss, Die(0));
    ss := Extend(ss, Die(1));
    ss := Extend(ss, Start(1, 0));
    ss := Extend(ss, PromoteBegin(2));
    ss := Extend(ss, PromoteRead);
    ss := Extend(ss, PromoteCompare(1));
    assert ss[|ss| - 1].servers[1].wal == [7] && ss[|ss| - 1].safe == [7];
    ss := Extend(ss, PromoteIntent);
    assert ss[|ss| - 1].safe == [7] && ss[|ss| - 1].servers[Lead(ss[|ss| - 1])].wal == [];
  }

  /** But a lagging standby does no harm when the candidate is ahead of it anyway: showing all WAL is not necessary. */
  lemma LaggingReplayCanKeep() returns (ss: seq<State>)
    ensures IsRun(ss) && |ss| >= 2 && IntentAt(ss, |ss| - 2) && !AllShown(ss[|ss| - 2]) && Kept(ss[|ss| - 1])
    ensures ss[|ss| - 1].safe == [7]
  {
    ss := ExampleCommit();
    hide IsRun;
    ss := Extend(ss, Stream(2, 0, 1));
    assert [7][..1] == [7];
    ss := Extend(ss, Die(0));
    ss := Extend(ss, Die(1));
    ss := Extend(ss, Start(1, 0));
    ss := Extend(ss, PromoteBegin(2));
    ss := Extend(ss, PromoteRead);
    ss := Extend(ss, PromoteCompare(1));
    assert !ss[|ss| - 1].command.compared[1];
    ss := Extend(ss, PromoteIntent);
    assert ss[|ss| - 1].safe == [7] && ss[|ss| - 1].servers[Lead(ss[|ss| - 1])].wal == [7];
  }

  // ------------------------------------------- what steps do, and can do

  /** No step takes WAL from a server, except that a rebuild archives the data of a stopped one. */
  lemma HistoryStays(s: State, l: Label, n: nat)
    requires Inv(s) && Enabled(s, l) && n < |s.servers| && s.servers[n].present
    ensures var t := Apply(s, l);
      && |t.servers| == |s.servers| && s.servers[n].wal <= t.servers[n].wal
      && (t.servers[n].present || (l == RebuildArchive(n) && !s.servers[n].running && n != s.meta.current))
  {
    hide NamesInv, RetiredInv, FollowersInv, LsnInv, CommandInv;
  }

  /** No step makes a primary a standby, and none but its promotion makes a standby a primary. */
  lemma RolesStay(s: State, l: Label, n: nat)
    requires Inv(s) && Enabled(s, l) && n < |s.servers| && s.servers[n].present
    ensures var t := Apply(s, l);
      && (n == s.meta.current && !s.servers[n].signal ==> !t.servers[n].signal)
      && (s.servers[n].signal && !t.servers[n].signal ==> l == PromoteServer && s.meta.pending.Some? && n == s.meta.pending.value.next)
  {
    hide NamesInv, RetiredInv, FollowersInv, LsnInv;
  }

  /** A resumed promotion goes on only with a candidate that shows at least what its intent recorded. */
  ghost predicate WaitedFor(s: State) {
    s.command.Promoting? && s.meta.pending.Some? && s.command.target.Some? ==> s.command.target.value.Shown() >= s.meta.pending.value.lsn
  }

  lemma StepWaits(s: State, l: Label)
    requires Enabled(s, l) && WaitedFor(s)
    ensures WaitedFor(Apply(s, l))
  {
  }

  lemma {:induction false} ResumeWaits(ss: seq<State>, i: nat)
    requires IsRun(ss) && i < |ss|
    ensures WaitedFor(ss[i])
  {
    hide Enabled, Apply, WaitedFor;
    if i == 0 {
      NobodyPromotes(ss[0]);
    } else {
      ResumeWaits(ss, i - 1);
      var s, t := ss[i - 1], ss[i];
      assert Next(s, t);
      var l :| Enabled(s, l) && t == Apply(s, l);
      StepWaits(s, l);
    }
  }

  lemma NobodyPromotes(s: State)
    requires Init(s)
    ensures WaitedFor(s)
  {
  }

  /** A standby that lags can always replay all it has, and then shows it. */
  lemma CanCatchUp(ss: seq<State>, n: nat) returns (tt: seq<State>)
    requires IsRun(ss) && Standby(ss[|ss| - 1], n)
    ensures IsRun(tt) && tt != []
    ensures var s, t := ss[|ss| - 1], tt[|tt| - 1];
      && n < |t.servers| && t == s.(servers := s.servers[n := t.servers[n]])
      && t.servers[n].wal == s.servers[n].wal && Shown(t.servers[n]) == |t.servers[n].wal|
  {
    RunKeeps(ss, |ss| - 1);
    var s := ss[|ss| - 1];
    ReplayIsEnabled(s, n);
    hide Inv, Enabled, IsRun, Shown;
    tt := Extend(ss, Replay(n, |s.servers[n].wal|));
  }

  lemma ReplayIsEnabled(s: State, n: nat)
    requires Inv(s) && Standby(s, n)
    ensures var l := Replay(n, |s.servers[n].wal|);
      && Enabled(s, l) && Shown(Apply(s, l).servers[n]) == |s.servers[n].wal|
  {
    hide NamesInv, RetiredInv, FollowersInv, MetaInv, CommandInv;
  }

  /** A stopped server on the primary's history can be made its standby, started, and brought up to it. */
  lemma CanFollow(ss: seq<State>, n: nat, k: nat) returns (tt: seq<State>)
    requires IsRun(ss)
    requires var s := ss[|ss| - 1];
      && s.command == Idle && s.meta.pending.None? && n < |s.servers| && n != s.meta.current && n !in s.meta.retired
      && s.servers[n].present && !s.servers[n].running && Writable(s, s.meta.current) && s.servers[n].wal <= s.servers[s.meta.current].wal
      && k <= |s.servers[n].wal|
    ensures IsRun(tt) && tt != []
    ensures var s, t := ss[|ss| - 1], tt[|tt| - 1];
      var wal := s.servers[s.meta.current].wal;
      && t.command == Idle && t.meta == s.meta && t.servers == s.servers[n := Server(true, true, true, wal, Some(|wal|), k)]
  {
    NotedMeta();
    assert ss != [];
    hide IsRun, Noted;
    var s := ss[|ss| - 1];
    tt := Extend(ss, Configure(n));
    tt := Extend(tt, Start(n, k));
    var x := s.servers[n].(signal := true, running := true, received := None, replayed := k);
    assert tt[|tt| - 1] == s.(servers := s.servers[n := x]);
    var wal := s.servers[s.meta.current].wal;
    assert wal[..|wal|] == wal;
    tt := Extend(tt, Stream(n, s.meta.current, |wal|));
    assert tt[|tt| - 1].servers == s.servers[n := x.(wal := wal, received := Some(|wal|))];
  }

  /** A fenced-off server that is stopped can be rebuilt from the running primary, and follows it again. */
  lemma CanRebuild(ss: seq<State>, n: nat) returns (tt: seq<State>)
    requires IsRun(ss)
    requires var s := ss[|ss| - 1];
      && s.command == Idle && s.meta.pending.None? && n < |s.servers| && n != s.meta.current && n in s.meta.retired
      && s.servers[n].present && !s.servers[n].running && Writable(s, s.meta.current)
    ensures IsRun(tt) && tt != []
    ensures var s, t := ss[|ss| - 1], tt[|tt| - 1];
      && t.command == Idle && t.meta == s.meta.(retired := s.meta.retired - {n})
      && t.servers == s.servers[n := Server(true, true, false, s.servers[s.meta.current].wal, None, 0)]
  {
    NotedMeta();
    assert ss != [];
    hide IsRun, Noted;
    tt := Extend(ss, RebuildArchive(n));
    tt := Extend(tt, RebuildCopy);
    tt := Extend(tt, RebuildRelease);
  }

  lemma NotedMeta()
    ensures forall s: State, n: nat | n < |s.servers| ::
              Noted(s, n).servers == s.servers && Noted(s, n).meta == s.meta && Noted(s, n).command == s.command
  {
  }

  /** A crash between intent and promotion, and its resumption: the candidate becomes the primary all the same. */
  lemma CrashedPromotionFinishes() returns (ss: seq<State>)
    ensures IsRun(ss) && ss != [] && ss[|ss| - 1].meta == SECOND && ss[|ss| - 1].command == Idle
    ensures ss[|ss| - 1].servers == [DOWN, HOLDS.(signal := false), FOLLOWS] && Kept(ss[|ss| - 1])
  {
    ss := ExampleCommit();
    hide IsRun;
    ss := Extend(ss, Die(0));
    ss := Extend(ss, PromoteBegin(1));
    ss := Extend(ss, PromoteRead);
    ss := Extend(ss, PromoteCompare(2));
    ss := Extend(ss, PromoteIntent);
    ss := Extend(ss, Crash);
    ss := Extend(ss, PromoteBegin(1));
    ss := Extend(ss, PromoteRead);
    ss := Extend(ss, PromoteCompare(2));
    ss := Extend(ss, PromoteResume);
    ss := Extend(ss, PromoteServer);
    ss := Extend(ss, PromoteFinish);
    assert ss[|ss| - 1].servers == [DOWN, HOLDS.(signal := false), FOLLOWS];
  }
}
