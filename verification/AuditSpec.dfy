/**
 * What the streaming audit of cmd/filebench and cmd/framebench decides, stated on the whole journal: the
 * client's ledger of attempt states and frame receipts explains the journal, attempt by attempt.
 */
module AuditSpec {
  import opened Bits
  import opened Bytes
  import opened Wrappers
  import opened Sets
  import FileCodec

  type Input = FileCodec.Input
  type Vote = FileCodec.Vote

  datatype Program = FileBench | FrameBench

  /** The client's state of one attempt. */
  datatype Outcome = Never | Unknown | Acked | Rejected

  datatype Place = Place(partition: int, offset: int)

  /** One vote as the replayer hands it to the visitor. */
  datatype Visited = Visited(place: Place, index: int, vote: Vote)

  /** A receipt of the client's ledger. */
  datatype Ack = Ack(place: Place, count: u32, admittedAt: i64, digest: seq<u8>)

  /** An attempt: a synthetic key with choice 1, the original, or 2, its repeat. */
  datatype Attempt = Attempt(key: int, choice: int)

  /**
   * The manifest and the attempt states. decrypt is AES as a number of 128 bits and digest is SHA-256 over
   * the tokens and choices of a frame; nothing is assumed of either.
   */
  datatype Run = Run(
    program: Program, partitions: nat, keys: nat, repeatEvery: nat, startsAt: i64, endsAt: i64,
    decrypt: Token -> nat, digest: seq<Input> -> seq<u8>, original: seq<Outcome>, repeats: seq<Outcome>)
  {
    predicate Valid() {
      && (program == FileBench ==> partitions == 1)
      && keys < 0x1_0000_0000
      && |original| == keys
      && |repeats| == if repeatEvery > 0 then keys else 0
    }

    /** The counter a token was made from, less one: any integer for a token that was not generated. */
    function KeyOf(token: Token): int {
      decrypt(token) - 1
    }

    /** decodeKey. */
    function DecodeKey(token: Token): (r: Option<nat>)
      ensures r == if 0 <= KeyOf(token) < keys then Some(KeyOf(token)) else None
      requires keys < TWO_TO_THE_64
    {
      var n := decrypt(token) % TWO_TO_THE_64;
      if decrypt(token) / TWO_TO_THE_64 != 0 || n == 0 || n > keys then None else Some(n - 1)
    }

    predicate Eligible(key: int, choice: int) {
      choice == 1 || (choice == 2 && repeatEvery > 0 && (key + 1) % repeatEvery == 0)
    }

    predicate Planned(a: Attempt) {
      0 <= a.key < keys && Eligible(a.key, a.choice)
    }

    function StateOf(a: Attempt): Outcome
      requires Valid() && Planned(a)
    {
      if a.choice == 2 then repeats[a.key] else original[a.key]
    }

    function AttemptOf(v: Visited): Attempt {
      Attempt(KeyOf(v.vote.token), v.vote.choice)
    }

    /** A vote the ledger allows in the journal. */
    predicate Sound(v: Visited)
      requires Valid()
    {
      && 0 <= v.place.partition < partitions && v.place.offset >= 0
      && startsAt <= v.vote.admittedAt < endsAt
      && Planned(AttemptOf(v))
      && StateOf(AttemptOf(v)) in {Acked, Unknown}
    }
  }

  /**
   * Spelled out: a vote of an instant in the window whose token was made from a key of the run, that is the key's
   * original or the repeat of every repeatEvery-th key, and that the client dispatched and was not refused.
   */
  lemma SoundMeans(run: Run, v: Visited)
    requires run.Valid()
    ensures run.Sound(v) <==>
            && 0 <= v.place.partition < run.partitions && 0 <= v.place.offset
            && run.startsAt <= v.vote.admittedAt && v.vote.admittedAt < run.endsAt
            && exists key: nat ::
                 && key < run.keys && run.decrypt(v.vote.token) == key + 1
                 && ((v.vote.choice == 1 && (run.original[key] == Acked || run.original[key] == Unknown))
                     || (v.vote.choice == 2 && run.repeatEvery > 0 && (key + 1) % run.repeatEvery == 0
                         && (run.repeats[key] == Acked || run.repeats[key] == Unknown)))
  {
    var key := run.KeyOf(v.vote.token);
    if run.Sound(v) { assert run.decrypt(v.vote.token) == key + 1; }
  }

  type Receipts = map<Place, Ack>

  function ReceiptsOf(acks: seq<Ack>): Receipts {
    if acks == [] then map[] else ReceiptsOf(acks[..|acks| - 1])[acks[|acks| - 1].place := acks[|acks| - 1]]
  }

  ghost predicate DistinctPlaces(acks: seq<Ack>) {
    forall i, j | 0 <= i < j < |acks| :: acks[i].place != acks[j].place
  }

  function SumCounts(acks: seq<Ack>): nat {
    if acks == [] then 0 else SumCounts(acks[..|acks| - 1]) + acks[|acks| - 1].count
  }

  lemma {:induction false} SumCountsBound(acks: seq<Ack>)
    ensures SumCounts(acks) <= |acks| * 0xFFFF_FFFF
  {
    if acks != [] { SumCountsBound(acks[..|acks| - 1]); }
  }

  /** The keys below n whose state is ACK. */
  ghost function AckedKeys(states: seq<Outcome>, n: nat): set<int> {
    set k: int | 0 <= k < n && k < |states| && states[k] == Acked
  }

  /** Every attempt, planned or not, that the ledger marks ACK. */
  ghost function Ledger(run: Run): set<Attempt> {
    (set k | k in AckedKeys(run.original, |run.original|) :: Attempt(k, 1))
    + (set k | k in AckedKeys(run.repeats, |run.repeats|) :: Attempt(k, 2))
  }

  // --------------------------------------------------- frames in a stream

  /** The votes of a stream at one place, in stream order. */
  function At(vs: seq<Visited>, q: Place): seq<Visited> {
    if vs == [] then []
    else At(vs[..|vs| - 1], q) + (if vs[|vs| - 1].place == q then [vs[|vs| - 1]] else [])
  }

  function Inputs(f: seq<Visited>): (r: seq<Input>)
    ensures |r| == |f|
  {
    seq(|f|, i requires 0 <= i < |f| => FileCodec.Input(f[i].vote.token, f[i].vote.choice))
  }

  /** Indices 0, 1, 2, ... and one admission instant. */
  ghost predicate Whole(f: seq<Visited>) {
    forall i | 0 <= i < |f| :: f[i].index == i && f[i].vote.admittedAt == f[0].vote.admittedAt
  }

  predicate Matches(run: Run, ack: Ack, f: seq<Visited>) {
    f != [] && |f| == ack.count && f[0].vote.admittedAt == ack.admittedAt && run.digest(Inputs(f)) == ack.digest
  }

  ghost predicate Ordered(vs: seq<Visited>) {
    forall i, j | 0 <= i < j < |vs| && vs[i].place.partition == vs[j].place.partition :: vs[i].place.offset <= vs[j].place.offset
  }

  ghost predicate NoAttemptTwice(run: Run, vs: seq<Visited>) {
    forall i, j | 0 <= i < j < |vs| :: run.AttemptOf(vs[i]) != run.AttemptOf(vs[j])
  }

  /** The ledger allows the vote, and its attempt is acknowledged exactly when its place has a receipt. */
  ghost predicate StateAgrees(run: Run, receipts: Receipts, v: Visited)
    requires run.Valid()
  {
    run.Sound(v) && (run.StateOf(run.AttemptOf(v)) == Acked <==> v.place in receipts)
  }

  ghost predicate StatesAgree(run: Run, receipts: Receipts, vs: seq<Visited>)
    requires run.Valid()
  {
    forall i | 0 <= i < |vs| :: StateAgrees(run, receipts, vs[i])
  }

  ghost predicate AllWhole(vs: seq<Visited>) {
    forall q :: Whole(At(vs, q))
  }

  ghost predicate Lawful(run: Run, receipts: Receipts, vs: seq<Visited>)
    requires run.Valid()
  {
    && StatesAgree(run, receipts, vs)
    && Ordered(vs)
    && NoAttemptTwice(run, vs)
    && AllWhole(vs)
  }

  ghost function AckedAttempts(run: Run, vs: seq<Visited>): set<Attempt>
    requires run.Valid()
  {
    set i | 0 <= i < |vs| && run.Planned(run.AttemptOf(vs[i])) && run.StateOf(run.AttemptOf(vs[i])) == Acked :: run.AttemptOf(vs[i])
  }

  ghost function KeysIn(run: Run, vs: seq<Visited>): set<int> {
    set i | 0 <= i < |vs| :: run.KeyOf(vs[i].vote.token)
  }

  ghost function PlacesIn(vs: seq<Visited>): set<Place> {
    set i | 0 <= i < |vs| :: vs[i].place
  }

  /** The choice of a key's first vote. */
  function FirstChoice(run: Run, vs: seq<Visited>, key: int): Option<int> {
    if vs == [] then None
    else match FirstChoice(run, vs[..|vs| - 1], key)
      case Some(c) => Some(c)
      case None => if run.KeyOf(vs[|vs| - 1].vote.token) == key then Some(vs[|vs| - 1].vote.choice) else None
  }

  ghost function Choosers(run: Run, vs: seq<Visited>, choice: int): set<int> {
    set k | k in KeysIn(run, vs) && FirstChoice(run, vs, k) == Some(choice)
  }

  datatype End = End(partition: int, offset: int)

  /** How the replayer ended: with an error, or with the CLOSED positions of its manifest. */
  datatype Ending = Failed | Ended(ends: seq<End>)

  ghost predicate ClosedWell(run: Run, vs: seq<Visited>, ending: Ending)
    requires run.Valid()
  {
    && ending.Ended? && |ending.ends| == run.partitions
    && (run.program == FileBench ==>
          && ending.ends[0].partition == 0 && ending.ends[0].offset >= 0
          && forall i | 0 <= i < |vs| :: vs[i].place.offset < ending.ends[0].offset)
  }

  /** The ledger explains the journal. */
  ghost predicate Explains(run: Run, acks: seq<Ack>, vs: seq<Visited>, ending: Ending)
    requires run.Valid()
  {
    && DistinctPlaces(acks)
    && SumCounts(acks) == |Ledger(run)|
    && Lawful(run, ReceiptsOf(acks), vs)
    && (forall q | q in ReceiptsOf(acks) :: Matches(run, ReceiptsOf(acks)[q], At(vs, q)))
    && AckedAttempts(run, vs) == Ledger(run)
    && ClosedWell(run, vs, ending)
  }

  // ------------------------------------------------------- one more vote

  ghost predicate Onward(vs: seq<Visited>, v: Visited) {
    forall i | 0 <= i < |vs| && vs[i].place.partition == v.place.partition :: vs[i].place.offset <= v.place.offset
  }

  ghost predicate Unseen(run: Run, vs: seq<Visited>, v: Visited) {
    forall i | 0 <= i < |vs| :: run.AttemptOf(vs[i]) != run.AttemptOf(v)
  }

  ghost predicate Fits(f: seq<Visited>, v: Visited) {
    v.index == |f| && (f != [] ==> v.vote.admittedAt == f[0].vote.admittedAt)
  }

  /** What the visitor must check of the next vote. */
  ghost predicate Next(run: Run, receipts: Receipts, vs: seq<Visited>, v: Visited)
    requires run.Valid()
  {
    StateAgrees(run, receipts, v) && Onward(vs, v) && Unseen(run, vs, v) && Fits(At(vs, v.place), v)
  }

  lemma AtAdd(vs: seq<Visited>, v: Visited, q: Place)
    ensures At(vs + [v], q) == if v.place == q then At(vs, q) + [v] else At(vs, q)
  {
    assert (vs + [v])[..|vs|] == vs;
  }

  lemma LawfulAdd(run: Run, receipts: Receipts, vs: seq<Visited>, v: Visited)
    requires run.Valid()
    ensures Lawful(run, receipts, vs + [v]) <==> Lawful(run, receipts, vs) && Next(run, receipts, vs, v)
  {
    StatesAdd(run, receipts, vs, v);
    OrderedAdd(vs, v);
    AttemptsAdd(run, vs, v);
    WholeAdd(vs, v);
    hide StatesAgree, Ordered, NoAttemptTwice, AllWhole, At, StateAgrees, Onward, Unseen, Fits;
  }

  lemma StatesAdd(run: Run, receipts: Receipts, vs: seq<Visited>, v: Visited)
    requires run.Valid()
    ensures StatesAgree(run, receipts, vs + [v]) <==> StatesAgree(run, receipts, vs) && StateAgrees(run, receipts, v)
  {
    hide StateAgrees;
    var more := vs + [v];
    assert more[|vs|] == v && forall i | 0 <= i < |vs| :: more[i] == vs[i];
    if StatesAgree(run, receipts, more) {
      assert StateAgrees(run, receipts, more[|vs|]);
      forall i | 0 <= i < |vs| ensures StateAgrees(run, receipts, vs[i]) {
        assert StateAgrees(run, receipts, more[i]);
      }
    }
  }

  lemma OrderedAdd(vs: seq<Visited>, v: Visited)
    ensures Ordered(vs + [v]) <==> Ordered(vs) && Onward(vs, v)
  {
    var more := vs + [v];
    assert more[|vs|] == v && forall i | 0 <= i < |vs| :: more[i] == vs[i];
  }

  lemma AttemptsAdd(run: Run, vs: seq<Visited>, v: Visited)
    ensures NoAttemptTwice(run, vs + [v]) <==> NoAttemptTwice(run, vs) && Unseen(run, vs, v)
  {
    hide Run.AttemptOf;
    var more := vs + [v];
    assert more[|vs|] == v && forall i | 0 <= i < |vs| :: more[i] == vs[i];
  }

  lemma WholeAdd(vs: seq<Visited>, v: Visited)
    ensures AllWhole(vs + [v]) <==> AllWhole(vs) && Fits(At(vs, v.place), v)
  {
    hide At, Whole, Fits;
    var more := vs + [v];
    forall q ensures At(more, q) == if v.place == q then At(vs, q) + [v] else At(vs, q) { AtAdd(vs, v, q); }
    WholeSnoc(At(vs, v.place), v);
    if AllWhole(more) {
      assert Whole(At(more, v.place));
      forall q ensures Whole(At(vs, q)) { assert Whole(At(more, q)); }
    }
  }

  lemma WholeSnoc(f: seq<Visited>, v: Visited)
    ensures Whole(f + [v]) <==> Whole(f) && Fits(f, v)
  {
    var more := f + [v];
    assert more[|f|] == v && forall i | 0 <= i < |f| :: more[i] == f[i];
  }

  lemma {:induction false} LawfulPrefix(run: Run, receipts: Receipts, vs: seq<Visited>, n: nat)
    requires run.Valid() && n <= |vs| && Lawful(run, receipts, vs)
    ensures Lawful(run, receipts, vs[..n])
    decreases |vs| - n
  {
    hide Lawful, Next;
    if n < |vs| {
      LawfulPrefix(run, receipts, vs, n + 1);
      assert vs[..n + 1] == vs[..n] + [vs[n]];
      LawfulAdd(run, receipts, vs[..n], vs[n]);
    } else {
      assert vs[..n] == vs;
    }
  }

  /** Once its partition has moved on, a frame is complete. */
  lemma {:induction false} FrameComplete(vs: seq<Visited>, n: nat, m: nat, q: Place)
    requires n < m <= |vs| && Ordered(vs) && vs[n].place.partition == q.partition && vs[n].place.offset > q.offset
    ensures At(vs[..m], q) == At(vs[..n], q)
    decreases m
  {
    assert vs[..m] == vs[..m - 1] + [vs[m - 1]];
    AtAdd(vs[..m - 1], vs[m - 1], q);
    assert vs[m - 1].place != q;
    if n < m - 1 { FrameComplete(vs, n, m - 1, q); }
  }

  /** The votes at a place are those of the stream at that place. */
  lemma {:induction false} AtMembers(vs: seq<Visited>, q: Place)
    ensures forall f | f in At(vs, q) :: f in vs && f.place == q
    ensures forall v | v in vs && v.place == q :: v in At(vs, q)
  {
    if vs != [] {
      var n := |vs| - 1;
      AtMembers(vs[..n], q);
      assert vs == vs[..n] + [vs[n]];
    }
  }

  // -------------------------------------------------------------- counting

  lemma {:induction false} ReceiptsKeys(acks: seq<Ack>)
    ensures forall q :: q in ReceiptsOf(acks) <==> exists i :: 0 <= i < |acks| && acks[i].place == q
    ensures forall q | q in ReceiptsOf(acks) :: ReceiptsOf(acks)[q] in acks && ReceiptsOf(acks)[q].place == q
  {
    if acks != [] {
      var n := |acks| - 1;
      ReceiptsKeys(acks[..n]);
      assert acks == acks[..n] + [acks[n]];
      assert forall i | 0 <= i < n :: acks[..n][i] == acks[i];
    }
  }

  lemma {:induction false} ReceiptsSize(acks: seq<Ack>)
    requires DistinctPlaces(acks)
    ensures |ReceiptsOf(acks)| == |acks|
  {
    if acks != [] {
      var n := |acks| - 1;
      ReceiptsSize(acks[..n]);
      ReceiptsKeys(acks[..n]);
    }
  }

  lemma LedgerSize(run: Run)
    ensures |Ledger(run)| == |AckedKeys(run.original, |run.original|)| + |AckedKeys(run.repeats, |run.repeats|)|
  {
    var a, b := AckedKeys(run.original, |run.original|), AckedKeys(run.repeats, |run.repeats|);
    TagSize(a, 1);
    TagSize(b, 2);
    var x, y := (set k | k in a :: Attempt(k, 1)), (set k | k in b :: Attempt(k, 2));
    assert x !! y;
  }

  lemma {:induction false} TagSize(keys: set<int>, choice: int)
    ensures |set k | k in keys :: Attempt(k, choice)| == |keys|
    decreases |keys|
  {
    var tagged := set k | k in keys :: Attempt(k, choice);
    if |keys| > 0 {
      var k := Pick(keys);
      TagSize(keys - {k}, choice);
      assert tagged == (set j | j in keys - {k} :: Attempt(j, choice)) + {Attempt(k, choice)};
    } else {
      assert keys == {} && tagged == {};
    }
  }

  lemma KeysAdd(run: Run, vs: seq<Visited>, v: Visited)
    ensures KeysIn(run, vs + [v]) == KeysIn(run, vs) + {run.KeyOf(v.vote.token)}
  {
    var more := vs + [v];
    assert forall i | 0 <= i < |vs| :: more[i] == vs[i];
    forall k | k in KeysIn(run, vs) + {run.KeyOf(v.vote.token)} ensures k in KeysIn(run, more) {
      if k in KeysIn(run, vs) {
        var i :| 0 <= i < |vs| && run.KeyOf(vs[i].vote.token) == k;
        assert run.KeyOf(more[i].vote.token) == k;
      } else {
        assert run.KeyOf(more[|vs|].vote.token) == k;
      }
    }
  }

  lemma AckedAdd(run: Run, vs: seq<Visited>, v: Visited)
    requires run.Valid() && run.Planned(run.AttemptOf(v)) && forall i | 0 <= i < |vs| :: run.AttemptOf(vs[i]) != run.AttemptOf(v)
    ensures AckedAttempts(run, vs + [v])
         == AckedAttempts(run, vs) + if run.StateOf(run.AttemptOf(v)) == Acked then {run.AttemptOf(v)} else {}
    ensures run.AttemptOf(v) !in AckedAttempts(run, vs)
  {
    hide Run.AttemptOf, Run.StateOf, Run.Planned;
    var more := vs + [v];
    assert more[|vs|] == v && forall i | 0 <= i < |vs| :: more[i] == vs[i];
    forall a | a in AckedAttempts(run, vs) ensures a in AckedAttempts(run, more) {
      var i :| 0 <= i < |vs| && run.Planned(run.AttemptOf(vs[i])) && run.StateOf(run.AttemptOf(vs[i])) == Acked && run.AttemptOf(vs[i]) == a;
      assert run.AttemptOf(more[i]) == a;
    }
    if run.StateOf(run.AttemptOf(v)) == Acked {
      assert run.AttemptOf(more[|vs|]) in AckedAttempts(run, more);
    }
  }

  lemma {:induction false} FirstChoiceKnown(run: Run, vs: seq<Visited>, key: int)
    ensures FirstChoice(run, vs, key).Some? <==> key in KeysIn(run, vs)
  {
    if vs != [] {
      var n := |vs| - 1;
      FirstChoiceKnown(run, vs[..n], key);
      assert vs == vs[..n] + [vs[n]];
      KeysAdd(run, vs[..n], vs[n]);
    }
  }

  lemma ChoosersAdd(run: Run, vs: seq<Visited>, v: Visited, choice: int)
    ensures var key := run.KeyOf(v.vote.token);
      Choosers(run, vs + [v], choice)
      == Choosers(run, vs, choice) + if key !in KeysIn(run, vs) && v.vote.choice == choice then {key} else {}
  {
    hide KeysIn, Run.KeyOf;
    KeysAdd(run, vs, v);
    assert (vs + [v])[..|vs|] == vs;
    forall k ensures FirstChoice(run, vs, k).Some? <==> k in KeysIn(run, vs) {
      FirstChoiceKnown(run, vs, k);
    }
  }

  /** The ledger's ACK attempts that the journal holds can be no more than the ledger's ACK attempts. */
  lemma AckedWithinLedger(run: Run, vs: seq<Visited>)
    requires run.Valid()
    ensures AckedAttempts(run, vs) <= Ledger(run)
  {
    hide Run.AttemptOf;
    forall a | a in AckedAttempts(run, vs) ensures a in Ledger(run) {
      assert run.Planned(a) && run.StateOf(a) == Acked;
      if a.choice == 2 {
        assert a.key in AckedKeys(run.repeats, |run.repeats|);
        assert a == Attempt(a.key, 2);
      } else {
        assert a.key in AckedKeys(run.original, |run.original|);
        assert a == Attempt(a.key, 1);
      }
    }
  }
}
