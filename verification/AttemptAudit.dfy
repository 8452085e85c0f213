/**
 * The per-receipt audit of cmd/logbench/audit.go: every committed record must be paid for by a dispatched
 * attempt, whatever order Go iterates its maps in.
 */
module AttemptAudit {
  import opened Bits
  import opened Bytes
  import opened Wrappers
  import opened Sets
  import opened Sums
  import FileCodec
  import opened LogAudit

  type Vote = FileCodec.Vote
  type Records = map<Position, Vote>

  const MAX_ATTEMPTS := 12_000_000
  const RECORDED := 1
  const UNKNOWN := 6
  const SKIP_CANCELLED := 9

  /** A ledger line. Partition and offset are those of the receipt, or -1. */
  datatype Entry = Entry(
    token: Token, key: nat, choice: int, outcome: nat, partition: int, offset: int, admittedAt: int, dispatchNS: int)

  datatype Header = Header(entries: int, keys: int, startsAt: int, endsAt: int, partitions: nat)

  predicate HeaderOk(h: Header, entries: seq<Entry>) {
    h.entries == |entries| && 1 <= h.entries <= MAX_ATTEMPTS && 1 <= h.keys <= h.entries
  }

  /** The checks that make the loop skip a line. */
  predicate Readable(h: Header, e: Entry) {
    e.key < h.keys && e.token != ZERO_TOKEN && (e.choice == 1 || e.choice == 2) && e.outcome <= SKIP_CANCELLED
  }

  /** An attempt that may have been committed. */
  predicate Spent(e: Entry) {
    (e.outcome == RECORDED || e.outcome == UNKNOWN) && e.dispatchNS > 0
  }

  /** A token and a choice: what a record needs an attempt for. */
  datatype Class = Class(token: Token, choice: int)

  function ClassOf(v: Vote): Class {
    Class(v.token, v.choice)
  }

  /** Dispatched recorded or unknown attempts of a class. */
  function Budget(h: Header, es: seq<Entry>, c: Class): nat {
    if es == [] then 0
    else
      var e := es[|es| - 1];
      Budget(h, es[..|es| - 1], c) + (if Readable(h, e) && Spent(e) && Class(e.token, e.choice) == c then 1 else 0)
  }

  ghost function Members(records: Records, s: set<Position>, c: Class): set<Position> {
    set p | p in s && p in records && ClassOf(records[p]) == c
  }

  function Excess(n: nat, budget: nat): nat {
    if n > budget then n - budget else 0
  }

  ghost function Classes(records: Records): set<Class> {
    set p | p in records :: ClassOf(records[p])
  }

  /** The records of each class beyond its attempts, summed over the classes. */
  ghost function Unaccounted(h: Header, es: seq<Entry>, records: Records, s: set<Position>): nat {
    Sum(Classes(records), (c: Class) => Excess(|Members(records, s, c)|, Budget(h, es, c)))
  }

  // ------------------------------------------------------- the ledger lines

  /** Tokens and logical keys bind each other, and attempts that may have been committed were dispatched. */
  ghost predicate Bound(h: Header, es: seq<Entry>) {
    && (forall i | 0 <= i < |es| :: Readable(h, es[i]))
    && (forall i | 0 <= i < |es| :: (es[i].outcome == RECORDED || es[i].outcome == UNKNOWN) ==> es[i].dispatchNS > 0)
    && (forall i, j | 0 <= i < |es| && 0 <= j < |es| :: es[i].token == es[j].token <==> es[i].key == es[j].key)
  }

  ghost function KeysOf(es: seq<Entry>): set<nat> {
    set i | 0 <= i < |es| :: es[i].key
  }

  ghost predicate FixtureOk(h: Header, es: seq<Entry>) {
    Bound(h, es) && forall k: nat | k < h.keys :: k in KeysOf(es)
  }

  function RecordAt(records: Records, e: Entry): Option<Vote> {
    if e.partition >= 0 && e.offset >= 0 && Position(e.partition, e.offset, 0) in records
    then Some(records[Position(e.partition, e.offset, 0)]) else None
  }

  /** A receipt whose record is in the journal as acknowledged. */
  predicate Honoured(records: Records, e: Entry) {
    e.outcome == RECORDED ==>
      match RecordAt(records, e)
      case None => false
      case Some(v) => v.token == e.token && v.choice == e.choice && v.admittedAt == e.admittedAt
  }

  ghost predicate ReceiptsOk(h: Header, records: Records, es: seq<Entry>) {
    forall i | 0 <= i < |es| && Readable(h, es[i]) :: Honoured(records, es[i])
  }

  datatype Expected = Expected(key: nat, first: nat, second: nat, confirmed: bool, unknown: bool)

  datatype Report = Report(
    correct: bool, confirmedReceipts: nat, confirmedKeys: nat, missing: nat, wrong: nat, duplicates: nat, unknownPresent: nat,
    noReceipt: nat, invalid: nat, unaccounted: nat, lateOrEarly: nat, split: nat, mismatches: nat)

  /** The expected-key map, the claimed keys and the counters after the lines so far. */
  datatype Ledger = Ledger(expected: map<Token, Expected>, claimed: set<nat>, bound: nat, r: Report)

  /** The loop body for one line, as a step on values. */
  function ReadLine(h: Header, records: Records, l: Ledger, e: Entry): Ledger {
    if !Readable(h, e) then l.(r := l.r.(invalid := l.r.invalid + 1))
    else
      var known := e.token in l.expected;
      var k0 := if known then l.expected[e.token] else Expected(e.key, 0, 0, false, false);
      var clash := if known then k0.key != e.key else e.key in l.claimed;
      var candidate := e.outcome == RECORDED || e.outcome == UNKNOWN;
      var spent := candidate && e.dispatchNS > 0;
      var k1 := if !spent then k0 else if e.choice == 1 then k0.(first := k0.first + 1) else k0.(second := k0.second + 1);
      var k2 := k1.(confirmed := k1.confirmed || e.outcome == RECORDED, unknown := k1.unknown || e.outcome == UNKNOWN);
      var found := RecordAt(records, e);
      Ledger(l.expected[e.token := k2],
             if known then l.claimed else l.claimed + {e.key},
             if known || clash then l.bound else l.bound + 1,
             l.r.(invalid := l.r.invalid + (if clash then 1 else 0) + (if candidate && !spent then 1 else 0),
                  confirmedReceipts := l.r.confirmedReceipts + (if e.outcome == RECORDED then 1 else 0),
                  missing := l.r.missing + (if e.outcome == RECORDED && found.None? then 1 else 0),
                  wrong := l.r.wrong + (if e.outcome == RECORDED && found.Some? && !Honoured(records, e) then 1 else 0)))
  }

  const BLANK := Report(false, 0, 0, 0, 0, 0, 0, 0, 0, 0, 0, 0, 0)
  const EMPTY := Ledger(map[], {}, 0, BLANK)

  ghost predicate Budgeted(h: Header, es: seq<Entry>, expected: map<Token, Expected>) {
    && (forall t | t in expected ::
          expected[t].first == Budget(h, es, Class(t, 1)) && expected[t].second == Budget(h, es, Class(t, 2)))
    && (forall t: Token, c: int | t !in expected :: Budget(h, es, Class(t, c)) == 0)
  }

  lemma BudgetMore(h: Header, es: seq<Entry>, e: Entry, c: Class)
    ensures Budget(h, es + [e], c) == Budget(h, es, c) + (if Readable(h, e) && Spent(e) && Class(e.token, e.choice) == c then 1 else 0)
  {
    assert (es + [e])[..|es|] == es;
  }

  lemma BudgetedStep(h: Header, records: Records, es: seq<Entry>, l: Ledger, e: Entry)
    requires Budgeted(h, es, l.expected)
    ensures Budgeted(h, es + [e], ReadLine(h, records, l, e).expected)
  {
    hide RecordAt, Honoured, Budget;
    forall c ensures Budget(h, es + [e], c) == Budget(h, es, c) + (if Readable(h, e) && Spent(e) && Class(e.token, e.choice) == c then 1 else 0) {
      BudgetMore(h, es, e, c);
    }
    LineCounts(h, records, l, e);
    hide ReadLine;
  }

  /** What a line changes in the expected attempts. */
  lemma LineCounts(h: Header, records: Records, l: Ledger, e: Entry)
    ensures var n := ReadLine(h, records, l, e).expected;
      && (forall t | t != e.token :: (t in n <==> t in l.expected) && (t in n ==> n[t] == l.expected[t]))
      && (!Readable(h, e) ==> n == l.expected)
      && (Readable(h, e) ==> e.token in n)
      && (Readable(h, e) && e.token in l.expected ==>
            && n[e.token].first == l.expected[e.token].first + (if Spent(e) && e.choice == 1 then 1 else 0)
            && n[e.token].second == l.expected[e.token].second + (if Spent(e) && e.choice == 2 then 1 else 0))
      && (Readable(h, e) && e.token !in l.expected ==>
            && n[e.token].first == (if Spent(e) && e.choice == 1 then 1 else 0)
            && n[e.token].second == (if Spent(e) && e.choice == 2 then 1 else 0))
  {
    hide RecordAt, Honoured;
  }

  /** Only choices 1 and 2 are ever budgeted. */
  lemma {:induction false} BudgetedChoices(h: Header, es: seq<Entry>, c: Class)
    requires c.choice != 1 && c.choice != 2
    ensures Budget(h, es, c) == 0
  {
    if es != [] { BudgetedChoices(h, es[..|es| - 1], c); }
  }

  ghost predicate Paid(h: Header, records: Records, es: seq<Entry>, r: Report) {
    r.missing == 0 && r.wrong == 0 <==> ReceiptsOk(h, records, es)
  }

  lemma PaidStep(h: Header, records: Records, es: seq<Entry>, l: Ledger, e: Entry)
    requires Paid(h, records, es, l.r)
    ensures Paid(h, records, es + [e], ReadLine(h, records, l, e).r)
  {
    hide Readable;
    var more := es + [e];
    assert more[|es|] == e && forall i | 0 <= i < |es| :: more[i] == es[i];
    assert ReceiptsOk(h, records, more) <==> ReceiptsOk(h, records, es) && (Readable(h, e) ==> Honoured(records, e)) by { hide Honoured; }
    assert !Honoured(records, e) ==> e.outcome == RECORDED;
    assert e.outcome == RECORDED && RecordAt(records, e).None? ==> !Honoured(records, e);
  }

  // ------------------------------------------------------ what is counted

  ghost function Where(es: seq<Entry>, kind: Entry -> bool): set<nat> {
    set i | 0 <= i < |es| && kind(es[i])
  }

  ghost function TokensWhere(es: seq<Entry>, kind: Entry -> bool): set<Token> {
    set i | 0 <= i < |es| && kind(es[i]) :: es[i].token
  }

  ghost function Lines(h: Header): Entry -> bool {
    (e: Entry) => Readable(h, e)
  }

  ghost function Receipts(h: Header): Entry -> bool {
    (e: Entry) => Readable(h, e) && e.outcome == RECORDED
  }

  ghost function Unknowns(h: Header): Entry -> bool {
    (e: Entry) => Readable(h, e) && e.outcome == UNKNOWN
  }

  /** Receipts without a record at their partition and offset. */
  ghost function Unfounded(h: Header, records: Records): Entry -> bool {
    (e: Entry) => Readable(h, e) && e.outcome == RECORDED && RecordAt(records, e).None?
  }

  /** Receipts with another record there. */
  ghost function Mistaken(h: Header, records: Records): Entry -> bool {
    (e: Entry) => Readable(h, e) && e.outcome == RECORDED && RecordAt(records, e).Some? && !Honoured(records, e)
  }

  lemma WhereAdd(es: seq<Entry>, e: Entry, kind: Entry -> bool)
    ensures |Where(es + [e], kind)| == |Where(es, kind)| + (if kind(e) then 1 else 0)
    ensures TokensWhere(es + [e], kind) == TokensWhere(es, kind) + if kind(e) then {e.token} else {}
  {
    var more := es + [e];
    assert more[|es|] == e && forall i | 0 <= i < |es| :: more[i] == es[i];
    assert Where(more, kind) == Where(es, kind) + if kind(e) then {|es|} else {};
    forall t | t in TokensWhere(es, kind) ensures t in TokensWhere(more, kind) {
      var i :| 0 <= i < |es| && kind(es[i]) && es[i].token == t;
      assert more[i].token == t;
    }
  }

  /** The receipt counters after these lines. */
  ghost predicate Tallied(h: Header, records: Records, es: seq<Entry>, r: Report) {
    && r.confirmedReceipts == |Where(es, Receipts(h))|
    && r.missing == |Where(es, Unfounded(h, records))|
    && r.wrong == |Where(es, Mistaken(h, records))|
  }

  lemma TalliedStep(h: Header, records: Records, es: seq<Entry>, l: Ledger, e: Entry)
    requires Tallied(h, records, es, l.r)
    ensures Tallied(h, records, es + [e], ReadLine(h, records, l, e).r)
  {
    hide Where, Readable, Honoured, RecordAt;
    WhereAdd(es, e, Receipts(h));
    WhereAdd(es, e, Unfounded(h, records));
    WhereAdd(es, e, Mistaken(h, records));
  }

  /** The tokens that the map says had a receipt, or an unknown attempt. */
  ghost function Confirmed(expected: map<Token, Expected>): set<Token> {
    set t | t in expected && expected[t].confirmed
  }

  ghost function Unsure(expected: map<Token, Expected>): set<Token> {
    set t | t in expected && expected[t].unknown
  }

  ghost predicate Flagged(h: Header, es: seq<Entry>, expected: map<Token, Expected>) {
    && expected.Keys == TokensWhere(es, Lines(h))
    && Confirmed(expected) == TokensWhere(es, Receipts(h))
    && Unsure(expected) == TokensWhere(es, Unknowns(h))
  }

  /** What a line changes in the flags. */
  lemma LineFlags(h: Header, records: Records, l: Ledger, e: Entry)
    ensures var n := ReadLine(h, records, l, e).expected;
      && n.Keys == l.expected.Keys + (if Readable(h, e) then {e.token} else {})
      && (forall t | t in l.expected && t != e.token :: n[t] == l.expected[t])
      && (!Readable(h, e) ==> n == l.expected)
      && (Readable(h, e) ==>
            var known := e.token in l.expected;
            && (n[e.token].confirmed <==> e.outcome == RECORDED || (known && l.expected[e.token].confirmed))
            && (n[e.token].unknown <==> e.outcome == UNKNOWN || (known && l.expected[e.token].unknown)))
  {
    hide RecordAt, Honoured, Readable;
  }

  lemma FlaggedStep(h: Header, records: Records, es: seq<Entry>, l: Ledger, e: Entry)
    requires Flagged(h, es, l.expected)
    ensures Flagged(h, es + [e], ReadLine(h, records, l, e).expected)
  {
    hide TokensWhere;
    WhereAdd(es, e, Lines(h));
    WhereAdd(es, e, Receipts(h));
    WhereAdd(es, e, Unknowns(h));
    LineFlags(h, records, l, e);
    hide ReadLine, Readable;
    var n := ReadLine(h, records, l, e).expected;
    assert n.Keys == l.expected.Keys + if Readable(h, e) then {e.token} else {};
    assert Confirmed(n) == Confirmed(l.expected) + if Readable(h, e) && e.outcome == RECORDED then {e.token} else {};
    assert Unsure(n) == Unsure(l.expected) + if Readable(h, e) && e.outcome == UNKNOWN then {e.token} else {};
  }

  /** The expected map and the claimed keys bind tokens and keys both ways as long as nothing was invalid. */
  ghost predicate Binds(h: Header, es: seq<Entry>, l: Ledger) {
    && (l.r.invalid == 0 <==> Bound(h, es))
    && l.bound == |l.claimed|
    && (Bound(h, es) ==>
          l.claimed == KeysOf(es) && |l.expected| == |l.claimed| && Keyed(es, l.expected))
  }

  ghost predicate Keyed(es: seq<Entry>, expected: map<Token, Expected>) {
    && (forall i | 0 <= i < |es| :: es[i].token in expected)
    && (forall t | t in expected :: exists i :: 0 <= i < |es| && es[i].token == t && es[i].key == expected[t].key)
  }

  lemma KeyedAdd(es: seq<Entry>, expected: map<Token, Expected>, e: Entry, k: Expected)
    requires Keyed(es, expected) && k.key == e.key
    ensures Keyed(es + [e], expected[e.token := k])
  {
    var more, n := es + [e], expected[e.token := k];
    assert more[|es|] == e && forall i | 0 <= i < |es| :: more[i] == es[i];
    forall t | t in n ensures exists i :: 0 <= i < |more| && more[i].token == t && more[i].key == n[t].key {
      if t == e.token {
        assert more[|es|].token == t;
      } else {
        var i :| 0 <= i < |es| && es[i].token == t && es[i].key == expected[t].key;
        assert more[i].token == t;
      }
    }
  }

  ghost predicate NewLine(es: seq<Entry>, e: Entry) {
    forall i | 0 <= i < |es| :: es[i].token == e.token <==> es[i].key == e.key
  }

  lemma BoundStep(h: Header, es: seq<Entry>, e: Entry)
    ensures Bound(h, es + [e]) <==>
            Bound(h, es) && Readable(h, e) && ((e.outcome == RECORDED || e.outcome == UNKNOWN) ==> e.dispatchNS > 0) && NewLine(es, e)
  {
    hide Readable;
    var more := es + [e];
    assert more[|es|] == e && forall i | 0 <= i < |es| :: more[i] == es[i];
    if Bound(h, more) {
      forall i | 0 <= i < |es| ensures es[i].token == e.token <==> es[i].key == e.key {
        assert more[i].token == more[|es|].token <==> more[i].key == more[|es|].key;
      }
    }
  }

  /** The keys that lines with the same token have. */
  lemma KeyOfToken(h: Header, es: seq<Entry>, expected: map<Token, Expected>, i: nat)
    requires Bound(h, es) && Keyed(es, expected) && i < |es|
    ensures es[i].token in expected && es[i].key == expected[es[i].token].key
  {
    hide Readable;
    var j :| 0 <= j < |es| && es[j].token == es[i].token && es[j].key == expected[es[i].token].key;
  }

  /** With everything bound so far, the map and the bitmap decide whether a line fits. */
  lemma NewLineTest(h: Header, es: seq<Entry>, l: Ledger, e: Entry)
    requires Bound(h, es) && Keyed(es, l.expected) && l.claimed == KeysOf(es)
    ensures NewLine(es, e) <==> if e.token in l.expected then l.expected[e.token].key == e.key else e.key !in l.claimed
    ensures NewLine(es, e) ==> (e.token in l.expected <==> e.key in l.claimed)
  {
    hide Bound, Readable;
    forall i: nat | i < |es| ensures es[i].token in l.expected && es[i].key == l.expected[es[i].token].key {
      KeyOfToken(h, es, l.expected, i);
    }
    if e.token in l.expected {
      var i :| 0 <= i < |es| && es[i].token == e.token && es[i].key == l.expected[e.token].key;
      hide Keyed;
      assert e.key in l.claimed <==> exists j :: 0 <= j < |es| && es[j].key == e.key;
      if l.expected[e.token].key == e.key {
        forall j | 0 <= j < |es| ensures es[j].token == e.token <==> es[j].key == e.key {
          BoundPair(h, es, i, j);
        }
      }
    }
  }

  lemma BoundPair(h: Header, es: seq<Entry>, i: nat, j: nat)
    requires Bound(h, es) && i < |es| && j < |es|
    ensures es[i].token == es[j].token <==> es[i].key == es[j].key
  {
  }

  lemma BindsStep(h: Header, records: Records, es: seq<Entry>, l: Ledger, e: Entry)
    requires Binds(h, es, l)
    ensures Binds(h, es + [e], ReadLine(h, records, l, e))
  {
    hide RecordAt, Honoured, Readable, Bound, NewLine, Keyed, KeysOf;
    BoundStep(h, es, e);
    assert e.key in l.claimed ==> l.claimed + {e.key} == l.claimed;
    if Bound(h, es) {
      NewLineTest(h, es, l, e);
      if Bound(h, es + [e]) {
        KeysOfAdd(es, e);
        var n := ReadLine(h, records, l, e);
        KeyedAdd(es, l.expected, e, n.expected[e.token]);
        assert n.r.invalid == 0 && n.claimed == KeysOf(es + [e]);
        assert e.token in l.expected ==> n.expected.Keys == l.expected.Keys;
        assert |n.expected| == |n.claimed| && n.bound == |n.claimed|;
      }
    }
  }

  lemma KeysOfAdd(es: seq<Entry>, e: Entry)
    ensures KeysOf(es + [e]) == KeysOf(es) + {e.key}
  {
    var more := es + [e];
    assert more[|es|] == e && forall i | 0 <= i < |es| :: more[i] == es[i];
    forall k | k in KeysOf(es) + {e.key} ensures k in KeysOf(more) {
      if k in KeysOf(es) {
        var i :| 0 <= i < |es| && es[i].key == k;
        assert more[i].key == k;
      } else {
        assert more[|es|].key == k;
      }
    }
  }

  // ------------------------------------------------------ the journal's records

  /** The loop variables while the records are taken, in whatever order. */
  datatype Sweep = Sweep(expected: map<Token, Expected>, first: map<Token, Position>, unaccounted: nat, lateOrEarly: nat, split: nat)

  predicate InWindow(h: Header, v: Vote) {
    h.startsAt <= v.admittedAt < h.endsAt
  }

  /** Whether a record of this class still finds an attempt. */
  predicate Pays(expected: map<Token, Expected>, c: Class) {
    c.token in expected
    && ((c.choice == 1 && expected[c.token].first > 0) || (c.choice == 2 && expected[c.token].second > 0))
  }

  function Pay(expected: map<Token, Expected>, c: Class): map<Token, Expected> {
    if !Pays(expected, c) then expected
    else
      var k := expected[c.token];
      expected[c.token := if c.choice == 1 then k.(first := k.first - 1) else k.(second := k.second - 1)]
  }

  function Earlier(first: map<Token, Position>, token: Token, p: Position): map<Token, Position> {
    if token !in first || (first[token].partition == p.partition && p.offset < first[token].offset) then first[token := p] else first
  }

  /** The loop body for one record. */
  function TakeRecord(h: Header, records: Records, w: Sweep, p: Position): Sweep
    requires p in records
  {
    var v := records[p];
    Sweep(Pay(w.expected, ClassOf(v)),
          Earlier(w.first, v.token, p),
          w.unaccounted + (if Pays(w.expected, ClassOf(v)) then 0 else 1),
          w.lateOrEarly + (if InWindow(h, v) then 0 else 1),
          w.split + (if v.token in w.first && w.first[v.token].partition != p.partition then 1 else 0))
  }

  /** Records admitted outside the window. */
  ghost function Outside(h: Header, records: Records, s: set<Position>): set<Position> {
    set p | p in s && p in records && !(h.startsAt <= records[p].admittedAt < h.endsAt)
  }

  lemma OutsideAdd(h: Header, records: Records, s: set<Position>, p: Position)
    requires p in records && p !in s
    ensures |Outside(h, records, s + {p})| == |Outside(h, records, s)| + (if InWindow(h, records[p]) then 0 else 1)
  {
    assert Outside(h, records, s + {p}) == Outside(h, records, s) + if InWindow(h, records[p]) then {} else {p};
  }

  lemma OutsideMeans(h: Header, records: Records)
    ensures |Outside(h, records, records.Keys)| == 0 <==> forall p | p in records :: InWindow(h, records[p])
  {
    if |Outside(h, records, records.Keys)| == 0 {
      forall p | p in records ensures InWindow(h, records[p]) { assert p !in Outside(h, records, records.Keys); }
    }
  }

  lemma PayKeepsFlags(h: Header, es: seq<Entry>, expected: map<Token, Expected>, c: Class)
    requires Flagged(h, es, expected)
    ensures Flagged(h, es, Pay(expected, c))
  {
    hide TokensWhere;
    var n := Pay(expected, c);
    assert n.Keys == expected.Keys && Confirmed(n) == Confirmed(expected) && Unsure(n) == Unsure(expected);
  }

  /** What is left of every class's attempts. */
  ghost predicate Remaining(h: Header, es: seq<Entry>, records: Records, s: set<Position>, expected: map<Token, Expected>) {
    && (forall t | t in expected ::
          && expected[t].first == Excess(Budget(h, es, Class(t, 1)), |Members(records, s, Class(t, 1))|)
          && expected[t].second == Excess(Budget(h, es, Class(t, 2)), |Members(records, s, Class(t, 2))|))
    && (forall t: Token, c: int | t !in expected :: Budget(h, es, Class(t, c)) == 0)
  }

  lemma MembersAdd(records: Records, s: set<Position>, p: Position, c: Class)
    requires p in records && p !in s
    ensures |Members(records, s + {p}, c)| == |Members(records, s, c)| + (if ClassOf(records[p]) == c then 1 else 0)
  {
    assert Members(records, s + {p}, c) == Members(records, s, c) + if ClassOf(records[p]) == c then {p} else {};
  }

  lemma PaysWhenLeft(h: Header, es: seq<Entry>, records: Records, s: set<Position>, expected: map<Token, Expected>, c: Class)
    requires Remaining(h, es, records, s, expected)
    ensures Pays(expected, c) <==> |Members(records, s, c)| < Budget(h, es, c)
  {
    hide Members, Budget;
    if c.choice != 1 && c.choice != 2 { BudgetedChoices(h, es, c); }
    assert c == Class(c.token, c.choice);
  }

  lemma RemainingStep(h: Header, es: seq<Entry>, records: Records, s: set<Position>, expected: map<Token, Expected>, p: Position)
    requires Remaining(h, es, records, s, expected) && p in records && p !in s
    ensures Remaining(h, es, records, s + {p}, Pay(expected, ClassOf(records[p])))
  {
    hide Members, Budget;
    var c := ClassOf(records[p]);
    PaysWhenLeft(h, es, records, s, expected, c);
    forall d ensures |Members(records, s + {p}, d)| == |Members(records, s, d)| + (if c == d then 1 else 0) {
      MembersAdd(records, s, p, d);
    }
  }

  lemma UnaccountedStep(h: Header, es: seq<Entry>, records: Records, s: set<Position>, p: Position)
    requires p in records && p !in s
    ensures Unaccounted(h, es, records, s + {p})
         == Unaccounted(h, es, records, s)
            + (if |Members(records, s, ClassOf(records[p]))| < Budget(h, es, ClassOf(records[p])) then 0 else 1)
  {
    var c := ClassOf(records[p]);
    assert c in Classes(records);
    hide Members, Budget;
    var f := (d: Class) => Excess(|Members(records, s, d)|, Budget(h, es, d));
    var g := (d: Class) => Excess(|Members(records, s + {p}, d)|, Budget(h, es, d));
    forall d ensures |Members(records, s + {p}, d)| == |Members(records, s, d)| + (if c == d then 1 else 0) {
      MembersAdd(records, s, p, d);
    }
    SumPoint(Classes(records), f, g, c);
    hide Classes;
    assert Unaccounted(h, es, records, s) == Sum(Classes(records), f);
    assert Unaccounted(h, es, records, s + {p}) == Sum(Classes(records), g);
  }

  ghost predicate NoSplit(records: Records, s: set<Position>) {
    forall p, q | p in s && q in s && p in records && q in records && records[p].token == records[q].token :: p.partition == q.partition
  }

  ghost predicate Firsts(records: Records, s: set<Position>, first: map<Token, Position>) {
    && (forall p | p in s && p in records :: records[p].token in first)
    && (forall t | t in first :: first[t] in s && first[t] in records && records[first[t]].token == t)
    && (NoSplit(records, s) ==> forall p | p in s && p in records :: first[records[p].token].offset <= p.offset)
  }

  lemma FirstsStep(records: Records, s: set<Position>, first: map<Token, Position>, p: Position)
    requires s <= records.Keys && p in records && Firsts(records, s, first)
    ensures Firsts(records, s + {p}, Earlier(first, records[p].token, p))
    ensures NoSplit(records, s + {p})
            <==> NoSplit(records, s) && (records[p].token in first ==> first[records[p].token].partition == p.partition)
  {
    var t := records[p].token;
    if NoSplit(records, s) && (t in first ==> first[t].partition == p.partition) {
      forall q | q in s && records[q].token == t ensures q.partition == p.partition {
        assert records[first[t]].token == records[q].token;
      }
      assert NoSplit(records, s + {p});
    }
    if NoSplit(records, s + {p}) {
      assert NoSplit(records, s);
    }
  }

  method ReadLedger(h: Header, records: Records, es: seq<Entry>) returns (l: Ledger)
    ensures Budgeted(h, es, l.expected) && Paid(h, records, es, l.r) && Binds(h, es, l)
    ensures Tallied(h, records, es, l.r) && Flagged(h, es, l.expected)
    ensures l.r == BLANK.(invalid := l.r.invalid, confirmedReceipts := l.r.confirmedReceipts, missing := l.r.missing, wrong := l.r.wrong)
  {
    hide ReadLine, Budgeted, Paid, Binds, Tallied, Flagged;
    l := EMPTY;
    NothingRead(h, records);
    assert es[..0] == [];
    for i := 0 to |es|
      invariant Budgeted(h, es[..i], l.expected) && Paid(h, records, es[..i], l.r) && Binds(h, es[..i], l)
      invariant Tallied(h, records, es[..i], l.r) && Flagged(h, es[..i], l.expected)
      invariant l.r == BLANK.(invalid := l.r.invalid, confirmedReceipts := l.r.confirmedReceipts, missing := l.r.missing, wrong := l.r.wrong)
    {
      assert es[..i + 1] == es[..i] + [es[i]];
      BudgetedStep(h, records, es[..i], l, es[i]);
      PaidStep(h, records, es[..i], l, es[i]);
      BindsStep(h, records, es[..i], l, es[i]);
      TalliedStep(h, records, es[..i], l, es[i]);
      FlaggedStep(h, records, es[..i], l, es[i]);
      OnlyLineCounters(h, records, l, es[i]);
      l := ReadLine(h, records, l, es[i]);
    }
    assert es[..|es|] == es;
  }

  lemma OnlyLineCounters(h: Header, records: Records, l: Ledger, e: Entry)
    ensures var r := ReadLine(h, records, l, e).r;
      r == l.r.(invalid := r.invalid, confirmedReceipts := r.confirmedReceipts, missing := r.missing, wrong := r.wrong)
  {
  }

  lemma NothingRead(h: Header, records: Records)
    ensures Budgeted(h, [], map[]) && Paid(h, records, [], BLANK) && Binds(h, [], EMPTY)
    ensures Tallied(h, records, [], BLANK) && Flagged(h, [], map[])
  {
    assert KeysOf([]) == {};
    assert Where([], Receipts(h)) == Where([], Unfounded(h, records)) == Where([], Mistaken(h, records)) == {};
  }

  /** The rest of the fixture check: as many keys and tokens as planned. */
  lemma FixtureTest(h: Header, es: seq<Entry>, l: Ledger)
    requires Binds(h, es, l) && h.keys >= 0
    ensures l.r.invalid == 0 && l.bound == h.keys && |l.expected| == h.keys <==> FixtureOk(h, es)
  {
    if Bound(h, es) {
      var all := Below(h.keys);
      assert KeysOf(es) <= all;
      Subset(KeysOf(es), all);
      assert KeysOf(es) == all <==> forall k: nat | k < h.keys :: k in KeysOf(es);
    }
  }

  ghost predicate Recorded(records: Records, order: seq<Position>) {
    forall i | 0 <= i < |order| :: order[i] in records
  }

  /** The first-record map after taking records in this order. */
  ghost function FirstAfter(records: Records, order: seq<Position>): map<Token, Position>
  {
    if order == [] then map[]
    else
      var p := order[|order| - 1];
      var first := FirstAfter(records, order[..|order| - 1]);
      if p in records then Earlier(first, records[p].token, p) else first
  }

  /** Each position of the set once. */
  ghost predicate IsOrder(s: set<Position>, order: seq<Position>) {
    (forall i, j | 0 <= i < j < |order| :: order[i] != order[j]) && (forall p :: p in order <==> p in s)
  }

  lemma NoOrder(records: Records)
    ensures IsOrder({}, []) && Recorded(records, []) && FirstAfter(records, []) == map[]
  {
  }

  lemma OrderMore(records: Records, s: set<Position>, order: seq<Position>, p: Position)
    requires IsOrder(s, order) && Recorded(records, order) && p in records && p !in s
    ensures IsOrder(s + {p}, order + [p]) && Recorded(records, order + [p])
    ensures FirstAfter(records, order + [p]) == Earlier(FirstAfter(records, order), records[p].token, p)
  {
    var more := order + [p];
    assert more[..|order|] == order && more[|order|] == p;
    assert forall i | 0 <= i < |order| :: more[i] == order[i] && order[i] in order;
  }

  /** Takes every record once; which one next is Go's choice of map iteration order. */
  method SweepRecords(h: Header, ghost es: seq<Entry>, records: Records, expected: map<Token, Expected>) 
    returns (w: Sweep, ghost order: seq<Position>)
    requires Budgeted(h, es, expected) && Flagged(h, es, expected)
    ensures IsOrder(records.Keys, order) && w.first == FirstAfter(records, order)
    ensures w.unaccounted == Unaccounted(h, es, records, records.Keys)
    ensures w.lateOrEarly == |Outside(h, records, records.Keys)|
    ensures Flagged(h, es, w.expected)
    ensures w.split == 0 <==> NoSplit(records, records.Keys)
    ensures Firsts(records, records.Keys, w.first)
  {
    hide Unaccounted, Remaining, Firsts, NoSplit, Flagged, Outside, Pay, Pays, Earlier, InWindow, Budgeted, FirstAfter, IsOrder;
    order := [];
    NoOrder(records);
    w := Sweep(expected, map[], 0, 0, 0);
    var todo := records.Keys;
    ghost var s: set<Position> := {};
    NothingTaken(h, es, records, expected);
    while todo != {}
      invariant s == records.Keys - todo && todo <= records.Keys
      invariant Remaining(h, es, records, s, w.expected)
      invariant w.unaccounted == Unaccounted(h, es, records, s)
      invariant w.lateOrEarly == |Outside(h, records, s)|
      invariant Flagged(h, es, w.expected)
      invariant w.split == 0 <==> NoSplit(records, s)
      invariant Firsts(records, s, w.first)
      invariant IsOrder(s, order) && Recorded(records, order) && w.first == FirstAfter(records, order)
      decreases |todo|
    {
      var p :| p in todo;
      OrderMore(records, s, order, p);
      RemainingStep(h, es, records, s, w.expected, p);
      PaysWhenLeft(h, es, records, s, w.expected, ClassOf(records[p]));
      UnaccountedStep(h, es, records, s, p);
      FirstsStep(records, s, w.first, p);
      OutsideAdd(h, records, s, p);
      PayKeepsFlags(h, es, w.expected, ClassOf(records[p]));
      w := TakeRecord(h, records, w, p);
      todo := todo - {p};
      s := s + {p};
      order := order + [p];
    }
    assert s == records.Keys;
  }

  lemma NothingTaken(h: Header, es: seq<Entry>, records: Records, expected: map<Token, Expected>)
    requires Budgeted(h, es, expected)
    ensures Remaining(h, es, records, {}, expected) && Unaccounted(h, es, records, {}) == 0
    ensures NoSplit(records, {}) && Firsts(records, {}, map[]) && Outside(h, records, {}) == {}
  {
    hide Budget;
    assert forall c :: Members(records, {}, c) == {};
    SumZero(Classes(records), (c: Class) => Excess(|Members(records, {}, c)|, Budget(h, es, c)));
  }

  /** Every record is paid for exactly when no class has more records than attempts. */
  lemma AccountedMeans(h: Header, es: seq<Entry>, records: Records)
    ensures Unaccounted(h, es, records, records.Keys) == 0
            <==> forall c :: |Members(records, records.Keys, c)| <= Budget(h, es, c)
  {
    hide Budget;
    SumZero(Classes(records), (c: Class) => Excess(|Members(records, records.Keys, c)|, Budget(h, es, c)));
    forall c | c !in Classes(records) ensures |Members(records, records.Keys, c)| == 0 {
      assert Members(records, records.Keys, c) == {};
    }
  }

  // -------------------------------------------------------- canonical votes

  /** The votes that the least-offset records give. */
  function Leasts(records: Records, first: map<Token, Position>): map<Token, Vote>
    requires forall t | t in first :: first[t] in records
  {
    map t | t in first :: records[first[t]]
  }

  /** canonical gives every recorded token the vote of its record with the least offset. */
  ghost predicate CanonicalFirst(records: Records, canonical: map<Token, Vote>) {
    && (forall p | p in records :: records[p].token in canonical)
    && (forall t | t in canonical :: HasLeast(records, t, canonical[t]))
  }

  ghost predicate HasLeast(records: Records, t: Token, v: Vote) {
    exists p :: p in records && v == records[p] && LeastFor(records, t, p)
  }

  ghost predicate LeastFor(records: Records, t: Token, p: Position)
    requires p in records
  {
    records[p].token == t && forall q | q in records && records[q].token == t :: p.offset <= q.offset
  }

  /** The least-offset records of a token, if there are several, have the same vote. */
  ghost predicate NoTies(records: Records) {
    forall t, p, q | p in records && q in records && LeastFor(records, t, p) && LeastFor(records, t, q) :: records[p] == records[q]
  }

  lemma TieFree(records: Records, t: Token, p: Position, q: Position)
    requires NoTies(records) && p in records && q in records && LeastFor(records, t, p) && LeastFor(records, t, q)
    ensures records[p] == records[q]
  {
  }

  /** One record per partition and offset, as in a journal of version-1 records. */
  ghost predicate OnePerOffset(records: Records) {
    forall p, q | p in records && q in records && p.partition == q.partition && p.offset == q.offset :: p == q
  }

  lemma FirstIsLeast(records: Records, first: map<Token, Position>, t: Token)
    requires Firsts(records, records.Keys, first) && NoSplit(records, records.Keys) && t in first
    ensures first[t] in records && LeastFor(records, t, first[t])
  {
    hide NoSplit;
    forall q | q in records && records[q].token == t ensures first[t].offset <= q.offset {
      assert q in records.Keys;
    }
  }

  /** Then no token has two least-offset records, as long as none is split. */
  lemma OnePerOffsetHasNoTies(records: Records)
    requires NoSplit(records, records.Keys) && OnePerOffset(records)
    ensures NoTies(records)
  {
    forall t, p, q | p in records && q in records && LeastFor(records, t, p) && LeastFor(records, t, q) ensures records[p] == records[q] {
      assert p in records.Keys && q in records.Keys;
    }
  }

  /** first has a least-offset record for each token. */
  ghost predicate FirstsLeast(records: Records, first: map<Token, Position>) {
    && (forall p | p in records :: records[p].token in first)
    && (forall t | t in first :: first[t] in records && records[first[t]].token == t && LeastFor(records, t, first[t]))
  }

  lemma FirstsAreLeast(records: Records, first: map<Token, Position>)
    requires Firsts(records, records.Keys, first) && NoSplit(records, records.Keys)
    ensures FirstsLeast(records, first)
  {
    assert (forall p | p in records :: p in records.Keys);
    forall t | t in first ensures first[t] in records && records[first[t]].token == t && LeastFor(records, t, first[t]) {
      FirstIsLeast(records, first, t);
    }
  }

  lemma LeastsAreFirst(records: Records, first: map<Token, Position>)
    requires FirstsLeast(records, first)
    ensures CanonicalFirst(records, Leasts(records, first))
  {
    hide LeastFor;
    forall t | t in first ensures HasLeast(records, t, records[first[t]]) {
      assert LeastFor(records, t, first[t]);
    }
    hide HasLeast;
  }

  lemma LeastIsFirst(records: Records, first: map<Token, Position>, t: Token, v: Vote)
    requires FirstsLeast(records, first) && NoTies(records) && HasLeast(records, t, v)
    ensures t in first && v == records[first[t]]
  {
    hide NoTies, LeastFor;
    var p :| p in records && v == records[p] && LeastFor(records, t, p);
    LeastHasToken(records, t, p);
    TieFree(records, t, p, first[t]);
  }

  lemma CanonicalIsLeasts(records: Records, first: map<Token, Position>, canonical: map<Token, Vote>)
    requires FirstsLeast(records, first) && NoTies(records)
    requires CanonicalFirst(records, canonical)
    ensures canonical == Leasts(records, first)
  {
    hide NoTies, LeastFor, HasLeast;
    forall t | t in canonical ensures t in first && canonical[t] == records[first[t]] {
      LeastIsFirst(records, first, t, canonical[t]);
    }
    assert forall t | t in first :: t in canonical;
  }

  /** The first records found in any order give canonical votes. */
  lemma LeastsAreCanonical(records: Records, first: map<Token, Position>)
    requires Firsts(records, records.Keys, first) && NoSplit(records, records.Keys)
    ensures FirstsLeast(records, first) && CanonicalFirst(records, Leasts(records, first))
  {
    hide Firsts, NoSplit, CanonicalFirst, Leasts;
    FirstsAreLeast(records, first);
    LeastsAreFirst(records, first);
  }

  /** Whichever order found the first records, the canonical votes are theirs exactly when each is at its token's least offset. */
  lemma CanonicalMeans(records: Records, first: map<Token, Position>, canonical: map<Token, Vote>)
    requires Firsts(records, records.Keys, first) && NoSplit(records, records.Keys) && NoTies(records)
    ensures FirstsLeast(records, first) && (canonical == Leasts(records, first) <==> CanonicalFirst(records, canonical))
  {
    hide Firsts, NoSplit, NoTies, CanonicalFirst, Leasts;
    LeastsAreCanonical(records, first);
    if CanonicalFirst(records, canonical) { CanonicalIsLeasts(records, first, canonical); }
  }

  lemma LeastHasToken(records: Records, t: Token, p: Position)
    requires p in records && LeastFor(records, t, p)
    ensures records[p].token == t
  {
  }

  function AddChoice(counts: seq<nat>, choice: u32): (r: seq<nat>)
    requires |counts| == 32
    ensures |r| == 32
  {
    seq(32, b requires 0 <= b < 32 => counts[b] + (if Bit(choice, b) then 1 else 0))
  }

  lemma AddChoiceCounts(votes: map<Token, Vote>, counts: seq<nat>, v: Vote)
    requires CountsMatch(votes, counts) && v.token !in votes
    ensures |counts| == 32 && CountsMatch(votes[v.token := v], AddChoice(counts, v.choice))
  {
    CountsAdd(votes, counts, v);
    assert AddChoice(counts, v.choice) == seq(32, b requires 0 <= b < 32 => counts[b] + (if Bit(v.choice, b) then 1 else 0));
  }

  lemma SameSize<A, B, C>(a: map<A, B>, b: map<A, C>)
    requires a.Keys == b.Keys
    ensures |a| == |b|
  {
    assert |a| == |a.Keys| && |b| == |b.Keys|;
  }

  /** Compares the journal's canonical votes and counts with the first records found. */
  method CompareFirsts(records: Records, first: map<Token, Position>, canonical: map<Token, Vote>, counts: seq<nat>)
    returns (mismatches: nat)
    requires Firsts(records, records.Keys, first) && |counts| == 32
    ensures mismatches == 0 <==> canonical == Leasts(records, first) && CountsMatch(canonical, counts)
  {
    hide CountsMatch, Firsts, Leasts, AddChoice, Agrees, FirstsToken, Copies, Partway;
    mismatches := 0;
    var independent: seq<nat> := seq(32, _ => 0);
    var todo := first.Keys;
    ghost var done: map<Token, Vote> := map[];
    FirstsKnown(records, first);
    NoCopies(records, first);
    PartwayStart(first);
    NobodyChose();
    NothingDisagrees(canonical);
    while todo != {}
      invariant Partway(first, todo, done)
      invariant Copies(records, first, done)
      invariant CountsMatch(done, independent) && |independent| == 32
      invariant mismatches == 0 <==> Agrees(canonical, done)
      invariant FirstsToken(records, first)
      decreases |todo|
    {
      var t :| t in todo;
      InFirst(first, todo, done, t);
      TokenOfFirst(records, first, t);
      PartwayNext(first, todo, done, t, records[first[t]]);
      var v := records[first[t]];
      CopiesAdd(records, first, done, t);
      AgreesAdd(canonical, done, t, v);
      if t !in canonical || canonical[t] != v {
        mismatches := mismatches + 1;
      }
      AddChoiceCounts(done, independent, v);
      independent := AddChoice(independent, v.choice);
      done := done[t := v];
      todo := todo - {t};
    }
    PartwayEnd(first, done);
    IsLeasts(records, first, done);
    if |first| != |canonical| || independent != counts {
      mismatches := mismatches + 1;
    }
    MismatchTest(done, canonical, independent, counts);
  }

  ghost predicate Agrees(canonical: map<Token, Vote>, done: map<Token, Vote>) {
    forall t | t in done :: t in canonical && canonical[t] == done[t]
  }

  lemma AgreesAdd(canonical: map<Token, Vote>, done: map<Token, Vote>, t: Token, v: Vote)
    requires t !in done
    ensures Agrees(canonical, done[t := v]) <==> Agrees(canonical, done) && t in canonical && canonical[t] == v
  {
    if Agrees(canonical, done[t := v]) {
      forall u | u in done ensures u in canonical && canonical[u] == done[u] { assert u in done[t := v]; }
    }
  }

  ghost predicate Partway(first: map<Token, Position>, todo: set<Token>, done: map<Token, Vote>) {
    todo <= first.Keys && done.Keys == first.Keys - todo
  }

  lemma PartwayStart(first: map<Token, Position>)
    ensures Partway(first, first.Keys, map[])
  {
  }

  lemma InFirst(first: map<Token, Position>, todo: set<Token>, done: map<Token, Vote>, t: Token)
    requires Partway(first, todo, done) && t in todo
    ensures t in first && t !in done
  {
  }

  lemma PartwayNext(first: map<Token, Position>, todo: set<Token>, done: map<Token, Vote>, t: Token, v: Vote)
    requires Partway(first, todo, done) && t in todo
    ensures Partway(first, todo - {t}, done[t := v])
  {
  }

  lemma PartwayEnd(first: map<Token, Position>, done: map<Token, Vote>)
    requires Partway(first, {}, done)
    ensures done.Keys == first.Keys
  {
  }

  lemma NothingDisagrees(canonical: map<Token, Vote>)
    ensures Agrees(canonical, map[])
  {
  }

  /** done holds the votes of the first records of some tokens. */
  ghost predicate Copies(records: Records, first: map<Token, Position>, done: map<Token, Vote>) {
    forall t | t in done :: t in first && first[t] in records && done[t] == records[first[t]]
  }

  lemma NoCopies(records: Records, first: map<Token, Position>)
    ensures Copies(records, first, map[])
  {
  }

  lemma CopiesAdd(records: Records, first: map<Token, Position>, done: map<Token, Vote>, t: Token)
    requires Copies(records, first, done) && t in first && first[t] in records
    ensures Copies(records, first, done[t := records[first[t]]])
  {
  }

  lemma TokenOfFirst(records: Records, first: map<Token, Position>, t: Token)
    requires FirstsToken(records, first) && t in first
    ensures first[t] in records && records[first[t]].token == t
  {
  }

  lemma FirstsKnown(records: Records, first: map<Token, Position>)
    requires Firsts(records, records.Keys, first)
    ensures FirstsToken(records, first)
  {
  }

  ghost predicate FirstsToken(records: Records, first: map<Token, Position>) {
    forall t | t in first :: first[t] in records && records[first[t]].token == t
  }

  lemma IsLeasts(records: Records, first: map<Token, Position>, done: map<Token, Vote>)
    requires done.Keys == first.Keys && FirstsToken(records, first) && Copies(records, first, done)
    ensures done == Leasts(records, first) && |done| == |first|
  {
    SameSize(done, first);
  }

  lemma MismatchTest(least: map<Token, Vote>, canonical: map<Token, Vote>, independent: seq<nat>, counts: seq<nat>)
    requires CountsMatch(least, independent) && |counts| == 32
    ensures Agrees(canonical, least) && |least| == |canonical| && independent == counts
            <==> canonical == least && CountsMatch(canonical, counts)
  {
    hide Choosers;
    if Agrees(canonical, least) && |least| == |canonical| {
      assert least.Keys <= canonical.Keys;
      Subset(least.Keys, canonical.Keys);
      assert canonical == least;
    }
    if CountsMatch(least, counts) {
      assert independent == counts;
    }
  }

  // ------------------------------------------------------------------- keys

  ghost function RecordTokens(records: Records): set<Token> {
    set p | p in records :: records[p].token
  }

  lemma FirstsAreTokens(records: Records, first: map<Token, Position>)
    requires Firsts(records, records.Keys, first)
    ensures first.Keys == RecordTokens(records) && |first| == |RecordTokens(records)|
  {
    assert |first| == |first.Keys|;
  }

  /** How many of these tokens the loop has passed. */
  ghost function Passed(all: set<Token>, todo: set<Token>): nat {
    |all - todo|
  }

  lemma PassedNext(all: set<Token>, todo: set<Token>, t: Token)
    requires t in todo
    ensures Passed(all, todo - {t}) == Passed(all, todo) + (if t in all then 1 else 0)
  {
    assert all - (todo - {t}) == (all - todo) + if t in all then {t} else {};
  }

  lemma PassedEnds(all: set<Token>, todo: set<Token>)
    ensures all <= todo ==> Passed(all, todo) == 0
    ensures Passed(all, {}) == |all|
  {
    assert all - {} == all;
  }

  ghost function UnknownPresent(h: Header, es: seq<Entry>, records: Records): set<Token> {
    TokensWhere(es, Unknowns(h)) * RecordTokens(records)
  }

  ghost function NoReceipt(h: Header, es: seq<Entry>, records: Records): set<Token> {
    TokensWhere(es, Lines(h)) * RecordTokens(records) - TokensWhere(es, Receipts(h))
  }

  /** What the flags of a token's entry say. */
  lemma FlagsSay(h: Header, es: seq<Entry>, records: Records, expected: map<Token, Expected>, t: Token)
    requires Flagged(h, es, expected) && t in expected
    ensures expected[t].confirmed <==> t in TokensWhere(es, Receipts(h))
    ensures t in RecordTokens(records) && expected[t].unknown <==> t in UnknownPresent(h, es, records)
    ensures t in RecordTokens(records) && !expected[t].confirmed <==> t in NoReceipt(h, es, records)
  {
    hide TokensWhere, RecordTokens;
    assert t in Confirmed(expected) <==> expected[t].confirmed;
    assert t in Unsure(expected) <==> expected[t].unknown;
  }

  lemma FlaggedTokens(h: Header, es: seq<Entry>, records: Records, expected: map<Token, Expected>)
    requires Flagged(h, es, expected)
    ensures TokensWhere(es, Receipts(h)) <= expected.Keys
    ensures UnknownPresent(h, es, records) <= expected.Keys && NoReceipt(h, es, records) <= expected.Keys
  {
    hide TokensWhere, RecordTokens;
  }

  /** The last loop: confirmed keys, and recorded keys with an unknown attempt or without a receipt. */
  method CountKeys(h: Header, ghost es: seq<Entry>, ghost records: Records, expected: map<Token, Expected>, first: map<Token, Position>)
    returns (confirmed: nat, unknownPresent: nat, noReceipt: nat)
    requires Flagged(h, es, expected) && first.Keys == RecordTokens(records)
    ensures confirmed == |TokensWhere(es, Receipts(h))|
    ensures unknownPresent == |UnknownPresent(h, es, records)| && noReceipt == |NoReceipt(h, es, records)|
  {
    hide Flagged, TokensWhere, UnknownPresent, NoReceipt, RecordTokens, Passed;
    confirmed, unknownPresent, noReceipt := 0, 0, 0;
    ghost var sure, unsure, bare := TokensWhere(es, Receipts(h)), UnknownPresent(h, es, records), NoReceipt(h, es, records);
    var todo := expected.Keys;
    FlaggedTokens(h, es, records, expected);
    PassedEnds(sure, todo);
    PassedEnds(unsure, todo);
    PassedEnds(bare, todo);
    while todo != {}
      invariant todo <= expected.Keys
      invariant confirmed == Passed(sure, todo) && unknownPresent == Passed(unsure, todo) && noReceipt == Passed(bare, todo)
      decreases |todo|
    {
      var t :| t in todo;
      FlagsSay(h, es, records, expected, t);
      PassedNext(sure, todo, t);
      PassedNext(unsure, todo, t);
      PassedNext(bare, todo, t);
      if expected[t].confirmed {
        confirmed := confirmed + 1;
      }
      if t in first {
        if expected[t].unknown {
          unknownPresent := unknownPresent + 1;
        }
        if !expected[t].confirmed {
          noReceipt := noReceipt + 1;
        }
      }
      todo := todo - {t};
    }
    PassedEnds(sure, todo);
    PassedEnds(unsure, todo);
    PassedEnds(bare, todo);
  }

  // -------------------------------------------------------------- reconcile

  /** The votes that the audit compares with the canonical ones, for one order. */
  ghost function VotesAfter(records: Records, order: seq<Position>): map<Token, Vote> {
    map t | t in FirstAfter(records, order) && FirstAfter(records, order)[t] in records :: records[FirstAfter(records, order)[t]]
  }

  /** The audit's verdict on canonical votes and counts, for one order: no mismatch. */
  ghost predicate Agreed(records: Records, order: seq<Position>, canonical: map<Token, Vote>, counts: seq<nat>) {
    canonical == VotesAfter(records, order) && CountsMatch(canonical, counts)
  }

  lemma LeastsOfOrder(records: Records, order: seq<Position>, first: map<Token, Position>)
    requires first == FirstAfter(records, order) && Firsts(records, records.Keys, first)
    ensures (forall t | t in first :: first[t] in records) && Leasts(records, first) == VotesAfter(records, order)
  {
    hide FirstAfter;
    assert forall t | t in first :: first[t] in records;
  }

  /** The ledger and the journal explain each other. */
  ghost predicate Explained(h: Header, es: seq<Entry>, a: AuditResult) {
    && HeaderOk(h, es) && FixtureOk(h, es) && ReceiptsOk(h, a.records, es)
    && (forall c :: |Members(a.records, a.records.Keys, c)| <= Budget(h, es, c))
    && (forall p | p in a.records :: InWindow(h, a.records[p]))
    && NoSplit(a.records, a.records.Keys)
    && CanonicalFirst(a.records, a.canonical) && CountsMatch(a.canonical, a.counts)
    && |a.records| == a.total && |a.closed| == h.partitions
  }

  /** What the comparison with the first records of one order says. */
  lemma VerdictMeans(a: AuditResult, order: seq<Position>, first: map<Token, Position>)
    requires first == FirstAfter(a.records, order) && Firsts(a.records, a.records.Keys, first)
    ensures forall t | t in first :: first[t] in a.records
    ensures var same := a.canonical == Leasts(a.records, first) && CountsMatch(a.canonical, a.counts);
      && (same <==> Agreed(a.records, order, a.canonical, a.counts))
      && (NoSplit(a.records, a.records.Keys) ==>
            && (same ==> CanonicalFirst(a.records, a.canonical) && CountsMatch(a.canonical, a.counts))
            && (NoTies(a.records) ==> (same <==> CanonicalFirst(a.records, a.canonical) && CountsMatch(a.canonical, a.counts))))
  {
    hide CountsMatch, Firsts, Leasts, NoSplit, NoTies, FirstAfter, VotesAfter, CanonicalFirst;
    LeastsOfOrder(a.records, order, first);
    if NoSplit(a.records, a.records.Keys) {
      LeastsAreCanonical(a.records, first);
      if NoTies(a.records) { CanonicalMeans(a.records, first, a.canonical); }
    }
  }

  /** Dispatched recorded or unknown lines of a class, whatever else they say. */
  ghost function Attempted(c: Class): Entry -> bool {
    (e: Entry) => e.token == c.token && e.choice == c.choice && e.outcome in {1, 6} && e.dispatchNS > 0
  }

  lemma {:induction false} BudgetIsAttempts(h: Header, es: seq<Entry>, c: Class)
    requires forall i | 0 <= i < |es| :: Readable(h, es[i])
    ensures Budget(h, es, c) == |Where(es, Attempted(c))|
  {
    hide Readable;
    if es == [] {
      assert Where(es, Attempted(c)) == {};
    } else {
      var n := |es| - 1;
      assert es == es[..n] + [es[n]];
      BudgetIsAttempts(h, es[..n], c);
      WhereAdd(es[..n], es[n], Attempted(c));
    }
  }

  /** A line as the generator writes it. */
  ghost predicate Proper(h: Header, e: Entry) {
    && e.key < h.keys && e.token != ZERO_TOKEN && e.choice in {1, 2} && e.outcome <= 9
    && (e.outcome in {1, 6} ==> e.dispatchNS > 0)
  }

  /** The receipt's record is where the receipt says, with its token, choice and admission. */
  ghost predicate Found(records: Records, e: Entry) {
    && e.partition >= 0 && e.offset >= 0
    && var p := Position(e.partition, e.offset, 0);
      p in records && records[p].token == e.token && records[p].choice == e.choice && records[p].admittedAt == e.admittedAt
  }

  lemma LinesProper(h: Header, es: seq<Entry>)
    ensures Bound(h, es) <==>
              && (forall i | 0 <= i < |es| :: Proper(h, es[i]))
              && (forall i, j | 0 <= i < |es| && 0 <= j < |es| :: es[i].token == es[j].token <==> es[i].key == es[j].key)
  {
    assert forall e :: Proper(h, e) <==> Readable(h, e) && ((e.outcome == RECORDED || e.outcome == UNKNOWN) ==> e.dispatchNS > 0);
    hide Proper, Readable;
  }

  lemma ReceiptsFound(h: Header, records: Records, es: seq<Entry>)
    requires Bound(h, es)
    ensures ReceiptsOk(h, records, es) <==> forall i | 0 <= i < |es| && es[i].outcome == 1 :: Found(records, es[i])
  {
    assert forall e: Entry :: Honoured(records, e) <==> (e.outcome == 1 ==> Found(records, e));
    hide Readable, Honoured, Found;
  }

  lemma AttemptsPay(h: Header, es: seq<Entry>, records: Records)
    requires Bound(h, es)
    ensures (forall c :: |Members(records, records.Keys, c)| <= Budget(h, es, c))
            <==> forall c :: |Members(records, records.Keys, c)| <= |Where(es, Attempted(c))|
  {
    hide Readable, Budget, Where, Attempted, Members;
    forall c ensures Budget(h, es, c) == |Where(es, Attempted(c))| { BudgetIsAttempts(h, es, c); }
  }

  /** Explained, line by line and record by record. */
  lemma ExplainedMeans(h: Header, es: seq<Entry>, a: AuditResult)
    ensures Explained(h, es, a) <==>
              && |es| == h.entries && 0 < |es| <= 12_000_000 && 0 < h.keys <= |es|
              && (forall i | 0 <= i < |es| :: Proper(h, es[i]))
              && (forall i, j | 0 <= i < |es| && 0 <= j < |es| :: es[i].token == es[j].token <==> es[i].key == es[j].key)
              && (forall k: nat | k < h.keys :: k in KeysOf(es))
              && (forall i | 0 <= i < |es| && es[i].outcome == 1 :: Found(a.records, es[i]))
              && (forall c :: |Members(a.records, a.records.Keys, c)| <= |Where(es, Attempted(c))|)
              && (forall p | p in a.records :: h.startsAt <= a.records[p].admittedAt < h.endsAt)
              && (forall p, q | p in a.records && q in a.records && a.records[p].token == a.records[q].token :: p.partition == q.partition)
              && CanonicalFirst(a.records, a.canonical) && CountsMatch(a.canonical, a.counts)
              && |a.records| == a.total && |a.closed| == h.partitions
  {
    LinesProper(h, es);
    if Bound(h, es) {
      ReceiptsFound(h, a.records, es);
      AttemptsPay(h, es, a.records);
    }
    SplitMeans(a.records);
    hide CanonicalFirst, CountsMatch, Members, Budget, Where, Attempted, Bound, Proper, Found, Readable, ReceiptsOk, NoSplit;
  }

  lemma SplitMeans(records: Records)
    ensures NoSplit(records, records.Keys)
            <==> forall p, q | p in records && q in records && records[p].token == records[q].token :: p.partition == q.partition
  {
    assert forall p | p in records :: p in records.Keys;
  }

  /** The counters that no iteration order changes. */
  ghost predicate Accounted(h: Header, es: seq<Entry>, a: AuditResult, r: Report) {
    && Tallied(h, a.records, es, r)
    && r.confirmedKeys == |TokensWhere(es, Receipts(h))|
    && r.unknownPresent == |UnknownPresent(h, es, a.records)|
    && r.noReceipt == |NoReceipt(h, es, a.records)|
    && r.duplicates == Excess(a.total, |RecordTokens(a.records)|)
    && r.lateOrEarly == |Outside(h, a.records, a.records.Keys)|
    && r.unaccounted == Unaccounted(h, es, a.records, a.records.Keys)
  }

  /**
   * reconcile: the verdict on canonical votes is that of one iteration order, the other counts are the same
   * for all; where no order matters, correct exactly when ledger and journal explain each other.
   */
  method Reconcile(h: Header, es: seq<Entry>, a: AuditResult) returns (r: Report)
    requires |a.counts| == 32
    ensures (NoSplit(a.records, a.records.Keys) ==> NoTies(a.records)) ==> (r.correct <==> Explained(h, es, a))
    ensures !HeaderOk(h, es) ==> r == BLANK.(invalid := 1)
    ensures HeaderOk(h, es) ==> Accounted(h, es, a, r)
    ensures HeaderOk(h, es) ==> (r.invalid == 0 <==> FixtureOk(h, es))
    ensures HeaderOk(h, es) ==> (r.split == 0 <==> NoSplit(a.records, a.records.Keys))
    ensures HeaderOk(h, es) ==> exists order ::
              IsOrder(a.records.Keys, order) && (r.mismatches == 0 <==> Agreed(a.records, order, a.canonical, a.counts))
    ensures r.correct ==> Explained(h, es, a)
  {
    hide FixtureOk, ReceiptsOk, TokensWhere, Flagged, UnknownPresent, NoReceipt, RecordTokens, Outside, Where, Members, Budget, InWindow, NoSplit, CanonicalFirst, CountsMatch, Budgeted, Binds, Firsts, Leasts, Unaccounted, NoTies, IsOrder, FirstAfter, VotesAfter;
    if !HeaderOk(h, es) {
      return BLANK.(invalid := 1);
    }
    var l := ReadLedger(h, a.records, es);
    FixtureTest(h, es, l);
    r := l.r;
    if l.bound != h.keys || |l.expected| != h.keys {
      r := r.(invalid := r.invalid + 1);
    }
    var w, order := SweepRecords(h, es, a.records, l.expected);
    AccountedMeans(h, es, a.records);
    OutsideMeans(h, a.records);
    FirstsAreTokens(a.records, w.first);
    var mismatches := CompareFirsts(a.records, w.first, a.canonical, a.counts);
    VerdictMeans(a, order, w.first);
    var confirmed, unknownPresent, noReceipt := CountKeys(h, es, a.records, w.expected, w.first);
    r := r.(confirmedKeys := confirmed, unknownPresent := unknownPresent, noReceipt := noReceipt);
    if a.total >= |w.first| {
      r := r.(duplicates := a.total - |w.first|);
    }
    r := r.(unaccounted := w.unaccounted, lateOrEarly := w.lateOrEarly, split := w.split, mismatches := mismatches);
    r := r.(correct := r.missing == 0 && r.wrong == 0 && r.mismatches == 0 && r.split == 0 && r.invalid == 0 && r.unaccounted == 0
                       && r.lateOrEarly == 0 && |a.records| == a.total && |a.closed| == h.partitions);
  }

  // ------------------------------------------- when iteration order shows

  /** Of a token's records taken so far the first with the least offset is kept. */
  ghost predicate KeptAt(records: Records, order: seq<Position>, t: Token, k: nat)
    requires Recorded(records, order) && k < |order|
  {
    && records[order[k]].token == t
    && (forall j | 0 <= j < |order| && records[order[j]].token == t :: order[k].offset <= order[j].offset)
    && (forall j | 0 <= j < k && records[order[j]].token == t :: order[k].offset < order[j].offset)
  }

  lemma {:induction false} KeptFirst(records: Records, order: seq<Position>, t: Token) returns (k: int)
    requires Recorded(records, order) && NoSplit(records, records.Keys)
    ensures t in FirstAfter(records, order) <==> k >= 0
    ensures k < 0 ==> forall j | 0 <= j < |order| :: records[order[j]].token != t
    ensures k >= 0 ==> k < |order| && FirstAfter(records, order)[t] == order[k] && KeptAt(records, order, t, k)
  {
    hide NoSplit, KeptAt;
    if order == [] {
      return -1;
    }
    var n := |order| - 1;
    var less := order[..n];
    assert forall i | 0 <= i < n :: less[i] == order[i];
    k := KeptFirst(records, less, t);
    assert FirstAfter(records, order) == Earlier(FirstAfter(records, less), records[order[n]].token, order[n]);
    hide FirstAfter;
    if k >= 0 { KeptHasToken(records, less, t, k); }
    if records[order[n]].token == t && (k < 0 || order[n].offset < order[k].offset) {
      if k >= 0 { OnePartition(records, order[k], order[n]); }
      KeptLast(records, order, t, k);
      k := n;
    } else if k >= 0 {
      KeptStill(records, order, t, k);
    }
  }

  lemma KeptHasToken(records: Records, order: seq<Position>, t: Token, k: nat)
    requires Recorded(records, order) && k < |order| && KeptAt(records, order, t, k)
    ensures records[order[k]].token == t
  {
  }

  lemma OnePartition(records: Records, p: Position, q: Position)
    requires NoSplit(records, records.Keys) && p in records && q in records && records[p].token == records[q].token
    ensures p.partition == q.partition
  {
    assert p in records.Keys && q in records.Keys;
  }

  /** A last record with a lesser offset than all before it is kept. */
  lemma KeptLast(records: Records, order: seq<Position>, t: Token, k: int)
    requires Recorded(records, order) && order != [] && records[order[|order| - 1]].token == t && k < |order| - 1
    requires k < 0 ==> forall j | 0 <= j < |order| - 1 :: records[order[j]].token != t
    requires k >= 0 ==> KeptAt(records, order[..|order| - 1], t, k) && order[|order| - 1].offset < order[k].offset
    ensures KeptAt(records, order, t, |order| - 1)
  {
    var less := order[..|order| - 1];
    assert forall j | 0 <= j < |less| :: less[j] == order[j];
  }

  /** Otherwise the kept record stays. */
  lemma KeptStill(records: Records, order: seq<Position>, t: Token, k: nat)
    requires Recorded(records, order) && k < |order| - 1 && KeptAt(records, order[..|order| - 1], t, k)
    requires records[order[|order| - 1]].token != t || order[k].offset <= order[|order| - 1].offset
    ensures KeptAt(records, order, t, k)
  {
    var less := order[..|order| - 1];
    assert forall j | 0 <= j < |less| :: less[j] == order[j];
  }

  lemma {:induction false} SomeOrder(s: set<Position>) returns (order: seq<Position>)
    ensures IsOrder(s, order)
    decreases |s|
  {
    if |s| == 0 {
      assert s == {};
      return [];
    }
    var p := Pick(s);
    var rest := SomeOrder(s - {p});
    order := [p] + rest;
    assert forall i | 0 < i < |order| :: order[i] == rest[i - 1];
    forall q ensures q in order <==> q in s {
      assert q in order <==> q == p || q in rest;
    }
  }

  lemma OrdersBegin(records: Records, p: Position, q: Position) returns (order: seq<Position>)
    requires p in records && q in records && p != q
    ensures IsOrder(records.Keys, order) && |order| >= 2 && order[0] == p
  {
    var rest := SomeOrder(records.Keys - {p, q});
    order := [p, q] + rest;
    assert forall i | 2 <= i < |order| :: order[i] == rest[i - 2] && order[i] in rest;
    forall r ensures r in order <==> r in records.Keys {
      assert r in order <==> r == p || r == q || r in rest;
    }
  }

  lemma OrderRecorded(records: Records, order: seq<Position>)
    requires IsOrder(records.Keys, order)
    ensures Recorded(records, order)
  {
    assert forall i | 0 <= i < |order| :: order[i] in order;
  }

  /** A least-offset record taken first is the one kept. */
  lemma FirstTakenKept(records: Records, order: seq<Position>, t: Token, p: Position)
    requires NoSplit(records, records.Keys) && IsOrder(records.Keys, order) && p in records && LeastFor(records, t, p)
    requires |order| > 0 && order[0] == p
    ensures t in FirstAfter(records, order) && FirstAfter(records, order)[t] == p
  {
    hide NoSplit, FirstAfter, IsOrder;
    OrderRecorded(records, order);
    var k := KeptFirst(records, order, t);
  }

  /** Whatever the order, the kept record is a least-offset one of its token. */
  lemma KeptIsLeast(records: Records, a: seq<Position>, t: Token)
    requires NoSplit(records, records.Keys) && IsOrder(records.Keys, a)
    ensures t in FirstAfter(records, a) <==> exists p :: p in records && records[p].token == t
    ensures t in FirstAfter(records, a) ==> FirstAfter(records, a)[t] in records && LeastFor(records, t, FirstAfter(records, a)[t])
  {
    hide NoSplit, FirstAfter;
    OrderRecorded(records, a);
    var k := KeptFirst(records, a, t);
    if k >= 0 {
      forall q | q in records && records[q].token == t ensures a[k].offset <= q.offset { assert q in a; }
    } else {
      forall p | p in records ensures records[p].token != t { assert p in a; }
    }
  }

  lemma SameVotes(records: Records, a: seq<Position>, b: seq<Position>)
    requires NoSplit(records, records.Keys) && NoTies(records) && IsOrder(records.Keys, a) && IsOrder(records.Keys, b)
    ensures VotesAfter(records, a) == VotesAfter(records, b)
  {
    hide NoSplit, FirstAfter, NoTies, IsOrder;
    forall t ensures t in FirstAfter(records, a) <==> t in FirstAfter(records, b)
             ensures t in FirstAfter(records, a) ==>
                       && FirstAfter(records, a)[t] in records && FirstAfter(records, b)[t] in records
                       && records[FirstAfter(records, a)[t]] == records[FirstAfter(records, b)[t]]
    {
      KeptIsLeast(records, a, t);
      KeptIsLeast(records, b, t);
      if t in FirstAfter(records, a) { TieFree(records, t, FirstAfter(records, a)[t], FirstAfter(records, b)[t]); }
    }
  }

  /** Counts that match some votes. */
  ghost function CountsOf(votes: map<Token, Vote>): (counts: seq<nat>)
    ensures CountsMatch(votes, counts)
  {
    seq(32, b requires 0 <= b < 32 => |Choosers(votes, b)|)
  }

  /**
   * With no token split, the verdict on the canonical votes is the same for every iteration order, whatever
   * the journal's audit reported, exactly if no token has two least-offset records with different votes.
   */
  lemma OrderShowsOnTies(records: Records)
    requires NoSplit(records, records.Keys)
    ensures NoTies(records) <==>
            forall a, b, canonical, counts | IsOrder(records.Keys, a) && IsOrder(records.Keys, b) ::
              Agreed(records, a, canonical, counts) == Agreed(records, b, canonical, counts)
  {
    hide NoSplit, FirstAfter, LeastFor, CountsMatch, IsOrder, VotesAfter;
    if NoTies(records) {
      hide NoTies;
      forall a, b, canonical, counts | IsOrder(records.Keys, a) && IsOrder(records.Keys, b)
        ensures Agreed(records, a, canonical, counts) == Agreed(records, b, canonical, counts)
      {
        SameVotes(records, a, b);
      }
    } else {
      var t, p, q :| p in records && q in records && LeastFor(records, t, p) && LeastFor(records, t, q) && records[p] != records[q];
      var a, b := TieOrders(records, t, p, q);
      var counts := CountsOf(VotesAfter(records, a));
      assert Agreed(records, a, VotesAfter(records, a), counts) && !Agreed(records, b, VotesAfter(records, a), counts);
    }
  }

  /** Two orders under which different votes are kept. */
  lemma TieOrders(records: Records, t: Token, p: Position, q: Position) returns (a: seq<Position>, b: seq<Position>)
    requires NoSplit(records, records.Keys) && p in records && q in records && LeastFor(records, t, p) && LeastFor(records, t, q)
    requires records[p] != records[q]
    ensures IsOrder(records.Keys, a) && IsOrder(records.Keys, b) && VotesAfter(records, a) != VotesAfter(records, b)
  {
    hide NoSplit, FirstAfter, LeastFor, IsOrder;
    a := OrdersBegin(records, p, q);
    b := OrdersBegin(records, q, p);
    FirstTakenKept(records, a, t, p);
    FirstTakenKept(records, b, t, q);
    assert VotesAfter(records, a)[t] != VotesAfter(records, b)[t];
  }
}
