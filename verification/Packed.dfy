/**
 * The benchmark's expected-choice bitmap (cmd/corebench/metrics.go): two bits per key, packed four to a
 * byte, written by many workers without locks because each owns whole chunks of keys.
 */
module Packed {
  import opened Arithmetic
  import opened Wrappers

  /** c.workers and c.bufferSize. */
  datatype Layout = Layout(keys: nat, workers: nat, buffer: nat)
  {
    predicate Valid() {
      workers >= 1 && buffer >= 4 && buffer % 4 == 0
    }

    /** The worker whose strided chunks hold the key. */
    function Owner(key: nat): (w: nat)
      requires Valid()
      ensures w < workers
    {
      (key / buffer) % workers
    }
  }

  function ToBits(choice: nat): bv8 {
    if choice == 0 then 0 else if choice == 1 then 1 else if choice == 2 then 2 else 3
  }

  function FromBits(b: bv8): nat {
    if b == 0 then 0 else if b == 1 then 1 else if b == 2 then 2 else 3
  }

  function Shift(key: nat): (s: nat)
    ensures s in {0, 2, 4, 6}
  {
    key % 4 * 2
  }

  function PutAt(b: bv8, s: nat, c: bv8): bv8
    requires s <= 6
  {
    (b & !((3 as bv8) << s)) | (c << s)
  }

  function GetAt(b: bv8, s: nat): bv8
    requires s <= 6
  {
    (b >> s) & 3
  }

  /** setChoice's new byte. */
  function PutChoice(b: bv8, key: nat, choice: nat): bv8 {
    PutAt(b, Shift(key), ToBits(choice))
  }

  /** getChoice of a byte. */
  function ByteChoice(b: bv8, key: nat): nat {
    FromBits(GetAt(b, Shift(key)))
  }

  function ChoiceOf(bitmap: seq<bv8>, key: nat): nat
    requires key / 4 < |bitmap|
  {
    ByteChoice(bitmap[key / 4], key)
  }

  lemma PutThenGet(b: bv8, key: nat, choice: nat, other: nat)
    requires choice < 4
    ensures ByteChoice(PutChoice(b, key, choice), key) == choice
    ensures other % 4 != key % 4 ==> ByteChoice(PutChoice(b, key, choice), other) == ByteChoice(b, other)
  {
    BitsRound(choice);
    if other % 4 != key % 4 { ShiftsDiffer(key, other); }
    hide PutAt, GetAt, FromBits, ToBits, Shift;
    BitsApart(b, ToBits(choice), Shift(key), Shift(other));
  }

  lemma BitsRound(choice: nat)
    requires choice < 4
    ensures ToBits(choice) <= 3 && FromBits(ToBits(choice)) == choice
  {
  }

  lemma ShiftsDiffer(key: nat, other: nat)
    requires other % 4 != key % 4
    ensures Shift(other) != Shift(key)
  {
  }

  lemma BitsApart(b: bv8, c: bv8, s: nat, o: nat)
    requires s in {0, 2, 4, 6} && o in {0, 2, 4, 6} && c <= 3
    ensures GetAt(PutAt(b, s, c), s) == c
    ensures o != s ==> GetAt(PutAt(b, s, c), o) == GetAt(b, o)
  {
  }

  /** setChoice changes the key's choice and no other's. */
  method SetChoice(bitmap: array<bv8>, key: nat, choice: nat)
    requires key / 4 < bitmap.Length && choice < 4
    modifies bitmap
    ensures bitmap[..] == old(bitmap[..])[key / 4 := PutChoice(old(bitmap[key / 4]), key, choice)]
    ensures forall k: nat | k / 4 < bitmap.Length ::
              ChoiceOf(bitmap[..], k) == if k == key then choice else ChoiceOf(old(bitmap[..]), k)
  {
    SetOne(bitmap[..], key, choice);
    bitmap[key / 4] := PutChoice(bitmap[key / 4], key, choice);
  }

  lemma SetOne(bitmap: seq<bv8>, key: nat, choice: nat)
    requires key / 4 < |bitmap| && choice < 4
    ensures var next := bitmap[key / 4 := PutChoice(bitmap[key / 4], key, choice)];
      forall k: nat | k / 4 < |bitmap| :: ChoiceOf(next, k) == if k == key then choice else ChoiceOf(bitmap, k)
  {
    hide PutChoice, ByteChoice;
    forall k: nat | k / 4 < |bitmap|
      ensures ChoiceOf(bitmap[key / 4 := PutChoice(bitmap[key / 4], key, choice)], k)
           == if k == key then choice else ChoiceOf(bitmap, k)
    {
      PutThenGet(bitmap[key / 4], key, choice, k);
    }
  }

  // --------------------------------------------------- who writes which byte

  lemma QuotientBounds(k: nat, b: nat, q: nat)
    requires b > 0
    ensures q * b <= k < (q + 1) * b <==> k / b == q
  {
    var d := k / b;
    assert k == d * b + k % b;
    if d < q { assert (d + 1) * b <= q * b; }
    if d > q { assert (q + 1) * b <= d * b; }
  }

  /** Two keys that share a byte share a chunk, hence a worker. */
  lemma BytesHaveOneOwner(l: Layout, j: nat, k: nat)
    requires l.Valid() && j / 4 == k / 4
    ensures l.Owner(j) == l.Owner(k)
  {
    var m := l.buffer / 4;
    assert l.buffer == 4 * m;
    QuartersFit(j, m);
    QuartersFit(k, m);
  }

  lemma QuartersFit(k: nat, m: nat)
    requires m > 0
    ensures k / (4 * m) == k / 4 / m
  {
    var q := k / 4 / m;
    QuotientBounds(k / 4, m, q);
    assert q * (4 * m) == 4 * (q * m) && (q + 1) * (4 * m) == 4 * ((q + 1) * m);
    QuotientBounds(k, 4 * m, q);
  }

  /** The chunks of one stride: of the keys from chunk q on, the next that worker q % workers owns are chunk q's. */
  lemma StrideOwns(l: Layout, q: nat, key: nat)
    requires l.Valid() && q * l.buffer <= key < (q + l.workers) * l.buffer
    ensures l.Owner(key) == q % l.workers <==> key < (q + 1) * l.buffer
  {
    QuotientWithin(key, l.buffer, q, l.workers);
    QuotientBounds(key, l.buffer, q);
    SameRemainder(q, key / l.buffer, l.workers);
  }

  lemma QuotientWithin(key: nat, b: nat, q: nat, n: nat)
    requires b > 0 && q * b <= key < (q + n) * b
    ensures q <= key / b < q + n
  {
    var d := key / b;
    QuotientBounds(key, b, d);
    TimesLess(q, d + 1, b);
    TimesLess(d, q + n, b);
  }

  lemma TimesLess(x: nat, y: nat, n: nat)
    ensures x * n < y * n ==> x < y
  {
    if x >= y { Times(y, x, n); }
  }

  lemma SameRemainder(q: nat, d: nat, n: nat)
    requires n > 0 && q <= d < q + n
    ensures d % n == q % n <==> d == q
  {
    var a, b := q / n, d / n;
    assert q == a * n + q % n && d == b * n + d % n;
    if d % n == q % n {
      assert d - q == b * n - a * n;
      MultiplesApart(a, b, n);
    }
  }

  lemma MultiplesApart(a: nat, b: nat, n: nat)
    requires n > 0
    ensures b > a ==> b * n - a * n >= n
    ensures b <= a ==> b * n - a * n <= 0
  {
    if b > a {
      Times(a + 1, b, n);
      assert (a + 1) * n == a * n + n;
    } else {
      Times(b, a, n);
    }
  }

  // ------------------------------------- unsynchronised writes of many workers

  /** A setChoice in flight: the byte was read, the new one not yet written. */
  datatype Pending = Pending(key: nat, choice: nat, read: bv8)

  datatype Memory = Memory(bytes: seq<bv8>, pending: map<nat, Pending>)

  /** One worker's step: read the byte for a write, or write it back. */
  datatype Access = Read(worker: nat, key: nat, choice: nat) | Write(worker: nat)

  ghost predicate Owned(l: Layout, m: Memory) {
    && l.Valid() && |m.bytes| == (l.keys + 3) / 4
    && forall w | w in m.pending :: m.pending[w].key < l.keys && m.pending[w].choice < 4 && l.Owner(m.pending[w].key) == w
  }

  /** A worker accesses the keys of its own chunks only, one write at a time. */
  ghost predicate Allowed(l: Layout, m: Memory, a: Access)
    requires l.Valid()
  {
    match a
    case Read(w, key, choice) => w !in m.pending && key < l.keys && choice < 4 && l.Owner(key) == w
    case Write(w) => w in m.pending
  }

  function Perform(m: Memory, a: Access): Memory {
    match a
    case Read(w, key, choice) =>
      if key / 4 < |m.bytes| then m.(pending := m.pending[w := Pending(key, choice, m.bytes[key / 4])]) else m
    case Write(w) =>
      if w in m.pending && m.pending[w].key / 4 < |m.bytes| then
        var p := m.pending[w];
        Memory(m.bytes[p.key / 4 := PutChoice(p.read, p.key, p.choice)], m.pending - {w})
      else m
  }

  /** No byte changed under a write in flight. */
  ghost predicate Untorn(l: Layout, m: Memory)
    requires Owned(l, m)
  {
    forall w | w in m.pending :: m.bytes[m.pending[w].key / 4] == m.pending[w].read
  }

  /**
   * However the workers' reads and writes interleave, each completed write records its own choice and
   * changes no other key: no update is lost although bytes hold four keys.
   */
  lemma NoLostChoice(l: Layout, m: Memory, a: Access)
    requires Owned(l, m) && Untorn(l, m) && Allowed(l, m, a)
    ensures var n := Perform(m, a);
      && Owned(l, n) && Untorn(l, n)
      && forall k: nat | k < l.keys ::
           ChoiceOf(n.bytes, k) == if a.Write? && m.pending[a.worker].key == k then m.pending[a.worker].choice else ChoiceOf(m.bytes, k)
  {
    hide PutChoice, ByteChoice, Layout.Owner;
    if a.Write? {
      var p := m.pending[a.worker];
      SetOne(m.bytes, p.key, p.choice);
      forall w | w in m.pending && w != a.worker ensures m.pending[w].key / 4 != p.key / 4 {
        if m.pending[w].key / 4 == p.key / 4 { BytesHaveOneOwner(l, m.pending[w].key, p.key); }
      }
    }
  }

  // -------------------------------------------------------- runs of accesses

  /** The memory after a run of accesses to a bitmap of zero bytes. */
  function After(l: Layout, accesses: seq<Access>): Memory {
    if accesses == [] then Memory(seq((l.keys + 3) / 4, _ => 0), map[])
    else Perform(After(l, accesses[..|accesses| - 1]), accesses[|accesses| - 1])
  }

  ghost predicate IsRun(l: Layout, accesses: seq<Access>)
    requires l.Valid()
  {
    forall i | 0 <= i < |accesses| :: Allowed(l, After(l, accesses[..i]), accesses[i])
  }

  /** The setChoice call a worker made last: its key and choice. */
  function LastCall(accesses: seq<Access>, worker: nat): Option<(nat, nat)> {
    if accesses == [] then None
    else
      match accesses[|accesses| - 1]
      case Read(w, key, choice) => if w == worker then Some((key, choice)) else LastCall(accesses[..|accesses| - 1], worker)
      case Write(_) => LastCall(accesses[..|accesses| - 1], worker)
  }

  /** The choice of the last completed call for a key, as one worker alone would leave it; 0 before any. */
  function LastChoice(accesses: seq<Access>, key: nat): nat {
    if accesses == [] then 0
    else
      var before := accesses[..|accesses| - 1];
      match accesses[|accesses| - 1]
      case Read(_, _, _) => LastChoice(before, key)
      case Write(w) =>
        if LastCall(before, w).Some? && LastCall(before, w).value.0 == key then LastCall(before, w).value.1
        else LastChoice(before, key)
  }

  ghost predicate CallsPending(m: Memory, accesses: seq<Access>) {
    forall w | w in m.pending :: LastCall(accesses, w) == Some((m.pending[w].key, m.pending[w].choice))
  }

  lemma RunStep(l: Layout, accesses: seq<Access>)
    requires l.Valid() && accesses != [] && IsRun(l, accesses)
    ensures var n := |accesses| - 1;
      && IsRun(l, accesses[..n]) && Allowed(l, After(l, accesses[..n]), accesses[n])
      && After(l, accesses) == Perform(After(l, accesses[..n]), accesses[n])
  {
    hide Allowed;
    var n := |accesses| - 1;
    forall i | 0 <= i < n ensures Allowed(l, After(l, accesses[..n][..i]), accesses[..n][i]) {
      assert accesses[..n][..i] == accesses[..i];
    }
  }

  /** In every run of the workers' unsynchronised accesses, each key has the choice of its last completed call. */
  lemma {:induction false} LastWriteWins(l: Layout, accesses: seq<Access>)
    requires l.Valid() && IsRun(l, accesses)
    ensures var m := After(l, accesses);
      && Owned(l, m) && Untorn(l, m) && CallsPending(m, accesses)
      && forall k: nat | k < l.keys :: ChoiceOf(m.bytes, k) == LastChoice(accesses, k)
  {
    if accesses == [] {
      ZeroByte();
    } else {
      var n := |accesses| - 1;
      RunStep(l, accesses);
      LastWriteWins(l, accesses[..n]);
      NoLostChoice(l, After(l, accesses[..n]), accesses[n]);
      hide IsRun, Allowed, Owned, Untorn, After, ChoiceOf, PutChoice, Layout.Owner;
    }
  }

  lemma ZeroByte()
    ensures forall k: nat :: ByteChoice(0, k) == 0
  {
  }
}
