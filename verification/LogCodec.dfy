/** The Kafka journal's records and frames (internal/votelog/types.go, internal/votelog/frame.go). */
module LogCodec {
  import opened Bits
  import opened Bytes
  import opened Wrappers
  import FileCodec

  const RECORD_BYTES := 80
  const ENTRY_BYTES := FileCodec.ENTRY_BYTES
  const MAX_FRAME_VOTES := FileCodec.MAX_FRAME_VOTES
  const RECORD_VERSION: u8 := 1
  const FRAME_VERSION: u8 := 2
  const RECORD_VOTE: u8 := 1
  const RECORD_BOOT: u8 := 2
  const RECORD_CLOSED: u8 := 3

  type Vote = FileCodec.Vote

  /** Instants are int64 nanoseconds: unlike the file journal's, this configuration does not bound its years. */
  datatype Config = Config(
    pollID: Token, partitions: nat, startsAt: i64, endsAt: i64, allowedMask: u32, multiple: bool,
    batchSize: nat, queuePerPartition: nat)
  {
    predicate Valid() {
      && pollID != ZERO_TOKEN
      && 1 <= partitions <= 256
      && endsAt - startsAt == FileCodec.MINUTE
      && allowedMask != 0
      && 1 <= batchSize <= 4096
      && 1 <= queuePerPartition <= 8192
    }

    predicate ValidChoice(choice: u32) {
      choice != 0 && And(choice, Not32(allowedMask)) == 0 && (multiple || OnesCount(choice) == 1)
    }
  }

  predicate ValidVote(c: Config, v: Vote) {
    v.token != ZERO_TOKEN && c.ValidChoice(v.choice) && c.startsAt <= v.admittedAt < c.endsAt
  }

  /** What the checks on a vote admit. */
  lemma ValidVoteMeans(c: Config, v: Vote)
    ensures c.ValidChoice(v.choice) <==>
            (exists i: nat :: Bit(v.choice, i)) && SelectsOnly(v.choice, c.allowedMask) && (c.multiple || SelectsOne(v.choice))
    ensures ValidVote(c, v) <==> v.token != ZERO_TOKEN && c.ValidChoice(v.choice) && c.startsAt <= v.admittedAt < c.endsAt
  {
    ChoiceMeans(v.choice, c.allowedMask, c.multiple);
    hide SelectsOnly, SelectsOne, And, OnesCount;
  }

  /** What a version-1 record means: a vote or one of the two control records. */
  datatype Item = Ballot(vote: Vote) | Boot | Closed

  predicate ValidItem(c: Config, item: Item) {
    item.Ballot? ==> ValidVote(c, item.vote)
  }

  function KindOf(item: Item): u8 {
    match item
    case Ballot(_) => RECORD_VOTE
    case Boot => RECORD_BOOT
    case Closed => RECORD_CLOSED
  }

  function Flag(b: bool): u8 {
    if b then 1 else 0
  }

  /** The part of the layout that is the poll's alone. */
  function Window(c: Config): (b: seq<u8>)
    requires c.Valid()
    ensures |b| == 24
  {
    Put64(ToUnsigned(c.startsAt)) + Put64(ToUnsigned(c.endsAt)) + Put32(c.partitions) + Put32(c.allowedMask)
  }

  /** The fields that versions 1 and 2 of the 80-byte layout share. */
  function Shared(c: Config, choice: u32, token: Token, instant: u64): (b: seq<u8>)
    requires c.Valid()
    ensures |b| == RECORD_BYTES - 10
  {
    [Flag(c.multiple), 0] + Put32(choice) + c.pollID + token + Put64(instant) + Window(c)
  }

  /** The layout: the shared fields between the version's own. */
  function Layout(c: Config, version: u8, kind: u8, choice: u32, token: Token, instant: u64, last: seq<u8>): (b: seq<u8>)
    requires c.Valid() && |last| == 8
    ensures |b| == RECORD_BYTES
  {
    [version, kind] + Shared(c, choice, token, instant) + last
  }

  function EncodeRecord(c: Config, item: Item): (b: seq<u8>)
    requires c.Valid()
    ensures |b| == RECORD_BYTES
  {
    match item
    case Ballot(v) => Layout(c, RECORD_VERSION, RECORD_VOTE, v.choice, v.token, ToUnsigned(v.admittedAt), Zeros(8))
    case _ => Layout(c, RECORD_VERSION, KindOf(item), 0, ZERO_TOKEN, 0, Zeros(8))
  }

  predicate MatchesConfig(c: Config, b: seq<u8>)
    requires |b| == RECORD_BYTES
  {
    && b[2] <= 1 && b[3] == 0
    && (b[2] == 1) == c.multiple
    && b[8..24] == c.pollID
    && ToSigned(Get64(b[48..56])) == c.startsAt
    && ToSigned(Get64(b[56..64])) == c.endsAt
    && Get32(b[64..68]) == c.partitions
    && Get32(b[68..72]) == c.allowedMask
  }

  function DecodeRecord(c: Config, b: seq<u8>): Option<Item> {
    if || |b| != RECORD_BYTES || b[0] != RECORD_VERSION || b[1] < RECORD_VOTE || b[1] > RECORD_CLOSED
       || !MatchesConfig(c, b) || Get64(b[72..80]) != 0
    then None
    else if b[1] == RECORD_VOTE then
      var v := FileCodec.Vote(b[24..40], Get32(b[4..8]), ToSigned(Get64(b[40..48])));
      if ValidVote(c, v) then Some(Ballot(v)) else None
    else if b[24..40] != ZERO_TOKEN || Get32(b[4..8]) != 0 || Get64(b[40..48]) != 0 then None
    else Some(if b[1] == RECORD_BOOT then Boot else Closed)
  }

  lemma LayoutSlices(c: Config, version: u8, kind: u8, choice: u32, token: Token, instant: u64, last: seq<u8>)
    requires c.Valid() && |last| == 8
    ensures var b := Layout(c, version, kind, choice, token, instant, last);
      && b[0] == version && b[1] == kind && b[2] == Flag(c.multiple) && b[3] == 0
      && b[4..8] == Put32(choice) && b[8..24] == c.pollID && b[24..40] == token && b[40..48] == Put64(instant)
      && b[48..56] == Put64(ToUnsigned(c.startsAt)) && b[56..64] == Put64(ToUnsigned(c.endsAt))
      && b[64..68] == Put32(c.partitions) && b[68..72] == Put32(c.allowedMask) && b[72..80] == last
  {
    var b := Layout(c, version, kind, choice, token, instant, last);
    hide Put32, Put64;
    var head := [version, kind, Flag(c.multiple), 0] + Put32(choice) + c.pollID + token + Put64(instant);
    assert head[4..8] == Put32(choice) && head[8..24] == c.pollID && head[24..40] == token && head[40..48] == Put64(instant);
    var w := Window(c);
    assert w[..8] == Put64(ToUnsigned(c.startsAt)) && w[8..16] == Put64(ToUnsigned(c.endsAt));
    assert w[16..20] == Put32(c.partitions) && w[20..24] == Put32(c.allowedMask);
    hide Window;
    assert b == head + w + last && |head| == 48;
    assert b[48..72] == w;
  }

  /** Bytes that match the configuration are the layout of their own remaining fields. */
  lemma LayoutFromSlices(c: Config, b: seq<u8>)
    requires c.Valid() && |b| == RECORD_BYTES && MatchesConfig(c, b)
    ensures b == Layout(c, b[0], b[1], Get32(b[4..8]), b[24..40], Get64(b[40..48]), b[72..80])
  {
    RoundTrip32(0, b[4..8]);
    RoundTrip64(0, 0, b[40..48]);
    WindowFromSlices(c, b);
    hide MatchesConfig, Window, Put32, Put64, Get32, Get64;
    assert b[2..4] == [Flag(c.multiple), 0];
    assert b[2..72] == b[2..4] + b[4..8] + b[8..24] + b[24..40] + b[40..48] + b[48..72];
    assert b[2..72] == Shared(c, Get32(b[4..8]), b[24..40], Get64(b[40..48]));
    hide Shared;
    assert b == [b[0], b[1]] + b[2..72] + b[72..80];
  }

  lemma WindowFromSlices(c: Config, b: seq<u8>)
    requires c.Valid() && |b| == RECORD_BYTES && MatchesConfig(c, b)
    ensures b[48..72] == Window(c)
    ensures b[2] == Flag(c.multiple) && b[3] == 0 && b[8..24] == c.pollID
  {
    RoundTrip64(0, c.startsAt, b[48..56]);
    RoundTrip64(0, c.endsAt, b[56..64]);
    RoundTrip32(0, b[64..68]);
    RoundTrip32(0, b[68..72]);
    hide Put32, Put64, Get32, Get64;
    assert b[48..72] == b[48..56] + b[56..64] + b[64..68] + b[68..72];
  }

  lemma LayoutMatches(c: Config, version: u8, kind: u8, choice: u32, token: Token, instant: u64, last: seq<u8>)
    requires c.Valid() && |last| == 8
    ensures var b := Layout(c, version, kind, choice, token, instant, last);
      && MatchesConfig(c, b)
      && b[0] == version && b[1] == kind && b[72..80] == last
      && Get32(b[4..8]) == choice && b[24..40] == token && Get64(b[40..48]) == instant
  {
    LayoutSlices(c, version, kind, choice, token, instant, last);
    RoundTrip32(choice, Zeros(4));
    RoundTrip64(instant, c.startsAt, Zeros(8));
    RoundTrip64(0, c.endsAt, Zeros(8));
    RoundTrip32(c.partitions, Zeros(4));
    RoundTrip32(c.allowedMask, Zeros(4));
    hide Layout;
  }

  lemma ZeroBytes()
    ensures Get64(Zeros(8)) == 0 && Put64(0) == Zeros(8) && Get32(Zeros(4)) == 0
  {
    assert PutBE(4, 0) == Zeros(4);
    assert PutBE(8, 0) == PutBE(4, 0) + PutBE(4, 0);
    RoundTrip64(0, 0, Zeros(8));
    RoundTrip32(0, Zeros(4));
    assert PutBE(8, 0) == Zeros(8);
  }

  lemma RecordRoundTrip(c: Config, item: Item)
    requires c.Valid() && ValidItem(c, item)
    ensures DecodeRecord(c, EncodeRecord(c, item)) == Some(item)
  {
    ZeroBytes();
    match item
    case Ballot(v) =>
      LayoutMatches(c, RECORD_VERSION, RECORD_VOTE, v.choice, v.token, ToUnsigned(v.admittedAt), Zeros(8));
      RoundTrip64(0, v.admittedAt, Zeros(8));
      hide Layout, MatchesConfig;
    case _ =>
      LayoutMatches(c, RECORD_VERSION, KindOf(item), 0, ZERO_TOKEN, 0, Zeros(8));
      hide Layout, MatchesConfig;
  }

  /** Whatever decodes re-encodes to the same bytes. */
  lemma RecordInverse(c: Config, b: seq<u8>)
    requires c.Valid() && DecodeRecord(c, b).Some?
    ensures ValidItem(c, DecodeRecord(c, b).value) && EncodeRecord(c, DecodeRecord(c, b).value) == b
  {
    LayoutFromSlices(c, b);
    RoundTrip64(0, 0, b[40..48]);
    RoundTrip64(0, 0, b[72..80]);
    ZeroBytes();
    hide Layout, MatchesConfig;
  }

  // --------------------------------------------------------------- frames

  type Frame = f: seq<Vote> | 1 <= |f| <= MAX_FRAME_VOTES witness [FileCodec.Vote(ZERO_TOKEN, 0, 0)]

  predicate ValidFrame(c: Config, f: Frame) {
    forall v | v in f :: ValidVote(c, v)
  }

  function EncodeFrame(c: Config, f: Frame): (b: seq<u8>)
    requires c.Valid()
    ensures |b| == RECORD_BYTES + ENTRY_BYTES * |f|
  {
    Layout(c, FRAME_VERSION, RECORD_VOTE, 0, ZERO_TOKEN, 0, Put32(|f|) + Put32(ENTRY_BYTES)) + FileCodec.Payload(f)
  }

  /** The version-1 control record that decodeFrame validates in place of the frame's header. */
  function HeaderAsRecord(h: seq<u8>): (b: seq<u8>)
    requires |h| == RECORD_BYTES
    ensures |b| == RECORD_BYTES
  {
    [RECORD_VERSION, RECORD_BOOT] + h[2..72] + Zeros(8)
  }

  function DecodeFrame(c: Config, b: seq<u8>): Option<Frame> {
    if |b| < RECORD_BYTES || b[0] != FRAME_VERSION || b[1] != RECORD_VOTE then None
    else
      var count := Get32(b[72..76]);
      if count < 1 || count > MAX_FRAME_VOTES || Get32(b[76..80]) != ENTRY_BYTES || |b| != RECORD_BYTES + count * ENTRY_BYTES
      then None
      else if DecodeRecord(c, HeaderAsRecord(b[..RECORD_BYTES])).None? then None
      else
        var f := FileCodec.DecodePayload(b[RECORD_BYTES..]);
        if ValidFrame(c, f) then Some(f) else None
  }

  /** A frame's header and the control record that stands for it have the same shared fields. */
  lemma HeaderRewrite(c: Config, last: seq<u8>)
    requires c.Valid() && |last| == 8
    ensures HeaderAsRecord(Layout(c, FRAME_VERSION, RECORD_VOTE, 0, ZERO_TOKEN, 0, last)) == EncodeRecord(c, Boot)
  {
    hide Shared;
    var shared := Shared(c, 0, ZERO_TOKEN, 0);
    assert Layout(c, FRAME_VERSION, RECORD_VOTE, 0, ZERO_TOKEN, 0, last)[2..72] == shared;
  }

  lemma HeaderFromRecord(c: Config, h: seq<u8>)
    requires c.Valid() && |h| == RECORD_BYTES && h[0] == FRAME_VERSION && h[1] == RECORD_VOTE
    requires HeaderAsRecord(h) == EncodeRecord(c, Boot)
    ensures h == Layout(c, FRAME_VERSION, RECORD_VOTE, 0, ZERO_TOKEN, 0, h[72..80])
  {
    hide Shared;
    assert HeaderAsRecord(h)[2..72] == h[2..72];
    assert EncodeRecord(c, Boot)[2..72] == Shared(c, 0, ZERO_TOKEN, 0);
    assert h == [h[0], h[1]] + h[2..72] + h[72..80];
  }

  /** Where the parts of h + p stand, h ending with two words. */
  lemma HeaderParts(h: seq<u8>, p: seq<u8>, m: seq<u8>, n: seq<u8>)
    requires |h| == RECORD_BYTES && |m| == 4 && h[72..80] == m + n
    ensures (h + p)[..RECORD_BYTES] == h && (h + p)[RECORD_BYTES..] == p
    ensures (h + p)[72..76] == m && (h + p)[76..80] == n
  {
    assert (h + p)[72..76] == h[72..80][..4] && (h + p)[76..80] == h[72..80][4..];
  }

  lemma FrameRoundTrip(c: Config, f: Frame)
    requires c.Valid() && ValidFrame(c, f)
    ensures DecodeFrame(c, EncodeFrame(c, f)) == Some(f)
  {
    var m, n := Put32(|f|), Put32(ENTRY_BYTES);
    var h := Layout(c, FRAME_VERSION, RECORD_VOTE, 0, ZERO_TOKEN, 0, m + n);
    LayoutSlices(c, FRAME_VERSION, RECORD_VOTE, 0, ZERO_TOKEN, 0, m + n);
    HeaderParts(h, FileCodec.Payload(f), m, n);
    HeaderRewrite(c, m + n);
    RecordRoundTrip(c, Boot);
    FileCodec.PayloadRoundTrip(f);
    RoundTrip32(|f|, Zeros(4));
    RoundTrip32(ENTRY_BYTES, Zeros(4));
    hide Layout, DecodeRecord, EncodeRecord, HeaderAsRecord, Get32, Put32, FileCodec.DecodePayload, FileCodec.Payload;
  }

  /** An accepted frame's header stands for the BOOT record. */
  lemma HeaderIsBoot(c: Config, h: seq<u8>)
    requires c.Valid() && |h| == RECORD_BYTES && DecodeRecord(c, HeaderAsRecord(h)).Some?
    ensures HeaderAsRecord(h) == EncodeRecord(c, Boot)
  {
    assert HeaderAsRecord(h)[1] == RECORD_BOOT;
    RecordInverse(c, HeaderAsRecord(h));
    hide MatchesConfig, EncodeRecord;
    assert DecodeRecord(c, HeaderAsRecord(h)) == Some(Boot);
  }

  lemma FrameInverse(c: Config, b: seq<u8>)
    requires c.Valid() && DecodeFrame(c, b).Some?
    ensures ValidFrame(c, DecodeFrame(c, b).value) && EncodeFrame(c, DecodeFrame(c, b).value) == b
  {
    hide Layout, DecodeRecord, EncodeRecord, HeaderAsRecord, FileCodec.DecodePayload, FileCodec.Payload;
    var h := b[..RECORD_BYTES];
    HeaderIsBoot(c, h);
    HeaderFromRecord(c, h);
    RoundTrip32(0, b[72..76]);
    RoundTrip32(0, b[76..80]);
    FileCodec.PayloadInverse(b[RECORD_BYTES..]);
    hide Get32, Put32;
    assert h[72..80] == b[72..76] + b[76..80];
    assert b == h + b[RECORD_BYTES..];
  }

  /** No byte string is both a record and a frame. */
  lemma VersionsDisjoint(c: Config, b: seq<u8>)
    ensures !(DecodeRecord(c, b).Some? && DecodeFrame(c, b).Some?)
    ensures DecodeFrame(c, b).Some? ==> |b| > 0 && b[0] == FRAME_VERSION
    ensures DecodeRecord(c, b).Some? ==> |b| > 0 && b[0] == RECORD_VERSION
  {
  }

  /**
   * decodeFrame with its visitor: the visitor sees every entry in order, up to one it refuses, or, when
   * any part of the frame is malformed, none at all.
   */
  method VisitFrame(c: Config, b: seq<u8>, accept: seq<Vote> -> bool) returns (ok: bool, visited: seq<Vote>)
    ensures DecodeFrame(c, b).None? ==> !ok && visited == []
    ensures DecodeFrame(c, b).Some? ==>
              && visited <= DecodeFrame(c, b).value
              && (ok ==> visited == DecodeFrame(c, b).value)
              && (!ok ==> visited != [] && !accept(visited))
              && (forall n | 0 < n < |visited| :: accept(visited[..n]))
  {
    ok, visited := false, [];
    if |b| < RECORD_BYTES || b[0] != FRAME_VERSION || b[1] != RECORD_VOTE {
      return;
    }
    var count := Get32(b[72..76]);
    if count < 1 || count > MAX_FRAME_VOTES || Get32(b[76..80]) != ENTRY_BYTES || |b| != RECORD_BYTES + count * ENTRY_BYTES {
      return;
    }
    if DecodeRecord(c, HeaderAsRecord(b[..RECORD_BYTES])).None? {
      return;
    }
    ghost var f := FileCodec.DecodePayload(b[RECORD_BYTES..]);
    assert DecodeFrame(c, b) == if ValidFrame(c, f) then Some(f) else None;
    hide DecodeFrame, DecodeRecord, HeaderAsRecord, Get32, ValidVote, EntryAt, FileCodec.DecodePayload;
    for i := 0 to count
      invariant forall k | 0 <= k < i :: ValidVote(c, f[k])
    {
      EntryOfFrame(b, i);
      var v := EntryAt(b, i);
      if !ValidVote(c, v) {
        assert f[i] in f;
        return;
      }
    }
    assert ValidFrame(c, f);
    ok, visited := VisitEntries(b, count, accept);
  }

  /** decodeFrame's second loop, over the entries of a frame that was found valid. */
  method VisitEntries(b: seq<u8>, count: nat, accept: seq<Vote> -> bool) returns (ok: bool, visited: seq<Vote>)
    requires |b| == RECORD_BYTES + count * ENTRY_BYTES
    ensures visited <= FileCodec.DecodePayload(b[RECORD_BYTES..])
    ensures if ok then visited == FileCodec.DecodePayload(b[RECORD_BYTES..]) else visited != [] && !accept(visited)
    ensures forall n | 0 < n < |visited| :: accept(visited[..n])
  {
    hide FileCodec.DecodePayload, EntryAt;
    ghost var f := FileCodec.DecodePayload(b[RECORD_BYTES..]);
    ok, visited := true, [];
    for i := 0 to count
      invariant visited == f[..i]
      invariant forall n | 0 < n <= i :: accept(f[..n])
    {
      EntryOfFrame(b, i);
      visited := visited + [EntryAt(b, i)];
      assert visited == f[..i + 1] && forall n | 0 < n < |visited| :: visited[..n] == f[..n];
      if !accept(visited) {
        return false, visited;
      }
    }
    assert visited == f && forall n | 0 < n < |visited| :: visited[..n] == f[..n];
  }

  lemma {:induction false} EntryOfPayload(p: seq<u8>, i: nat)
    requires |p| % ENTRY_BYTES == 0 && (i + 1) * ENTRY_BYTES <= |p|
    ensures FileCodec.DecodePayload(p)[i] == FileCodec.DecodeEntry(p[i * ENTRY_BYTES..(i + 1) * ENTRY_BYTES])
  {
    if i > 0 {
      EntryOfPayload(p[ENTRY_BYTES..], i - 1);
      SliceOfSlice(p, ENTRY_BYTES, (i - 1) * ENTRY_BYTES, i * ENTRY_BYTES);
    }
  }

  lemma SliceOfSlice(p: seq<u8>, k: nat, i: nat, j: nat)
    requires i <= j && k + j <= |p|
    ensures p[k..][i..j] == p[k + i..k + j]
  {
  }

  /** Entry i of a frame's bytes. */
  function EntryAt(b: seq<u8>, i: nat): Vote
    requires RECORD_BYTES + (i + 1) * ENTRY_BYTES <= |b|
  {
    FileCodec.DecodeEntry(b[RECORD_BYTES + i * ENTRY_BYTES..RECORD_BYTES + (i + 1) * ENTRY_BYTES])
  }

  lemma EntryOfFrame(b: seq<u8>, i: nat)
    requires |b| >= RECORD_BYTES && (|b| - RECORD_BYTES) % ENTRY_BYTES == 0 && RECORD_BYTES + (i + 1) * ENTRY_BYTES <= |b|
    ensures FileCodec.DecodePayload(b[RECORD_BYTES..])[i] == EntryAt(b, i)
  {
    EntryOfPayload(b[RECORD_BYTES..], i);
    SliceOfSlice(b, RECORD_BYTES, i * ENTRY_BYTES, (i + 1) * ENTRY_BYTES);
  }
}
