/** The file journal's poll configuration, admission predicate and byte codec (internal/filelog). */
module FileCodec {
  import opened Bits
  import opened Bytes
  import opened Wrappers

  const FILE_HEADER_BYTES := 80
  const FRAME_HEADER_BYTES := 40
  const ENTRY_BYTES := 28
  const MAX_FRAME_VOTES := 4096
  const KIND_VOTES: u32 := 1
  const KIND_CLOSED: u32 := 2

  const MINUTE: int := 60_000_000_000
  const SECOND: int := 1_000_000_000
  /** 1 January 1678 and 1 January 2262, in nanoseconds since 1 January 1970. */
  const FIRST_INSTANT: int := -9_214_560_000_000_000_000
  const LAST_INSTANT: int := 9_214_646_400_000_000_000

  /** CRC-32C is library code: the journal's laws hold for any checksum function. */
  type Checksum = seq<u8> -> u32

  /** Instants are nanoseconds since 1970, durations nanoseconds. */
  datatype Config = Config(
    pollID: Token, startsAt: int, endsAt: int, allowedMask: u32, multiple: bool,
    batchSize: int, queuePerPartition: int, linger: int, partitions: int)
  {
    predicate Valid() {
      && pollID != ZERO_TOKEN
      && partitions == 1
      && FIRST_INSTANT <= startsAt
      && endsAt < LAST_INSTANT
      && endsAt - startsAt == MINUTE
      && allowedMask != 0
      && 1 <= batchSize <= 131072
      && 1 <= queuePerPartition <= 1048576
      && 0 <= linger <= SECOND
    }

    predicate ValidChoice(choice: u32) {
      choice != 0 && And(choice, Not32(allowedMask)) == 0 && (multiple || OnesCount(choice) == 1)
    }

    predicate InWindow(instant: int) {
      startsAt <= instant < endsAt
    }
  }

  datatype Input = Input(token: Token, choice: u32)

  datatype Vote = Vote(token: Token, choice: u32, admittedAt: i64)

  /** The votes of one frame; no frame, written or read, is longer. */
  type Frame = f: seq<Vote> | |f| <= MAX_FRAME_VOTES

  predicate ValidInput(c: Config, v: Input) {
    v.token != ZERO_TOKEN && c.ValidChoice(v.choice)
  }

  predicate ValidVote(c: Config, v: Vote) {
    v.token != ZERO_TOKEN && c.ValidChoice(v.choice) && c.InWindow(v.admittedAt)
  }

  predicate ValidFrame(c: Config, f: Frame) {
    1 <= |f| && forall v | v in f :: ValidVote(c, v)
  }

  /** What the checks on an input and on a decoded vote admit. */
  lemma ValidMeans(c: Config, v: Input, instant: i64)
    ensures ValidInput(c, v) <==>
            && v.token != ZERO_TOKEN && (exists i: nat :: Bit(v.choice, i)) && SelectsOnly(v.choice, c.allowedMask)
            && (c.multiple || SelectsOne(v.choice))
    ensures ValidVote(c, Vote(v.token, v.choice, instant)) <==> ValidInput(c, v) && c.startsAt <= instant < c.endsAt
  {
    ChoiceMeans(v.choice, c.allowedMask, c.multiple);
    hide SelectsOnly, SelectsOne, And, OnesCount;
  }

  /** A frame as SubmitFrame builds it: every entry carries the same admission instant. */
  function Stamp(inputs: seq<Input>, admitted: i64): (f: seq<Vote>)
    ensures |f| == |inputs|
  {
    seq(|inputs|, i requires 0 <= i < |inputs| => Vote(inputs[i].token, inputs[i].choice, admitted))
  }

  lemma StampValid(c: Config, inputs: seq<Input>, admitted: i64)
    requires 1 <= |inputs| <= MAX_FRAME_VOTES && c.InWindow(admitted)
    requires forall v | v in inputs :: ValidInput(c, v)
    ensures ValidFrame(c, Stamp(inputs, admitted))
  {
    var f := Stamp(inputs, admitted);
    forall v | v in f ensures ValidVote(c, v) {
      var i :| 0 <= i < |f| && f[i] == v;
      assert inputs[i] in inputs;
    }
  }

  // ---------------------------------------------------------------- entries

  function EntryBytes(v: Vote): (e: seq<u8>)
    ensures |e| == ENTRY_BYTES
  {
    v.token + Put32(v.choice) + Put64(ToUnsigned(v.admittedAt))
  }

  function DecodeEntry(e: seq<u8>): Vote
    requires |e| == ENTRY_BYTES
  {
    Vote(e[..16], Get32(e[16..20]), ToSigned(Get64(e[20..28])))
  }

  lemma EntryRoundTrip(v: Vote, e: seq<u8>)
    requires |e| == ENTRY_BYTES
    ensures DecodeEntry(EntryBytes(v)) == v
    ensures EntryBytes(DecodeEntry(e)) == e
  {
    var b := EntryBytes(v);
    assert b[..16] == v.token && b[16..20] == Put32(v.choice) && b[20..28] == Put64(ToUnsigned(v.admittedAt));
    RoundTrip32(v.choice, e[16..20]);
    RoundTrip64(0, v.admittedAt, e[20..28]);
    assert e == e[..16] + e[16..20] + e[20..28];
  }

  function Payload(f: seq<Vote>): (p: seq<u8>)
    ensures |p| == ENTRY_BYTES * |f|
  {
    if f == [] then [] else EntryBytes(f[0]) + Payload(f[1..])
  }

  function DecodePayload(p: seq<u8>): (f: seq<Vote>)
    requires |p| % ENTRY_BYTES == 0
    ensures |f| * ENTRY_BYTES == |p|
  {
    if p == [] then [] else [DecodeEntry(p[..ENTRY_BYTES])] + DecodePayload(p[ENTRY_BYTES..])
  }

  lemma {:induction false} PayloadRoundTrip(f: seq<Vote>)
    ensures DecodePayload(Payload(f)) == f
  {
    if f != [] {
      var p := Payload(f);
      assert p[..ENTRY_BYTES] == EntryBytes(f[0]) && p[ENTRY_BYTES..] == Payload(f[1..]);
      EntryRoundTrip(f[0], p[..ENTRY_BYTES]);
      PayloadRoundTrip(f[1..]);
    }
  }

  lemma {:induction false} PayloadInverse(p: seq<u8>)
    requires |p| % ENTRY_BYTES == 0
    ensures Payload(DecodePayload(p)) == p
  {
    if p != [] {
      EntryRoundTrip(DecodeEntry(p[..ENTRY_BYTES]), p[..ENTRY_BYTES]);
      PayloadInverse(p[ENTRY_BYTES..]);
      assert DecodePayload(p)[1..] == DecodePayload(p[ENTRY_BYTES..]);
      assert p == p[..ENTRY_BYTES] + p[ENTRY_BYTES..];
    }
  }

  lemma {:induction false} PayloadAppend(f: seq<Vote>, v: Vote)
    ensures Payload(f + [v]) == Payload(f) + EntryBytes(v)
  {
    if f == [] {
      assert f + [v] == [v] && Payload([v]) == EntryBytes(v) + Payload([]);
    } else {
      PayloadAppend(f[1..], v);
      assert (f + [v])[1..] == f[1..] + [v];
    }
  }

  lemma {:induction false} DecodePayloadAppend(p: seq<u8>, e: seq<u8>)
    requires |p| % ENTRY_BYTES == 0 && |e| == ENTRY_BYTES
    ensures DecodePayload(p + e) == DecodePayload(p) + [DecodeEntry(e)]
  {
    if p == [] {
      assert p + e == e && e[..ENTRY_BYTES] == e && e[ENTRY_BYTES..] == [];
    } else {
      DecodePayloadAppend(p[ENTRY_BYTES..], e);
      assert (p + e)[..ENTRY_BYTES] == p[..ENTRY_BYTES];
      assert (p + e)[ENTRY_BYTES..] == p[ENTRY_BYTES..] + e;
    }
  }

  // ----------------------------------------------------------- frame header

  const FRAME_MAGIC: seq<u8> := [0x47, 0x51, 0x46, 0x31]
  const FILE_MAGIC: seq<u8> := [0x47, 0x51, 0x46, 0x49, 0x4C, 0x45, 0x30, 0x31]

  /** The 36 header bytes that the header checksum covers. */
  function HeaderFields(length: u32, sequence: u64, kind: u32, count: u32, payloadCRC: u32): (h: seq<u8>)
    ensures |h| == 36
  {
    FRAME_MAGIC + Put32(length) + Put64(sequence) + Put32(kind) + Put32(count) + Zeros(8) + Put32(payloadCRC)
  }

  function FrameHeader(crc: Checksum, sequence: u64, kind: u32, count: u32, payloadCRC: u32): (h: seq<u8>)
    requires count <= MAX_FRAME_VOTES
    ensures |h| == FRAME_HEADER_BYTES
  {
    var fields := HeaderFields(FRAME_HEADER_BYTES + count * ENTRY_BYTES, sequence, kind, count, payloadCRC);
    fields + Put32(crc(fields))
  }

  predicate LegalKind(kind: u32, count: u32) {
    || (kind == KIND_VOTES && 1 <= count <= MAX_FRAME_VOTES)
    || (kind == KIND_CLOSED && count == 0)
  }

  /** The kind and count of an acceptable header, None for an error. */
  function CheckFrameHeader(crc: Checksum, h: seq<u8>, sequence: u64): (r: Option<(u32, u32)>)
    ensures r.Some? ==> LegalKind(r.value.0, r.value.1)
  {
    if || |h| != FRAME_HEADER_BYTES
       || h[..4] != FRAME_MAGIC
       || Get32(h[36..40]) != crc(h[..36])
       || Get64(h[8..16]) != sequence
       || h[24..32] != Zeros(8)
    then None
    else
      var kind, count := Get32(h[16..20]), Get32(h[20..24]);
      if !LegalKind(kind, count) || Get32(h[4..8]) != FRAME_HEADER_BYTES + count * ENTRY_BYTES then None
      else Some((kind, count))
  }

  lemma HeaderFieldSlices(length: u32, sequence: u64, kind: u32, count: u32, payloadCRC: u32)
    ensures var h := HeaderFields(length, sequence, kind, count, payloadCRC);
      && h[..4] == FRAME_MAGIC && h[4..8] == Put32(length) && h[8..16] == Put64(sequence)
      && h[16..20] == Put32(kind) && h[20..24] == Put32(count) && h[24..32] == Zeros(8)
      && h[32..36] == Put32(payloadCRC)
  {
    var h := HeaderFields(length, sequence, kind, count, payloadCRC);
    var front := FRAME_MAGIC + Put32(length) + Put64(sequence) + Put32(kind) + Put32(count) + Zeros(8);
    assert h == front + Put32(payloadCRC) && |front| == 32;
    assert h[..36] == h && h[32..] == Put32(payloadCRC);
    assert h[..4] == FRAME_MAGIC && h[4..8] == Put32(length) && h[8..16] == Put64(sequence);
    assert h[16..20] == Put32(kind) && h[20..24] == Put32(count) && h[24..32] == Zeros(8);
  }

  lemma HeaderFieldsFromSlices(h: seq<u8>)
    requires |h| == 36 && h[..4] == FRAME_MAGIC && h[24..32] == Zeros(8)
    ensures h == HeaderFields(Get32(h[4..8]), Get64(h[8..16]), Get32(h[16..20]), Get32(h[20..24]), Get32(h[32..36]))
  {
    RoundTrip32(0, h[4..8]);
    RoundTrip64(0, 0, h[8..16]);
    RoundTrip32(0, h[16..20]);
    RoundTrip32(0, h[20..24]);
    RoundTrip32(0, h[32..36]);
    assert h == h[..4] + h[4..8] + h[8..16] + h[16..20] + h[20..24] + h[24..32] + h[32..36];
  }

  /** A written header is accepted at its own sequence number only. */
  lemma WrittenHeaderAccepted(crc: Checksum, sequence: u64, kind: u32, count: u32, payloadCRC: u32, expected: u64)
    requires LegalKind(kind, count)
    ensures var h := FrameHeader(crc, sequence, kind, count, payloadCRC);
      && CheckFrameHeader(crc, h, expected) == (if expected == sequence then Some((kind, count)) else None)
      && Get32(h[32..36]) == payloadCRC
  {
    var length := FRAME_HEADER_BYTES + count * ENTRY_BYTES;
    var fields := HeaderFields(length, sequence, kind, count, payloadCRC);
    var h := FrameHeader(crc, sequence, kind, count, payloadCRC);
    HeaderFieldSlices(length, sequence, kind, count, payloadCRC);
    assert h[..36] == fields && h[36..40] == Put32(crc(fields));
    assert h[..4] == fields[..4] && h[4..8] == fields[4..8] && h[8..16] == fields[8..16];
    assert h[16..20] == fields[16..20] && h[20..24] == fields[20..24];
    assert h[24..32] == fields[24..32] && h[32..36] == fields[32..36];
    RoundTrip32(crc(fields), h[..4]);
    RoundTrip32(length, h[..4]);
    RoundTrip64(sequence, 0, h[8..16]);
    RoundTrip32(kind, h[..4]);
    RoundTrip32(count, h[..4]);
    RoundTrip32(payloadCRC, h[..4]);
  }

  /** Nothing else is accepted: an accepted header is the one finishFrame writes. */
  lemma AcceptedHeaderWritten(crc: Checksum, h: seq<u8>, sequence: u64)
    requires CheckFrameHeader(crc, h, sequence).Some?
    ensures var (kind, count) := CheckFrameHeader(crc, h, sequence).value;
      LegalKind(kind, count) && h == FrameHeader(crc, sequence, kind, count, Get32(h[32..36]))
  {
    var fields := h[..36];
    assert fields[..4] == h[..4] && fields[4..8] == h[4..8] && fields[8..16] == h[8..16];
    assert fields[16..20] == h[16..20] && fields[20..24] == h[20..24];
    assert fields[24..32] == h[24..32] && fields[32..36] == h[32..36];
    HeaderFieldsFromSlices(fields);
    RoundTrip32(0, h[36..40]);
    assert h == h[..36] + h[36..40];
  }

  // ------------------------------------------------------------ whole frames

  /** What finishFrame leaves in a buffer holding this payload. */
  function FrameBytes(crc: Checksum, sequence: u64, kind: u32, count: u32, payload: seq<u8>): (b: seq<u8>)
    requires count <= MAX_FRAME_VOTES && |payload| == count * ENTRY_BYTES
    ensures |b| == FRAME_HEADER_BYTES + |payload|
  {
    FrameHeader(crc, sequence, kind, count, crc(payload)) + payload
  }

  function VoteFrameBytes(crc: Checksum, sequence: u64, f: Frame): (b: seq<u8>)
    ensures |b| == FRAME_HEADER_BYTES + ENTRY_BYTES * |f|
  {
    FrameBytes(crc, sequence, KIND_VOTES, |f|, Payload(f))
  }

  function ClosedFrameBytes(crc: Checksum, sequence: u64): (b: seq<u8>)
    ensures |b| == FRAME_HEADER_BYTES
  {
    FrameBytes(crc, sequence, KIND_CLOSED, 0, [])
  }

  predicate ValidPayload(c: Config, crc: Checksum, header: seq<u8>, payload: seq<u8>)
    requires |header| == FRAME_HEADER_BYTES && |payload| % ENTRY_BYTES == 0
  {
    Get32(header[32..36]) == crc(payload) && forall v | v in DecodePayload(payload) :: ValidVote(c, v)
  }

  // ------------------------------------------------------------- file header

  function FileHeaderFields(c: Config): (h: seq<u8>)
    requires c.Valid()
    ensures |h| == 76
  {
    FILE_MAGIC + c.pollID + Put64(ToUnsigned(c.startsAt)) + Put64(ToUnsigned(c.endsAt)) + Put32(c.allowedMask)
    + [if c.multiple then 1 else 0] + Zeros(31)
  }

  function FileHeader(crc: Checksum, c: Config): (h: seq<u8>)
    requires c.Valid()
    ensures |h| == FILE_HEADER_BYTES
  {
    FileHeaderFields(c) + Put32(crc(FileHeaderFields(c)))
  }

  /** The header binds the immutable poll definition: no other poll has the same one. */
  lemma FileHeaderBindsPoll(crc: Checksum, c: Config, d: Config)
    requires c.Valid() && d.Valid() && FileHeader(crc, c) == FileHeader(crc, d)
    ensures c.pollID == d.pollID && c.startsAt == d.startsAt && c.endsAt == d.endsAt
    ensures c.allowedMask == d.allowedMask && c.multiple == d.multiple
  {
    var h, k := FileHeaderFields(c), FileHeaderFields(d);
    assert h == FileHeader(crc, c)[..76] && k == FileHeader(crc, d)[..76];
    assert h[8..24] == c.pollID && k[8..24] == d.pollID;
    assert h[24..32] == Put64(ToUnsigned(c.startsAt)) && k[24..32] == Put64(ToUnsigned(d.startsAt));
    assert h[32..40] == Put64(ToUnsigned(c.endsAt)) && k[32..40] == Put64(ToUnsigned(d.endsAt));
    assert h[40..44] == Put32(c.allowedMask) && k[40..44] == Put32(d.allowedMask);
    assert h[44] == (if c.multiple then 1 else 0) && k[44] == (if d.multiple then 1 else 0);
    RoundTrip64(0, c.startsAt, h[24..32]);
    RoundTrip64(0, d.startsAt, h[24..32]);
    RoundTrip64(0, c.endsAt, h[32..40]);
    RoundTrip64(0, d.endsAt, h[32..40]);
    RoundTrip32(c.allowedMask, h[40..44]);
    RoundTrip32(d.allowedMask, h[40..44]);
  }
}
