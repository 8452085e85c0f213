/** Recovery parsing of the file journal (internal/filelog/scan.go). */
module FileScan {
  import opened Bits
  import opened Bytes
  import opened Wrappers
  import opened FileCodec

  datatype Failure = InvalidConfig | BadFileHeader | BadFrameHeader | BadPayload | AfterClosed | SequenceExhausted

  datatype Tail = Clean | Torn | Failed(failure: Failure)

  /** What a scan finds in the bytes after the file header. */
  datatype Parsed = Parsed(frames: seq<Frame>, closed: bool, tail: Tail, used: nat)

  /** The outcome of reading one frame from the front of nonempty bytes. */
  datatype Read = Whole(kind: u32, frame: Frame) | Cut | Bad(failure: Failure)

  function ReadFrame(c: Config, crc: Checksum, rest: seq<u8>, sequence: u64): (r: Read)
    ensures r.Whole? ==> LegalKind(r.kind, |r.frame|) && FrameLength(r.frame) <= |rest|
  {
    if |rest| < FRAME_HEADER_BYTES then Cut
    else match CheckFrameHeader(crc, rest[..FRAME_HEADER_BYTES], sequence)
      case None => Bad(BadFrameHeader)
      case Some((kind, count)) =>
        var n := FRAME_HEADER_BYTES + count * ENTRY_BYTES;
        if |rest| < n then Cut
        else if !ValidPayload(c, crc, rest[..FRAME_HEADER_BYTES], rest[FRAME_HEADER_BYTES..n]) then Bad(BadPayload)
        else Whole(kind, DecodePayload(rest[FRAME_HEADER_BYTES..n]))
  }

  function Parse(c: Config, crc: Checksum, rest: seq<u8>, sequence: u64): Parsed
    requires sequence <= MAX_INT64
    decreases |rest|
  {
    if |rest| == 0 then Parsed([], false, Clean, 0)
    else match ReadFrame(c, crc, rest, sequence)
      case Cut => Parsed([], false, Torn, 0)
      case Bad(failure) => Parsed([], false, Failed(failure), 0)
      case Whole(kind, frame) =>
        var n := FrameLength(frame);
        if kind == KIND_CLOSED then
          Parsed([], true,
                 if sequence == MAX_INT64 then Failed(SequenceExhausted)
                 else if |rest| > n then Failed(AfterClosed) else Clean,
                 n)
        else if sequence == MAX_INT64 then Parsed([frame], false, Failed(SequenceExhausted), n)
        else
          var p := Parse(c, crc, rest[n..], sequence + 1);
          Parsed([frame] + p.frames, p.closed, p.tail, n + p.used)
  }

  function ParseFile(c: Config, crc: Checksum, file: seq<u8>): Parsed {
    if !c.Valid() then Parsed([], false, Failed(InvalidConfig), 0)
    else if |file| < FILE_HEADER_BYTES || file[..FILE_HEADER_BYTES] != FileHeader(crc, c)
    then Parsed([], false, Failed(BadFileHeader), 0)
    else
      var p := Parse(c, crc, file[FILE_HEADER_BYTES..], 0);
      p.(used := FILE_HEADER_BYTES + p.used)
  }

  // ---------------------------------------------------------------- encoding

  function FrameLength(f: Frame): nat {
    FRAME_HEADER_BYTES + ENTRY_BYTES * |f|
  }

  ghost predicate ValidFrames(c: Config, fs: seq<Frame>) {
    forall f | f in fs :: ValidFrame(c, f)
  }

  /** The bytes of vote frames numbered from `sequence` on. */
  function EncodeFrames(crc: Checksum, fs: seq<Frame>, sequence: u64): (b: seq<u8>)
    requires sequence + |fs| <= MAX_INT64
  {
    if fs == [] then []
    else VoteFrameBytes(crc, sequence, fs[0]) + EncodeFrames(crc, fs[1..], sequence + 1)
  }

  function Ender(crc: Checksum, closed: bool, sequence: u64): (b: seq<u8>)
    ensures |b| == if closed then FRAME_HEADER_BYTES else 0
  {
    if closed then ClosedFrameBytes(crc, sequence) else []
  }

  /** Frames numbered from `sequence`, then CLOSED when asked for. */
  function Journal(crc: Checksum, fs: seq<Frame>, closed: bool, sequence: u64): (b: seq<u8>)
    requires sequence + |fs| <= MAX_INT64
  {
    EncodeFrames(crc, fs, sequence) + Ender(crc, closed, sequence + |fs|)
  }

  lemma {:induction false} EncodeAppend(crc: Checksum, fs: seq<Frame>, gs: seq<Frame>, sequence: u64)
    requires sequence + |fs| + |gs| <= MAX_INT64
    ensures EncodeFrames(crc, fs + gs, sequence)
         == EncodeFrames(crc, fs, sequence) + EncodeFrames(crc, gs, sequence + |fs|)
  {
    hide VoteFrameBytes;
    if fs == [] {
      assert fs + gs == gs;
    } else {
      assert (fs + gs)[1..] == fs[1..] + gs;
      EncodeAppend(crc, fs[1..], gs, sequence + 1);
      Assoc(VoteFrameBytes(crc, sequence, fs[0]), EncodeFrames(crc, fs[1..], sequence + 1),
            EncodeFrames(crc, gs, sequence + |fs|));
    }
  }

  // ---------------------------------------------- scanning what was written

  /** A written frame is read back whole, whatever follows it. */
  lemma ReadWritten(c: Config, crc: Checksum, kind: u32, f: Frame, sequence: u64, tail: seq<u8>)
    requires LegalKind(kind, |f|) && forall v | v in f :: ValidVote(c, v)
    ensures ReadFrame(c, crc, FrameBytes(crc, sequence, kind, |f|, Payload(f)) + tail, sequence) == Whole(kind, f)
  {
    hide CheckFrameHeader, FrameHeader, Payload, DecodePayload;
    var header := FrameHeader(crc, sequence, kind, |f|, crc(Payload(f)));
    var rest := FrameBytes(crc, sequence, kind, |f|, Payload(f)) + tail;
    WrittenHeaderAccepted(crc, sequence, kind, |f|, crc(Payload(f)), sequence);
    PayloadRoundTrip(f);
    assert rest[..FRAME_HEADER_BYTES] == header;
    assert rest[FRAME_HEADER_BYTES..FrameLength(f)] == Payload(f);
  }

  /** A cut inside one written frame reads as an incomplete tail, never as corruption. */
  lemma ReadCut(c: Config, crc: Checksum, kind: u32, f: Frame, sequence: u64, k: nat)
    requires LegalKind(kind, |f|) && k < FrameLength(f)
    ensures ReadFrame(c, crc, FrameBytes(crc, sequence, kind, |f|, Payload(f))[..k], sequence) == Cut
  {
    hide CheckFrameHeader, FrameHeader, Payload, DecodePayload;
    var b := FrameBytes(crc, sequence, kind, |f|, Payload(f));
    if k >= FRAME_HEADER_BYTES {
      WrittenHeaderAccepted(crc, sequence, kind, |f|, crc(Payload(f)), sequence);
      assert b[..k][..FRAME_HEADER_BYTES] == FrameHeader(crc, sequence, kind, |f|, crc(Payload(f)));
    }
  }

  /** Whatever the bytes, a frame read whole is one that was written: re-encoding it gives the bytes back. */
  lemma ReadInverse(c: Config, crc: Checksum, rest: seq<u8>, sequence: u64)
    requires ReadFrame(c, crc, rest, sequence).Whole?
    ensures var r := ReadFrame(c, crc, rest, sequence);
      && (forall v | v in r.frame :: ValidVote(c, v))
      && rest[..FrameLength(r.frame)] == FrameBytes(crc, sequence, r.kind, |r.frame|, Payload(r.frame))
  {
    var r := ReadFrame(c, crc, rest, sequence);
    var h := rest[..FRAME_HEADER_BYTES];
    var n := FrameLength(r.frame);
    AcceptedHeaderWritten(crc, h, sequence);
    PayloadInverse(rest[FRAME_HEADER_BYTES..n]);
    assert rest[..n] == h + rest[FRAME_HEADER_BYTES..n];
  }

  /** How many leading frames lie completely within the first k bytes. */
  function WholeFrames(fs: seq<Frame>, k: nat): (m: nat)
    ensures m <= |fs|
  {
    if fs == [] || k < FrameLength(fs[0]) then 0 else 1 + WholeFrames(fs[1..], k - FrameLength(fs[0]))
  }

  function FramesLength(fs: seq<Frame>): nat {
    if fs == [] then 0 else FrameLength(fs[0]) + FramesLength(fs[1..])
  }

  lemma {:induction false} EncodedLength(crc: Checksum, fs: seq<Frame>, sequence: u64)
    requires sequence + |fs| <= MAX_INT64
    ensures |EncodeFrames(crc, fs, sequence)| == FramesLength(fs)
  {
    if fs != [] { EncodedLength(crc, fs[1..], sequence + 1); }
  }

  lemma {:induction false} FramesLengthAppend(fs: seq<Frame>, gs: seq<Frame>)
    ensures FramesLength(fs + gs) == FramesLength(fs) + FramesLength(gs)
  {
    if fs == [] {
      assert fs + gs == gs;
    } else {
      assert (fs + gs)[1..] == fs[1..] + gs;
      FramesLengthAppend(fs[1..], gs);
    }
  }

  /** The frames counted are those that end within the k bytes: the next one does not. */
  lemma {:induction false} WholeFramesMeaning(fs: seq<Frame>, k: nat, m: nat)
    requires m <= |fs|
    ensures m <= WholeFrames(fs, k) <==> FramesLength(fs[..m]) <= k
  {
    if m > 0 {
      assert fs[..m][1..] == fs[1..][..m - 1];
      if k >= FrameLength(fs[0]) {
        WholeFramesMeaning(fs[1..], k - FrameLength(fs[0]), m - 1);
      }
    }
  }

  lemma JournalCons(crc: Checksum, fs: seq<Frame>, closed: bool, sequence: u64)
    requires sequence + |fs| <= MAX_INT64 && fs != []
    ensures Journal(crc, fs, closed, sequence)
         == VoteFrameBytes(crc, sequence, fs[0]) + Journal(crc, fs[1..], closed, sequence + 1)
  {
    hide VoteFrameBytes, Ender;
    Assoc(VoteFrameBytes(crc, sequence, fs[0]), EncodeFrames(crc, fs[1..], sequence + 1),
          Ender(crc, closed, sequence + |fs|));
  }

  lemma ParseFrame(c: Config, crc: Checksum, f: Frame, sequence: u64, tail: seq<u8>)
    requires ValidFrame(c, f) && sequence < MAX_INT64
    ensures var p := Parse(c, crc, tail, sequence + 1);
      Parse(c, crc, VoteFrameBytes(crc, sequence, f) + tail, sequence)
      == Parsed([f] + p.frames, p.closed, p.tail, FrameLength(f) + p.used)
  {
    hide ReadFrame, FrameBytes;
    ReadWritten(c, crc, KIND_VOTES, f, sequence, tail);
    assert (VoteFrameBytes(crc, sequence, f) + tail)[FrameLength(f)..] == tail;
  }

  lemma ParseCloser(c: Config, crc: Checksum, sequence: u64, tail: seq<u8>)
    requires sequence <= MAX_INT64
    ensures Parse(c, crc, ClosedFrameBytes(crc, sequence) + tail, sequence)
         == Parsed([], true,
                   if sequence == MAX_INT64 then Failed(SequenceExhausted)
                   else if tail != [] then Failed(AfterClosed) else Clean,
                   FRAME_HEADER_BYTES)
  {
    hide ReadFrame, FrameBytes;
    assert Payload([]) == [];
    ReadWritten(c, crc, KIND_CLOSED, [], sequence, tail);
  }

  lemma ParseCut(c: Config, crc: Checksum, kind: u32, f: Frame, sequence: u64, k: nat)
    requires LegalKind(kind, |f|) && k < FrameLength(f) && sequence <= MAX_INT64
    ensures Parse(c, crc, FrameBytes(crc, sequence, kind, |f|, Payload(f))[..k], sequence)
         == Parsed([], false, if k == 0 then Clean else Torn, 0)
  {
    hide ReadFrame, FrameBytes;
    ReadCut(c, crc, kind, f, sequence, k);
  }

  /** The prefix law for what follows the last vote frame. */
  lemma EnderPrefix(c: Config, crc: Checksum, closed: bool, sequence: u64, k: nat)
    requires sequence <= MAX_INT64 && k <= |Ender(crc, closed, sequence)|
    ensures var whole := closed && k == FRAME_HEADER_BYTES;
      Parse(c, crc, Ender(crc, closed, sequence)[..k], sequence)
      == Parsed([], whole, Ending(whole, sequence, whole || k == 0), if whole then k else 0)
  {
    hide FrameBytes, ReadFrame;
    var b := Ender(crc, closed, sequence);
    if closed && k == |b| {
      ParseCloser(c, crc, sequence, []);
      assert b[..k] == b + [];
    } else if closed {
      assert Payload([]) == [];
      ParseCut(c, crc, KIND_CLOSED, [], sequence, k);
    }
  }

  ghost predicate PrefixLaw(c: Config, crc: Checksum, fs: seq<Frame>, closed: bool, sequence: u64, k: nat)
    requires sequence + |fs| <= MAX_INT64
    requires k <= |Journal(crc, fs, closed, sequence)|
  {
    var j := Journal(crc, fs, closed, sequence);
    var m := WholeFrames(fs, k);
    var whole := closed && k == |j|;
    var used := FramesLength(fs[..m]) + (if whole then FRAME_HEADER_BYTES else 0);
    used <= k && Parse(c, crc, j[..k], sequence) == Parsed(fs[..m], whole, Ending(whole, sequence + |fs|, used == k), used)
  }

  /** How a cut journal ends: CLOSED at the last sequence number is the one journal that cannot be read back. */
  function Ending(whole: bool, end: nat, boundary: bool): Tail {
    if whole && end == MAX_INT64 then Failed(SequenceExhausted) else if boundary then Clean else Torn
  }

  lemma PrefixInside(c: Config, crc: Checksum, fs: seq<Frame>, closed: bool, sequence: u64, k: nat)
    requires ValidFrames(c, fs) && sequence + |fs| <= MAX_INT64
    requires fs != [] && k < FrameLength(fs[0]) <= |Journal(crc, fs, closed, sequence)|
    ensures PrefixLaw(c, crc, fs, closed, sequence, k)
  {
    hide FrameBytes, Parse, Journal;
    var j := Journal(crc, fs, closed, sequence);
    var b := VoteFrameBytes(crc, sequence, fs[0]);
    JournalCons(crc, fs, closed, sequence);
    assert j[..k] == b[..k];
    assert ValidFrame(c, fs[0]);
    ParseCut(c, crc, KIND_VOTES, fs[0], sequence, k);
    assert FramesLength(fs[..0]) == 0;
  }

  /**
   * The prefix law: however many bytes of a journal survive, the scan reports no error, returns the
   * frames that survived whole, and flags a tail exactly when the cut falls inside a frame.
   */
  lemma {:induction false} ParsePrefix(c: Config, crc: Checksum, fs: seq<Frame>, closed: bool, sequence: u64, k: nat)
    requires ValidFrames(c, fs) && sequence + |fs| <= MAX_INT64
    requires k <= |Journal(crc, fs, closed, sequence)|
    ensures PrefixLaw(c, crc, fs, closed, sequence, k)
    decreases |fs|
  {
    hide VoteFrameBytes, Parse, Ender, ValidFrame;
    if fs == [] {
      assert Journal(crc, fs, closed, sequence) == Ender(crc, closed, sequence);
      EnderPrefix(c, crc, closed, sequence, k);
    } else {
      var j := Journal(crc, fs, closed, sequence);
      var n := FrameLength(fs[0]);
      JournalCons(crc, fs, closed, sequence);
      if k < n {
        PrefixInside(c, crc, fs, closed, sequence, k);
      } else {
        var rest := Journal(crc, fs[1..], closed, sequence + 1);
        ParsePrefix(c, crc, fs[1..], closed, sequence + 1, k - n);
        assert j[..k] == VoteFrameBytes(crc, sequence, fs[0]) + rest[..k - n];
        ParseFrame(c, crc, fs[0], sequence, rest[..k - n]);
        var m := WholeFrames(fs, k);
        assert fs[..m] == [fs[0]] + fs[1..][..m - 1];
        assert fs[..m][1..] == fs[1..][..m - 1];
      }
    }
  }

  // ------------------------------------------------ scanning arbitrary bytes

  /** Whatever the bytes, the part a scan accepts is exactly the encoding of what it reported. */
  lemma {:induction false} ParseSound(c: Config, crc: Checksum, rest: seq<u8>, sequence: u64)
    requires sequence <= MAX_INT64
    ensures var p := Parse(c, crc, rest, sequence);
      && ValidFrames(c, p.frames)
      && p.used <= |rest|
      && (p.tail == Clean ==> p.used == |rest| && sequence + |p.frames| <= MAX_INT64)
      && (p.tail == Torn ==> p.used < |rest| && !p.closed && sequence + |p.frames| <= MAX_INT64)
      && (p.tail == Clean && p.closed ==> sequence + |p.frames| < MAX_INT64)
      && (sequence + |p.frames| <= MAX_INT64 ==>
            rest[..p.used] == Journal(crc, p.frames, p.closed, sequence))
    decreases |rest|
  {
    hide ReadFrame, FrameBytes, ValidVote;
    var p := Parse(c, crc, rest, sequence);
    if rest != [] && ReadFrame(c, crc, rest, sequence).Whole? {
      ReadInverse(c, crc, rest, sequence);
      var r := ReadFrame(c, crc, rest, sequence);
      var n := FrameLength(r.frame);
      if r.kind == KIND_CLOSED {
        assert r.frame == [] && Payload([]) == [];
        assert p.used == n && rest[..n] == ClosedFrameBytes(crc, sequence);
        assert Journal(crc, [], true, sequence) == ClosedFrameBytes(crc, sequence);
      } else if sequence < MAX_INT64 {
        var q := Parse(c, crc, rest[n..], sequence + 1);
        ParseSound(c, crc, rest[n..], sequence + 1);
        ParseSoundStep(c, crc, rest, sequence, r.frame, q, p);
      }
    }
  }

  /** The bytes begin with the header of some frame with this number, whatever its payload. */
  ghost predicate BeginsFrame(crc: Checksum, rest: seq<u8>, sequence: u64, kind: u32, count: u32) {
    && LegalKind(kind, count) && FRAME_HEADER_BYTES <= |rest|
    && exists payloadCRC: u32 :: rest[..FRAME_HEADER_BYTES] == FrameHeader(crc, sequence, kind, count, payloadCRC)
  }

  /** ... and go on with the payload it announces, of valid votes. */
  ghost predicate HoldsFrame(c: Config, crc: Checksum, rest: seq<u8>, sequence: u64, kind: u32, f: Frame) {
    && LegalKind(kind, |f|) && FrameLength(f) <= |rest|
    && (forall v | v in f :: ValidVote(c, v))
    && rest[..FrameLength(f)] == FrameBytes(crc, sequence, kind, |f|, Payload(f))
  }

  /** At most one kind and count fit a header. */
  lemma HeaderKnown(crc: Checksum, rest: seq<u8>, sequence: u64, kind: u32, count: u32)
    requires FRAME_HEADER_BYTES <= |rest|
    ensures BeginsFrame(crc, rest, sequence, kind, count)
            <==> CheckFrameHeader(crc, rest[..FRAME_HEADER_BYTES], sequence) == Some((kind, count))
  {
    hide CheckFrameHeader, FrameHeader;
    var h := rest[..FRAME_HEADER_BYTES];
    if CheckFrameHeader(crc, h, sequence) == Some((kind, count)) { AcceptedHeaderWritten(crc, h, sequence); }
    if BeginsFrame(crc, rest, sequence, kind, count) {
      var payloadCRC: u32 :| h == FrameHeader(crc, sequence, kind, count, payloadCRC);
      WrittenHeaderAccepted(crc, sequence, kind, count, payloadCRC, sequence);
    }
  }

  /** What is held is read, and nothing else. */
  lemma ReadsHeld(c: Config, crc: Checksum, rest: seq<u8>, sequence: u64, kind: u32, f: Frame)
    ensures ReadFrame(c, crc, rest, sequence) == Whole(kind, f) <==> HoldsFrame(c, crc, rest, sequence, kind, f)
  {
    hide ReadFrame, FrameBytes, Payload;
    if ReadFrame(c, crc, rest, sequence) == Whole(kind, f) { ReadInverse(c, crc, rest, sequence); }
    if HoldsFrame(c, crc, rest, sequence, kind, f) {
      ReadWritten(c, crc, kind, f, sequence, rest[FrameLength(f)..]);
      assert rest == rest[..FrameLength(f)] + rest[FrameLength(f)..];
    }
  }

  /**
   * Any bytes are read in exactly one way: an incomplete header, or a frame's header with less than its payload,
   * is a cut; forty other bytes are a bad header; a frame's header with as many bytes behind it that are not its
   * payload of valid votes is a bad payload; and otherwise the frame is read whole.
   */
  lemma ReadOutcomes(c: Config, crc: Checksum, rest: seq<u8>, sequence: u64)
    ensures var r := ReadFrame(c, crc, rest, sequence);
      && (r == Cut <==>
            || |rest| < FRAME_HEADER_BYTES
            || exists kind, count :: BeginsFrame(crc, rest, sequence, kind, count) && |rest| < FRAME_HEADER_BYTES + ENTRY_BYTES * count)
      && (r == Bad(BadFrameHeader) <==>
            |rest| >= FRAME_HEADER_BYTES && forall kind, count :: !BeginsFrame(crc, rest, sequence, kind, count))
      && (r == Bad(BadPayload) <==>
            && (exists kind, count :: BeginsFrame(crc, rest, sequence, kind, count) && |rest| >= FRAME_HEADER_BYTES + ENTRY_BYTES * count)
            && forall kind, f :: !HoldsFrame(c, crc, rest, sequence, kind, f))
      && (forall kind, f :: r == Whole(kind, f) <==> HoldsFrame(c, crc, rest, sequence, kind, f))
      && (r.Bad? ==> r.failure == BadFrameHeader || r.failure == BadPayload)
  {
    hide CheckFrameHeader, ValidPayload, HoldsFrame, BeginsFrame, DecodePayload;
    var r := ReadFrame(c, crc, rest, sequence);
    if |rest| >= FRAME_HEADER_BYTES {
      forall kind: u32, count: u32
        ensures BeginsFrame(crc, rest, sequence, kind, count)
                <==> CheckFrameHeader(crc, rest[..FRAME_HEADER_BYTES], sequence) == Some((kind, count))
      {
        HeaderKnown(crc, rest, sequence, kind, count);
      }
    }
    forall kind, f ensures r == Whole(kind, f) <==> HoldsFrame(c, crc, rest, sequence, kind, f) {
      ReadsHeld(c, crc, rest, sequence, kind, f);
    }
  }

  /** What the bytes behind the frames read are: the exact meaning of a scan's tail, on any bytes. */
  ghost predicate TailIs(c: Config, crc: Checksum, unread: seq<u8>, sequence: u64, tail: Tail) {
    match tail
    case Clean => unread == []
    case Torn =>
      && unread != []
      && (|unread| < FRAME_HEADER_BYTES
          || exists kind, count :: BeginsFrame(crc, unread, sequence, kind, count) && |unread| < FRAME_HEADER_BYTES + ENTRY_BYTES * count)
    case Failed(failure) =>
      || (failure == BadFrameHeader && |unread| >= FRAME_HEADER_BYTES && forall kind, count :: !BeginsFrame(crc, unread, sequence, kind, count))
      || (failure == BadPayload
          && (exists kind, count :: BeginsFrame(crc, unread, sequence, kind, count) && |unread| >= FRAME_HEADER_BYTES + ENTRY_BYTES * count)
          && forall kind, f :: !HoldsFrame(c, crc, unread, sequence, kind, f))
  }

  /** The tail is this one and could be no other. */
  ghost predicate OnlyTail(c: Config, crc: Checksum, unread: seq<u8>, sequence: u64, tail: Tail) {
    forall t :: tail == t <==> TailIs(c, crc, unread, sequence, t)
  }

  /**
   * How a scan ends, on any bytes. Before CLOSED and the last sequence number the tail is Clean exactly if
   * nothing is unread, Torn exactly if a part of a header or a header with a part of its payload is, and a failure
   * exactly if a complete header or payload is wrong; behind CLOSED any byte is a failure.
   */
  lemma {:induction false} ParseTail(c: Config, crc: Checksum, rest: seq<u8>, sequence: u64)
    requires sequence <= MAX_INT64
    ensures var p := Parse(c, crc, rest, sequence);
      var next := sequence + |p.frames|;
      && p.used <= |rest| && next <= MAX_INT64 + 1
      && (next > MAX_INT64 ==> !p.closed && p.tail == Failed(SequenceExhausted))
      && (next <= MAX_INT64 && !p.closed ==> OnlyTail(c, crc, rest[p.used..], next, p.tail))
      && (next == MAX_INT64 && p.closed ==> p.tail == Failed(SequenceExhausted))
      && (next < MAX_INT64 && p.closed ==> p.tail == if rest[p.used..] == [] then Clean else Failed(AfterClosed))
    decreases |rest|
  {
    hide ReadFrame, OnlyTail;
    var p := Parse(c, crc, rest, sequence);
    if rest == [] || !ReadFrame(c, crc, rest, sequence).Whole? {
      assert rest[p.used..] == rest;
      EndsHere(c, crc, rest, sequence, p.tail);
    } else {
      var r := ReadFrame(c, crc, rest, sequence);
      var n := FrameLength(r.frame);
      if r.kind != KIND_CLOSED && sequence < MAX_INT64 {
        ParseTail(c, crc, rest[n..], sequence + 1);
        var q := Parse(c, crc, rest[n..], sequence + 1);
        assert rest[n..][q.used..] == rest[p.used..] && (sequence + 1) + |q.frames| == sequence + |p.frames|;
      }
    }
  }

  /** Where no frame is read whole, the tail is the one the outcome of that reading gives, and no other. */
  lemma EndsHere(c: Config, crc: Checksum, rest: seq<u8>, sequence: u64, tail: Tail)
    requires rest != [] ==> !ReadFrame(c, crc, rest, sequence).Whole?
    requires tail == if rest == [] then Clean else match ReadFrame(c, crc, rest, sequence)
                                                   case Cut => Torn
                                                   case Bad(failure) => Failed(failure)
                                                   case Whole(_, _) => Clean
    ensures OnlyTail(c, crc, rest, sequence, tail)
  {
    hide ReadFrame, HoldsFrame, BeginsFrame;
    ReadOutcomes(c, crc, rest, sequence);
  }

  /** The same for a whole file, whose header must be there, complete and the poll's own. */
  lemma ParseFileTail(c: Config, crc: Checksum, file: seq<u8>)
    ensures var p := ParseFile(c, crc, file);
      var next := |p.frames|;
      && (!c.Valid() ==> p.tail == Failed(InvalidConfig) && p.frames == [] && !p.closed)
      && (c.Valid() ==>
            && (p.tail == Failed(BadFileHeader) <==> !(FileHeader(crc, c) <= file))
            && (p.tail == Failed(BadFileHeader) ==> p.frames == [] && !p.closed)
            && (FileHeader(crc, c) <= file ==>
                  && FILE_HEADER_BYTES <= p.used <= |file| && next <= MAX_INT64 + 1
                  && (next > MAX_INT64 ==> !p.closed && p.tail == Failed(SequenceExhausted))
                  && (next <= MAX_INT64 && !p.closed ==> OnlyTail(c, crc, file[p.used..], next, p.tail))
                  && (next == MAX_INT64 && p.closed ==> p.tail == Failed(SequenceExhausted))
                  && (next < MAX_INT64 && p.closed ==> p.tail == if file[p.used..] == [] then Clean else Failed(AfterClosed))))
  {
    hide FileHeader, Parse, OnlyTail;
    if c.Valid() {
      assert FileHeader(crc, c) <= file <==> |file| >= FILE_HEADER_BYTES && file[..FILE_HEADER_BYTES] == FileHeader(crc, c);
      if FileHeader(crc, c) <= file {
        var rest := file[FILE_HEADER_BYTES..];
        ParseTail(c, crc, rest, 0);
        var q := Parse(c, crc, rest, 0);
        assert rest[q.used..] == file[FILE_HEADER_BYTES + q.used..];
        if |q.frames| <= MAX_INT64 && !q.closed { NoFileFailure(c, crc, rest[q.used..], |q.frames|, q.tail); }
      }
    }
  }

  lemma NoFileFailure(c: Config, crc: Checksum, unread: seq<u8>, sequence: u64, tail: Tail)
    requires OnlyTail(c, crc, unread, sequence, tail)
    ensures tail != Failed(BadFileHeader)
  {
    assert !TailIs(c, crc, unread, sequence, Failed(BadFileHeader));
  }

  lemma ParseSoundStep(c: Config, crc: Checksum, rest: seq<u8>, sequence: u64, f: Frame, q: Parsed, p: Parsed)
    requires ValidFrame(c, f) && ValidFrames(c, q.frames) && p.frames == [f] + q.frames && p.closed == q.closed
    requires FrameLength(f) + q.used == p.used <= |rest|
    requires rest[..FrameLength(f)] == VoteFrameBytes(crc, sequence, f)
    requires sequence + 1 + |q.frames| <= MAX_INT64 ==>
               rest[FrameLength(f)..][..q.used] == Journal(crc, q.frames, q.closed, sequence + 1)
    ensures ValidFrames(c, p.frames)
    ensures sequence + |p.frames| <= MAX_INT64 ==> rest[..p.used] == Journal(crc, p.frames, p.closed, sequence)
  {
    hide VoteFrameBytes, Journal, ValidFrame;
    if sequence + |p.frames| <= MAX_INT64 {
      JournalCons(crc, p.frames, p.closed, sequence);
      assert p.frames[1..] == q.frames;
      assert rest[..p.used] == rest[..FrameLength(f)] + rest[FrameLength(f)..][..q.used];
    }
  }

  /** The bytes a finished owner of this poll can leave: header, frames 0.., CLOSED. */
  ghost predicate IsClosedJournal(c: Config, crc: Checksum, file: seq<u8>, fs: seq<Frame>) {
    && c.Valid()
    && ValidFrames(c, fs)
    && |fs| < MAX_INT64
    && file == FileHeader(crc, c) + Journal(crc, fs, true, 0)
  }

  ghost predicate Accepted(c: Config, crc: Checksum, file: seq<u8>) {
    ParseFile(c, crc, file).closed && ParseFile(c, crc, file).tail == Clean
  }

  /** A scan reports a closed journal with no incomplete tail for exactly the journals an owner can leave. */
  lemma AcceptedIffClosedJournal(c: Config, crc: Checksum, file: seq<u8>)
    ensures Accepted(c, crc, file) <==> exists fs :: IsClosedJournal(c, crc, file, fs)
    ensures forall fs :: IsClosedJournal(c, crc, file, fs) ==> fs == ParseFile(c, crc, file).frames
  {
    var p := ParseFile(c, crc, file);
    if Accepted(c, crc, file) {
      ParseSound(c, crc, file[FILE_HEADER_BYTES..], 0);
      var rest := file[FILE_HEADER_BYTES..];
      assert rest[..|rest|] == rest;
      assert file == file[..FILE_HEADER_BYTES] + rest;
      assert IsClosedJournal(c, crc, file, p.frames);
    }
    forall fs | IsClosedJournal(c, crc, file, fs)
      ensures fs == p.frames && Accepted(c, crc, file)
    {
      var j := Journal(crc, fs, true, 0);
      assert file[..FILE_HEADER_BYTES] == FileHeader(crc, c) && file[FILE_HEADER_BYTES..] == j == j[..|j|];
      ParsePrefix(c, crc, fs, true, 0, |j|);
      EncodedLength(crc, fs, 0);
      assert fs[..|fs|] == fs;
      WholeFramesMeaning(fs, |j|, |fs|);
    }
  }

  /**
   * Every byte-prefix of a journal past its header scans to the frames that survived whole. The one
   * prefix reported as an error is the complete journal whose CLOSED has the last sequence number.
   */
  lemma PrefixScans(c: Config, crc: Checksum, fs: seq<Frame>, closed: bool, file: seq<u8>)
    requires c.Valid() && ValidFrames(c, fs) && |fs| <= MAX_INT64
    requires FILE_HEADER_BYTES <= |file| && file <= FileHeader(crc, c) + Journal(crc, fs, closed, 0)
    ensures var p := ParseFile(c, crc, file);
      && p.frames <= fs
      && p.closed == (closed && file == FileHeader(crc, c) + Journal(crc, fs, closed, 0))
      && (p.tail.Failed? <==> p.closed && |fs| == MAX_INT64)
      && p.used == FILE_HEADER_BYTES + FramesLength(p.frames) + (if p.closed then FRAME_HEADER_BYTES else 0)
      && (!p.tail.Failed? ==> (p.tail == Torn <==> p.used < |file|))
    ensures forall m | 0 <= m <= |fs| ::
              m <= |ParseFile(c, crc, file).frames| <==> FILE_HEADER_BYTES + FramesLength(fs[..m]) <= |file|
  {
    hide FileHeader, Journal, Parse;
    var j := Journal(crc, fs, closed, 0);
    var whole := FileHeader(crc, c) + j;
    assert file == whole[..|file|];
    assert file[..FILE_HEADER_BYTES] == FileHeader(crc, c);
    var k := |file| - FILE_HEADER_BYTES;
    assert file[FILE_HEADER_BYTES..] == j[..k];
    ParsePrefix(c, crc, fs, closed, 0, k);
    forall m | 0 <= m <= |fs|
      ensures m <= WholeFrames(fs, k) <==> FILE_HEADER_BYTES + FramesLength(fs[..m]) <= |file|
    {
      WholeFramesMeaning(fs, k, m);
    }
    WholeFramesMeaning(fs, k, WholeFrames(fs, k));
  }
}
