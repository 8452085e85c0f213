/** The streaming reader over a journal file: Scan and Replay, with the visitor they feed (internal/filelog/scan.go). */
module FileScanner {
  import opened Bytes
  import opened Wrappers
  import opened FileCodec
  import opened FileScan

  datatype Position = Position(partition: nat, offset: nat, index: nat)

  datatype Visited = Visited(position: Position, vote: Vote)

  datatype ScanError = Unreadable(failure: Failure) | VisitorFailed

  datatype ScanResult = ScanResult(
    error: Option<ScanError>, closedAt: Option<nat>, incompleteTail: bool, frames: nat, votes: nat, validBytes: nat)

  function FrameVisits(f: Frame, sequence: nat): (vs: seq<Visited>)
    ensures |vs| == |f|
  {
    seq(|f|, i requires 0 <= i < |f| => Visited(Position(0, sequence, i), f[i]))
  }

  /** The visits of frames numbered from `sequence` on. */
  function Visits(fs: seq<Frame>, sequence: nat): seq<Visited> {
    if fs == [] then [] else FrameVisits(fs[0], sequence) + Visits(fs[1..], sequence + 1)
  }

  function CountVotes(fs: seq<Frame>): nat {
    if fs == [] then 0 else |fs[0]| + CountVotes(fs[1..])
  }

  predicate Before(p: Position, q: Position) {
    p.offset < q.offset || (p.offset == q.offset && p.index < q.index)
  }

  ghost predicate VisitOf(v: Visited, fs: seq<Frame>, sequence: nat) {
    && v.position.partition == 0
    && sequence <= v.position.offset < sequence + |fs|
    && v.position.index < |fs[v.position.offset - sequence]|
    && v.vote == fs[v.position.offset - sequence][v.position.index]
  }

  ghost predicate InOrder(vs: seq<Visited>) {
    forall a, b | 0 <= a < b < |vs| :: Before(vs[a].position, vs[b].position)
  }

  lemma {:induction false} VisitsSound(fs: seq<Frame>, sequence: nat)
    ensures |Visits(fs, sequence)| == CountVotes(fs)
    ensures forall v | v in Visits(fs, sequence) :: VisitOf(v, fs, sequence)
  {
    if fs != [] {
      VisitsSound(fs[1..], sequence + 1);
      forall v | v in Visits(fs, sequence) ensures VisitOf(v, fs, sequence) {
        if v in Visits(fs[1..], sequence + 1) {
          assert VisitOf(v, fs[1..], sequence + 1);
        } else {
          assert v in FrameVisits(fs[0], sequence);
        }
      }
    }
  }

  lemma {:induction false} VisitsComplete(fs: seq<Frame>, sequence: nat, k: nat, i: nat)
    requires k < |fs| && i < |fs[k]|
    ensures Visited(Position(0, sequence + k, i), fs[k][i]) in Visits(fs, sequence)
  {
    if k == 0 {
      assert FrameVisits(fs[0], sequence)[i] in Visits(fs, sequence);
    } else {
      VisitsComplete(fs[1..], sequence + 1, k - 1, i);
    }
  }

  lemma {:induction false} VisitsOrdered(fs: seq<Frame>, sequence: nat)
    ensures InOrder(Visits(fs, sequence))
  {
    if fs != [] {
      var here, later := FrameVisits(fs[0], sequence), Visits(fs[1..], sequence + 1);
      var vs := here + later;
      VisitsOrdered(fs[1..], sequence + 1);
      VisitsSound(fs[1..], sequence + 1);
      forall a, b | 0 <= a < b < |vs| ensures Before(vs[a].position, vs[b].position) {
        if b >= |here| {
          assert vs[b] == later[b - |here|] && VisitOf(vs[b], fs[1..], sequence + 1);
          if a >= |here| { assert vs[a] == later[a - |here|]; }
        }
      }
    }
  }

  lemma {:induction false} VisitsAppend(fs: seq<Frame>, f: Frame, sequence: nat)
    ensures Visits(fs + [f], sequence) == Visits(fs, sequence) + FrameVisits(f, sequence + |fs|)
    ensures CountVotes(fs + [f]) == CountVotes(fs) + |f|
  {
    if fs == [] {
      assert fs + [f] == [f];
      assert Visits([f], sequence) == FrameVisits(f, sequence) + Visits([], sequence + 1);
    } else {
      assert (fs + [f])[1..] == fs[1..] + [f];
      VisitsAppend(fs[1..], f, sequence + 1);
    }
  }

  /**
   * Scan feeds the visitor, which may refuse after any visit: `accept` gets everything visited so far.
   * Unless it refuses, the result and the visits are those of the parsed file, whatever the bytes.
   */
  method Scan(c: Config, crc: Checksum, file: seq<u8>, accept: seq<Visited> -> bool)
    returns (r: ScanResult, visited: seq<Visited>)
    ensures visited <= Visits(ParseFile(c, crc, file).frames, 0)
    ensures r.error == Some(VisitorFailed) ==>
              visited != [] && !accept(visited) && Agreeable(accept, visited[..|visited| - 1])
    ensures r.error != Some(VisitorFailed) ==>
              var p := ParseFile(c, crc, file);
              && r.error == (if p.tail.Failed? then Some(Unreadable(p.tail.failure)) else None)
              && (r.incompleteTail <==> p.tail == Torn)
              && r.closedAt == (if p.closed then Some(|p.frames|) else None)
              && r.frames == |p.frames| + (if p.closed then 1 else 0)
              && r.votes == |visited| && r.validBytes == p.used
              && visited == Visits(p.frames, 0) && Agreeable(accept, visited)
  {
    hide FileHeader, ReadFrame, FrameVisits, Agreeable, Resumes, Visits, CountVotes, Parse;
    r, visited := ScanResult(None, None, false, 0, 0, 0), [];
    NothingVisited(accept);
    if !c.Valid() {
      r := r.(error := Some(Unreadable(InvalidConfig)));
      return;
    }
    if |file| < FILE_HEADER_BYTES || file[..FILE_HEADER_BYTES] != FileHeader(crc, c) {
      r := r.(error := Some(Unreadable(BadFileHeader)));
      return;
    }
    ghost var whole := ParseFile(c, crc, file);
    ghost var done: seq<Frame> := [];
    var at := FILE_HEADER_BYTES;
    var sequence: u64 := 0;
    r := r.(validBytes := FILE_HEADER_BYTES);
    ResumeStart(c, crc, file);
    while true
      invariant FILE_HEADER_BYTES <= at <= |file| && sequence <= MAX_INT64 && |done| == sequence
      invariant Resumes(c, crc, file, at, sequence, done, whole)
      invariant r == ScanResult(None, None, false, sequence, CountVotes(done), at)
      invariant visited == Visits(done, 0) && |visited| == CountVotes(done) && Agreeable(accept, visited)
      decreases |file| - at
    {
      var rest := file[at..];
      ResumeEnd(c, crc, file, at, sequence, done, whole);
      if |rest| == 0 {
        return;
      }
      var read := ReadFrame(c, crc, rest, sequence);
      match read {
        case Cut =>
          r := r.(incompleteTail := true);
          return;
        case Bad(failure) =>
          r := r.(error := Some(Unreadable(failure)));
          return;
        case Whole(kind, frame) =>
          var n := FrameLength(frame);
          if kind == KIND_CLOSED {
            r := r.(closedAt := Some(sequence), frames := r.frames + 1, validBytes := r.validBytes + n);
            if sequence == MAX_INT64 {
              r := r.(error := Some(Unreadable(SequenceExhausted)));
            } else if |rest| > n {
              r := r.(error := Some(Unreadable(AfterClosed)));
            }
            return;
          }
          ResumeStep(c, crc, file, at, sequence, done, whole, frame);
          VisitsAppend(done, frame, 0);
          VisitsPrefix(done + [frame], whole.frames);
          VisitsSound(done + [frame], 0);
          var refused;
          visited, refused := VisitFrame(frame, sequence, accept, visited);
          if refused {
            r := r.(error := Some(VisitorFailed));
            return;
          }
          r := r.(frames := r.frames + 1, votes := r.votes + |frame|, validBytes := r.validBytes + n);
          if sequence == MAX_INT64 {
            r := r.(error := Some(Unreadable(SequenceExhausted)));
            return;
          }
          done := done + [frame];
          at := at + n;
          sequence := sequence + 1;
      }
    }
  }

  ghost predicate Agreeable(accept: seq<Visited> -> bool, visited: seq<Visited>) {
    forall n | 0 < n <= |visited| :: accept(visited[..n])
  }

  /** Scanning on from `at` completes the frames already done to the whole parse. */
  ghost predicate Resumes(c: Config, crc: Checksum, file: seq<u8>, at: nat, sequence: u64, done: seq<Frame>, whole: Parsed)
    requires at <= |file| && sequence <= MAX_INT64
  {
    var q := Parse(c, crc, file[at..], sequence);
    whole == Parsed(done + q.frames, q.closed, q.tail, at + q.used)
  }

  lemma NothingVisited(accept: seq<Visited> -> bool)
    ensures Visits([], 0) == [] && CountVotes([]) == 0 && Agreeable(accept, [])
  {
  }

  lemma ResumeStart(c: Config, crc: Checksum, file: seq<u8>)
    requires c.Valid() && FILE_HEADER_BYTES <= |file| && file[..FILE_HEADER_BYTES] == FileHeader(crc, c)
    ensures Resumes(c, crc, file, FILE_HEADER_BYTES, 0, [], ParseFile(c, crc, file))
  {
    hide FileHeader, Parse;
    var q := Parse(c, crc, file[FILE_HEADER_BYTES..], 0);
    assert [] + q.frames == q.frames;
  }

  lemma ResumeEnd(c: Config, crc: Checksum, file: seq<u8>, at: nat, sequence: u64, done: seq<Frame>, whole: Parsed)
    requires at <= |file| && sequence <= MAX_INT64 && Resumes(c, crc, file, at, sequence, done, whole)
    ensures var rest := file[at..];
      && (rest == [] ==> whole == Parsed(done, false, Clean, at))
      && (rest != [] ==>
            match ReadFrame(c, crc, rest, sequence)
            case Cut => whole == Parsed(done, false, Torn, at)
            case Bad(failure) => whole == Parsed(done, false, Failed(failure), at)
            case Whole(kind, frame) => kind == KIND_CLOSED ==>
              whole == Parsed(done, true,
                              if sequence == MAX_INT64 then Failed(SequenceExhausted)
                              else if |rest| > FrameLength(frame) then Failed(AfterClosed) else Clean,
                              at + FrameLength(frame)))
  {
    hide ReadFrame;
    assert done + [] == done;
  }

  lemma ResumeStep(c: Config, crc: Checksum, file: seq<u8>, at: nat, sequence: u64, done: seq<Frame>, whole: Parsed, f: Frame)
    requires at < |file| && sequence <= MAX_INT64 && Resumes(c, crc, file, at, sequence, done, whole)
    requires ReadFrame(c, crc, file[at..], sequence) == Whole(KIND_VOTES, f)
    ensures done + [f] <= whole.frames
    ensures sequence < MAX_INT64 ==> Resumes(c, crc, file, at + FrameLength(f), sequence + 1, done + [f], whole)
    ensures sequence == MAX_INT64 ==> whole == Parsed(done + [f], false, Failed(SequenceExhausted), at + FrameLength(f))
  {
    hide ReadFrame;
    var n := FrameLength(f);
    assert file[at..][n..] == file[at + n..];
    if sequence < MAX_INT64 {
      var q := Parse(c, crc, file[at + n..], sequence + 1);
      assert done + ([f] + q.frames) == done + [f] + q.frames;
    }
  }

  /** The inner loop: one call of the visitor per entry, stopping at the first refusal. */
  method VisitFrame(f: Frame, sequence: nat, accept: seq<Visited> -> bool, before: seq<Visited>)
    returns (visited: seq<Visited>, refused: bool)
    requires Agreeable(accept, before)
    ensures !refused ==> visited == before + FrameVisits(f, sequence) && Agreeable(accept, visited)
    ensures refused ==>
              && |before| < |visited| && visited <= before + FrameVisits(f, sequence)
              && Agreeable(accept, visited[..|visited| - 1]) && !accept(visited)
  {
    visited := before;
    for index := 0 to |f|
      invariant visited == before + FrameVisits(f, sequence)[..index]
      invariant Agreeable(accept, visited)
    {
      ghost var seen := visited;
      visited := visited + [Visited(Position(0, sequence, index), f[index])];
      assert visited == before + FrameVisits(f, sequence)[..index + 1];
      assert visited[..|visited| - 1] == seen;
      assert forall m | 0 < m < |visited| :: visited[..m] == seen[..m];
      if !accept(visited) {
        return visited, true;
      }
      assert visited[..|visited|] == visited;
    }
    assert FrameVisits(f, sequence)[..|f|] == FrameVisits(f, sequence);
    refused := false;
  }

  lemma {:induction false} VisitsConcat(fs: seq<Frame>, gs: seq<Frame>, sequence: nat)
    ensures Visits(fs + gs, sequence) == Visits(fs, sequence) + Visits(gs, sequence + |fs|)
  {
    if fs == [] {
      assert fs + gs == gs;
    } else {
      assert (fs + gs)[1..] == fs[1..] + gs;
      VisitsConcat(fs[1..], gs, sequence + 1);
    }
  }

  lemma VisitsPrefix(done: seq<Frame>, all: seq<Frame>)
    requires done <= all
    ensures Visits(done, 0) <= Visits(all, 0)
  {
    VisitsConcat(done, all[|done|..], 0);
    assert all == done + all[|done|..];
  }

  /** Replay publishes only behind a complete CLOSED with nothing after it. */
  method Replay(c: Config, crc: Checksum, file: seq<u8>, accept: seq<Visited> -> bool)
    returns (end: Option<nat>, visited: seq<Visited>)
    ensures end.Some? ==> IsClosedJournal(c, crc, file, ParseFile(c, crc, file).frames)
                          && end.value == |ParseFile(c, crc, file).frames|
                          && visited == Visits(ParseFile(c, crc, file).frames, 0)
    ensures (forall fs :: !IsClosedJournal(c, crc, file, fs)) ==> end == None
    ensures (exists fs :: IsClosedJournal(c, crc, file, fs)) ==>
              end == Some(|ParseFile(c, crc, file).frames|) || (visited != [] && !accept(visited))
  {
    hide ParseFile, Visits, IsClosedJournal, Agreeable;
    var r;
    r, visited := Scan(c, crc, file, accept);
    AcceptedIffClosedJournal(c, crc, file);
    end := if r.error.Some? || r.closedAt.None? || r.incompleteTail then None else r.closedAt;
  }
}
