/**
 * The file benchmark's disk estimate (cmd/filebench/ledger.go estimatedWALBytes) against the store it is made
 * for: frames of the generator, submitted once each, in any interleaving the journal allows.
 */
module WalBound {
  import opened Bytes
  import opened FileCodec
  import opened FileProtocol
  import FileSafety
  import FrameBound

  /** The k-th frame holds as many votes as the generator's frame pick[k], and no frame is picked twice. */
  ghost predicate Picked(frames: seq<FrameBound.Frame>, pick: seq<nat>, fs: seq<Frame>) {
    && |pick| == |fs|
    && (forall k | 0 <= k < |pick| :: pick[k] < |frames| && |fs[k]| == |frames[pick[k]].inputs|)
    && (forall j, k | 0 <= j < k < |pick| :: pick[j] != pick[k])
  }

  lemma {:induction false} VotesConcat(a: seq<Frame>, b: seq<Frame>)
    ensures FrameBound.Votes(a + b) == FrameBound.Votes(a) + FrameBound.Votes(b)
  {
    if a == [] {
      assert a + b == b;
    } else {
      assert (a + b)[1..] == a[1..] + b;
      VotesConcat(a[1..], b);
    }
  }

  lemma VotesWithout(fs: seq<Frame>, k: nat)
    requires k < |fs|
    ensures FrameBound.Votes(fs) == FrameBound.Votes(fs[..k] + fs[k + 1..]) + |fs[k]|
  {
    assert fs == fs[..k] + ([fs[k]] + fs[k + 1..]) && fs[k..] == [fs[k]] + fs[k + 1..];
    VotesConcat(fs[..k], fs[k..]);
    VotesConcat(fs[..k], fs[k + 1..]);
    assert fs == fs[..k] + fs[k..];
  }

  lemma PickedWithout(frames: seq<FrameBound.Frame>, pick: seq<nat>, fs: seq<Frame>, k: nat)
    requires frames != [] && Picked(frames, pick, fs) && k < |pick| && pick[k] == |frames| - 1
    ensures Picked(frames[..|frames| - 1], pick[..k] + pick[k + 1..], fs[..k] + fs[k + 1..])
  {
  }

  /** Frames picked once each are no more, and hold no more votes, than there were. */
  lemma {:induction false} PickedVotes(frames: seq<FrameBound.Frame>, pick: seq<nat>, fs: seq<Frame>)
    requires Picked(frames, pick, fs)
    ensures |fs| <= |frames| && FrameBound.Votes(fs) <= |FrameBound.Flat(frames)|
    decreases |frames|
  {
    if pick != [] {
      assert pick[0] < |frames|;
      var n := |frames| - 1;
      if k: nat :| k < |pick| && pick[k] == n {
        PickedWithout(frames, pick, fs, k);
        hide Picked;
        VotesWithout(fs, k);
        PickedVotes(frames[..n], pick[..k] + pick[k + 1..], fs[..k] + fs[k + 1..]);
      } else {
        assert Picked(frames[..n], pick, fs);
        PickedVotes(frames[..n], pick, fs);
      }
    }
  }

  lemma FewerPicked(frames: seq<FrameBound.Frame>, pick: seq<nat>, jobs: seq<Job>, n: nat)
    requires n <= |jobs| && Picked(frames, pick, FramesOf(jobs))
    ensures Picked(frames, pick[..n], FramesOf(jobs[..n]))
  {
    hide Stamp;
    assert FramesOf(jobs[..n]) == FramesOf(jobs)[..n];
  }

  /** The journal file is never longer than the journal of the jobs written so far. */
  lemma FileWithinImage(c: Config, crc: Checksum, s: State)
    requires Inv(c, crc, s)
    ensures c.Valid() && s.disk.tried <= |s.admitted| && s.disk.tried <= MAX_INT64
    ensures |s.disk.file| <= |Image(c, crc, s.admitted[..s.disk.tried], s.disk.closing)|
  {
    hide FlowOk, Image, BatchBounds, DiskAt, Marks, SealMarks;
  }

  /**
   * At every moment of every run of a store whose calls submit frames of the generator, each at most once,
   * the journal fits the estimate, with its header and CLOSED, and so does whatever a crash leaves of it.
   */
  lemma RunFitsEstimate(g: FrameBound.Config, frames: seq<FrameBound.Frame>, pick: seq<nat>,
                        c: Config, crc: Checksum, run: seq<State>, i: nat, image: seq<u8>)
    requires g.Valid() && |frames| <= g.FrameBound() && |FrameBound.Flat(frames)| <= g.Attempts()
    requires IsRun(c, crc, run) && i < |run| && Picked(frames, pick, FramesOf(run[i].admitted))
    requires FileSafety.CrashImage(run[i].disk, image)
    ensures |image| <= |run[i].disk.file| <= g.EstimatedWALBytes()
  {
    FileSafety.RunKeeps(c, crc, run, i);
    var s := run[i];
    FileWithinImage(c, crc, s);
    hide IsRun, Inv, Picked, FrameBound.Config.FrameBound, FrameBound.Config.Attempts, FrameBound.Config.EstimatedWALBytes, FramesOf;
    var n := s.disk.tried;
    FewerPicked(frames, pick, s.admitted, n);
    PickedVotes(frames, pick[..n], FramesOf(s.admitted[..n]));
    FrameBound.JournalFitsEstimate(g, crc, c, FramesOf(s.admitted[..n]), s.disk.closing);
  }
}
