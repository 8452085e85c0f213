/** The in-place buffer routines of internal/filelog/codec.go, proved against the codec's functions. */
module FileBuffers {
  import opened Bits
  import opened Bytes
  import opened FileCodec

  /** Go's copy(b[at:], src) for a source that fits. */
  method Copy(b: array<u8>, at: nat, src: seq<u8>)
    requires at + |src| <= b.Length
    modifies b
    ensures b[..at + |src|] == old(b[..at]) + src
    ensures forall k | at + |src| <= k < b.Length :: b[k] == old(b[k])
  {
    for i := 0 to |src|
      invariant forall k | 0 <= k < b.Length ::
                  b[k] == if at <= k < at + i then src[k - at] else old(b[k])
    {
      b[at + i] := src[i];
    }
  }

  /** One pass of the entry loop: the token, the choice and the shared admission instant. */
  method PutEntry(b: array<u8>, at: nat, v: Input, admitted: i64)
    requires at + ENTRY_BYTES <= b.Length
    modifies b
    ensures b[..at + ENTRY_BYTES] == old(b[..at]) + EntryBytes(Vote(v.token, v.choice, admitted))
  {
    Copy(b, at, v.token);
    assert b[..at + 16] == old(b[..at]) + v.token;
    Copy(b, at + 16, Put32(v.choice));
    assert b[..at + 20] == old(b[..at]) + v.token + Put32(v.choice);
    Copy(b, at + 20, Put64(ToUnsigned(admitted)));
    assert b[..at + ENTRY_BYTES] == old(b[..at]) + v.token + Put32(v.choice) + Put64(ToUnsigned(admitted));
  }

  lemma PayloadNext(f: seq<Vote>, i: nat)
    requires i < |f|
    ensures Payload(f[..i + 1]) == Payload(f[..i]) + EntryBytes(f[i])
    ensures |Payload(f[..i])| == ENTRY_BYTES * i
  {
    PayloadAppend(f[..i], f[i]);
    assert f[..i + 1] == f[..i] + [f[i]];
  }

  method EncodeInputs(inputs: seq<Input>, admitted: i64) returns (b: array<u8>)
    ensures fresh(b) && b[..] == Zeros(FRAME_HEADER_BYTES) + Payload(Stamp(inputs, admitted))
  {
    hide Payload, EntryBytes;
    b := new u8[FRAME_HEADER_BYTES + ENTRY_BYTES * |inputs|](_ => 0);
    ghost var f := Stamp(inputs, admitted);
    for i := 0 to |inputs|
      invariant b[..FRAME_HEADER_BYTES + i * ENTRY_BYTES] == Zeros(FRAME_HEADER_BYTES) + Payload(f[..i])
    {
      PutEntry(b, FRAME_HEADER_BYTES + i * ENTRY_BYTES, inputs[i], admitted);
      PayloadNext(f, i);
      assert Zeros(FRAME_HEADER_BYTES) + Payload(f[..i]) + EntryBytes(f[i])
          == Zeros(FRAME_HEADER_BYTES) + (Payload(f[..i]) + EntryBytes(f[i]));
    }
    assert f[..|inputs|] == f && b[..] == b[..b.Length];
  }

  /** The reserved header bytes are never written: they are zero because the buffer was made zeroed. */
  method FinishFrame(crc: Checksum, b: array<u8>, sequence: u64, kind: u32, count: u32)
    requires count <= MAX_FRAME_VOTES && b.Length == FRAME_HEADER_BYTES + count * ENTRY_BYTES
    requires b[24..32] == Zeros(8)
    modifies b
    ensures b[..] == FrameBytes(crc, sequence, kind, count, old(b[FRAME_HEADER_BYTES..]))
  {
    ghost var payload := b[FRAME_HEADER_BYTES..];
    Copy(b, 0, FRAME_MAGIC);
    Copy(b, 4, Put32(b.Length));
    Copy(b, 8, Put64(sequence));
    Copy(b, 16, Put32(kind));
    Copy(b, 20, Put32(count));
    ghost var front := FRAME_MAGIC + Put32(b.Length) + Put64(sequence) + Put32(kind) + Put32(count);
    assert b[..24] == front && b[FRAME_HEADER_BYTES..] == payload;
    assert forall k | 24 <= k < 32 :: b[k] == old(b[24..32][k - 24]);
    assert b[..32] == front + Zeros(8);
    Copy(b, 32, Put32(crc(b[FRAME_HEADER_BYTES..])));
    assert b[..36] == HeaderFields(b.Length, sequence, kind, count, crc(payload));
    Copy(b, 36, Put32(crc(b[..36])));
    assert b[FRAME_HEADER_BYTES..] == payload;
    assert b[..] == b[..FRAME_HEADER_BYTES] + b[FRAME_HEADER_BYTES..];
  }

  method MakeFileHeader(crc: Checksum, c: Config) returns (b: array<u8>)
    requires c.Valid()
    ensures fresh(b) && b[..] == FileHeader(crc, c)
  {
    b := new u8[FILE_HEADER_BYTES](_ => 0);
    Copy(b, 0, FILE_MAGIC);
    Copy(b, 8, c.pollID);
    Copy(b, 24, Put64(ToUnsigned(c.startsAt)));
    Copy(b, 32, Put64(ToUnsigned(c.endsAt)));
    Copy(b, 40, Put32(c.allowedMask));
    ghost var front := FILE_MAGIC + c.pollID + Put64(ToUnsigned(c.startsAt)) + Put64(ToUnsigned(c.endsAt)) + Put32(c.allowedMask);
    assert b[..44] == front && forall k | 44 <= k < b.Length :: b[k] == 0;
    if c.multiple {
      b[44] := 1;
    }
    assert b[..44] == front;
    assert b[..76] == front + [b[44]] + Zeros(31);
    Copy(b, 76, Put32(crc(b[..76])));
    assert b[..] == b[..80];
  }
}
