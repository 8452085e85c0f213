/** Byte strings and Go's encoding/binary big-endian integers. */
module Bytes {
  import opened Bits

  type u8 = x: int | 0 <= x < 256

  const TWO_TO_THE_64: nat := 0x1_0000_0000_0000_0000
  const MAX_INT64: int := 0x7FFF_FFFF_FFFF_FFFF

  type i64 = x: int | -MAX_INT64 - 1 <= x <= MAX_INT64
  type u64 = x: int | 0 <= x < TWO_TO_THE_64

  /** A 16-byte identifier: a poll ID or a voter token. */
  type Token = t: seq<u8> | |t| == 16 witness Zeros(16)

  function Zeros(n: nat): (z: seq<u8>)
    ensures |z| == n && forall i | 0 <= i < n :: z[i] == 0
  {
    seq(n, _ => 0)
  }

  const ZERO_TOKEN: Token := Zeros(16)

  lemma Assoc<T>(a: seq<T>, b: seq<T>, c: seq<T>)
    ensures a + b + c == a + (b + c)
  {
  }

  function Pow256(w: nat): (p: nat)
    ensures p > 0
  {
    if w == 0 then 1 else 256 * Pow256(w - 1)
  }

  /** The w-byte big-endian encoding of v modulo 256^w. */
  function PutBE(w: nat, v: nat): (b: seq<u8>)
    ensures |b| == w
  {
    if w == 0 then [] else PutBE(w - 1, v / 256) + [v % 256]
  }

  function GetBE(b: seq<u8>): nat {
    if b == [] then 0 else 256 * GetBE(b[..|b| - 1]) + b[|b| - 1]
  }

  lemma {:induction false} GetPut(w: nat, v: nat)
    requires v < Pow256(w)
    ensures GetBE(PutBE(w, v)) == v
  {
    if w > 0 {
      GetPut(w - 1, v / 256);
      assert PutBE(w, v)[..w - 1] == PutBE(w - 1, v / 256);
    }
  }

  lemma {:induction false} PutGet(b: seq<u8>)
    ensures GetBE(b) < Pow256(|b|)
    ensures PutBE(|b|, GetBE(b)) == b
  {
    if b != [] {
      PutGet(b[..|b| - 1]);
      assert GetBE(b) / 256 == GetBE(b[..|b| - 1]);
      assert b == b[..|b| - 1] + [b[|b| - 1]];
    }
  }

  lemma WidthBounds()
    ensures Pow256(4) == TWO_TO_THE_32
    ensures Pow256(8) == TWO_TO_THE_64
  {
    assert Pow256(2) == 65536;
    assert Pow256(6) == Pow256(2) * TWO_TO_THE_32;
  }

  function Put32(v: u32): (b: seq<u8>)
    ensures |b| == 4
  {
    PutBE(4, v)
  }

  function Get32(b: seq<u8>): (v: u32)
    requires |b| == 4
  {
    PutGet(b);
    WidthBounds();
    GetBE(b)
  }

  function Put64(v: u64): (b: seq<u8>)
    ensures |b| == 8
  {
    PutBE(8, v)
  }

  function Get64(b: seq<u8>): (v: u64)
    requires |b| == 8
  {
    PutGet(b);
    WidthBounds();
    GetBE(b)
  }

  /** The conversion uint64(x) of an int64. */
  function ToUnsigned(x: i64): u64 {
    if x < 0 then x + TWO_TO_THE_64 else x
  }

  /** The conversion int64(x) of a uint64. */
  function ToSigned(x: u64): i64 {
    if x > MAX_INT64 then x - TWO_TO_THE_64 else x
  }

  lemma RoundTrip32(v: u32, b: seq<u8>)
    requires |b| == 4
    ensures Get32(Put32(v)) == v && Put32(Get32(b)) == b
  {
    WidthBounds();
    GetPut(4, v);
    PutGet(b);
  }

  lemma RoundTrip64(v: u64, x: i64, b: seq<u8>)
    requires |b| == 8
    ensures Get64(Put64(v)) == v && Put64(Get64(b)) == b
    ensures ToSigned(Get64(Put64(ToUnsigned(x)))) == x
    ensures Put64(ToUnsigned(ToSigned(Get64(b)))) == b
  {
    WidthBounds();
    GetPut(8, v);
    GetPut(8, ToUnsigned(x));
    PutGet(b);
  }
}
