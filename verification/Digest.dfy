/**
  Digests. The receive and send paths use a digest only through the fact that
  it can be continued piece by piece, so they are proved for every such digest;
  CRC32C (section 12.1 of RFC 3720) is one.
 */
module Digest {
  import opened Common

  type u32 = x: int | 0 <= x < 0x1_0000_0000

  /** `crc(c, data)` continues the digest `c` over `data`; a fresh digest starts from 0. */
  type Crc = (u32, seq<byte>) -> u32

  /** Digesting a payload piece by piece digests the whole. */
  ghost predicate Composes(crc: Crc) {
    && (forall c :: crc(c, []) == c)
    && (forall c, a, b {:trigger crc(crc(c, a), b)} :: crc(crc(c, a), b) == crc(c, a + b))
  }

  // ----- CRC32C -----

  /** The Castagnoli polynomial, reflected. */
  const POLY: u32 := 0x82F6_3B78

  /** Bitwise exclusive or of the low `bits` bits. */
  function Xor(a: nat, b: nat, bits: nat): nat {
    if bits == 0 then 0
    else (a + b) % 2 + 2 * Xor(a / 2, b / 2, bits - 1)
  }

  function Pow2(n: nat): nat {
    if n == 0 then 1 else 2 * Pow2(n - 1)
  }

  lemma {:induction false} XorBound(a: nat, b: nat, bits: nat)
    ensures Xor(a, b, bits) < Pow2(bits)
  {
    if bits != 0 {
      XorBound(a / 2, b / 2, bits - 1);
    }
  }

  lemma Pow2Is32()
    ensures Pow2(32) == 0x1_0000_0000
  {
    assert Pow2(8) == 256;
    assert Pow2(16) == 0x1_0000;
    assert Pow2(24) == 0x100_0000;
  }

  function Xor32(a: u32, b: u32): u32 {
    XorBound(a, b, 32);
    Pow2Is32();
    Xor(a, b, 32)
  }

  function Shift(c: u32, bits: nat): u32
    decreases bits, c
  {
    if bits == 0 then c
    else Shift(if c % 2 == 1 then Xor32(c / 2, POLY) else c / 2, bits - 1)
  }

  function FoldBytes(step: (u32, byte) -> u32, c: u32, data: seq<byte>): u32 {
    if data == [] then c
    else step(FoldBytes(step, c, data[..|data| - 1]), data[|data| - 1])
  }

  function ShiftIn(c: u32, b: byte): u32 {
    Shift(Xor32(c, b), 8)
  }

  function Crc32c(crc: u32, data: seq<byte>): u32 {
    0xFFFF_FFFF - FoldBytes(ShiftIn, 0xFFFF_FFFF - crc, data)
  }

  lemma {:induction false} FoldCompose(step: (u32, byte) -> u32, c: u32, a: seq<byte>, b: seq<byte>)
    ensures FoldBytes(step, FoldBytes(step, c, a), b) == FoldBytes(step, c, a + b)
  {
    if b == [] {
      assert a + b == a;
    } else {
      var n := |b| - 1;
      assert (a + b)[..|a + b| - 1] == a + b[..n];
      FoldCompose(step, c, a, b[..n]);
    }
  }

  lemma Crc32cContinues(c: u32, a: seq<byte>, b: seq<byte>)
    ensures Crc32c(Crc32c(c, a), b) == Crc32c(c, a + b)
  {
    FoldCompose(ShiftIn, 0xFFFF_FFFF - c, a, b);
  }

  lemma Crc32cComposes()
    ensures Composes(Crc32c)
  {
    forall c: u32, a: seq<byte>, b: seq<byte>
      ensures Crc32c(Crc32c(c, a), b) == Crc32c(c, a + b)
    {
      Crc32cContinues(c, a, b);
    }
  }
}
