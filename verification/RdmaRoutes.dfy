/**
  Where an RDMA command goes, decided from its typed fields: the host's opcode
  and data descriptor, encoded into the 64 bytes the target decodes.
 */
module RdmaRoutes {
  import opened Common
  import opened Digest
  import opened Pdu
  import Pool
  import RdmaCommands
  import RdmaState

  /** A keyed descriptor names host memory; any other has a type byte whose high nibble is not 4. */
  datatype Descriptor =
    | Keyed(sub: nat, addr: nat, len: u32, rkey: u32)
    | Offset(kind: byte, off: nat, len: u32, reserved: seq<byte>)

  predicate Encodable(d: Descriptor) {
    match d
    case Keyed(sub, addr, len, _) => sub < 16 && addr < 0x1_0000_0000_0000_0000 && len < 0x100_0000
    case Offset(kind, off, _, reserved) => kind / 16 != 4 && off < 0x1_0000_0000_0000_0000 && |reserved| == 3
  }

  /** A command: opcode, descriptor, and whatever else the 64 bytes hold. */
  datatype Command = Command(opcode: byte, sgl: Descriptor, other: Sqe)

  function ToLe64(x: nat): (b: seq<byte>)
    requires x < 0x1_0000_0000_0000_0000
    ensures |b| == 8
  {
    ToLe32(x % 0x1_0000_0000) + ToLe32(x / 0x1_0000_0000)
  }

  function ToLe24(x: nat): (b: seq<byte>)
    requires x < 0x100_0000
    ensures |b| == 3
  {
    [x % 256, x / 256 % 256, x / 0x1_0000]
  }

  /** The 16 bytes of a descriptor. */
  function EncodeSgl(d: Descriptor): (b: seq<byte>)
    requires Encodable(d)
    ensures |b| == 16
  {
    match d
    case Keyed(sub, addr, len, rkey) => ToLe64(addr) + ToLe24(len) + ToLe32(rkey) + [0x40 + sub]
    case Offset(kind, off, len, reserved) => ToLe64(off) + ToLe32(len) + reserved + [kind]
  }

  function Encode(c: Command): Sqe
    requires Encodable(c.sgl)
  {
    [c.opcode] + c.other[1..24] + EncodeSgl(c.sgl) + c.other[40..]
  }

  // ----- what is read back -----

  lemma Le64RoundTrip(pre: seq<byte>, x: nat, post: seq<byte>)
    requires x < 0x1_0000_0000_0000_0000
    ensures RdmaCommands.Le64(pre + ToLe64(x) + post, |pre|) == x
  {
    var lo, hi := x % 0x1_0000_0000, x / 0x1_0000_0000;
    Le32RoundTrip(pre, lo, ToLe32(hi) + post);
    assert pre + ToLe64(x) + post == pre + ToLe32(lo) + (ToLe32(hi) + post);
    Le32RoundTrip(pre + ToLe32(lo), hi, post);
    assert pre + ToLe64(x) + post == (pre + ToLe32(lo)) + ToLe32(hi) + post;
  }

  lemma EncodedAt(c: Command)
    requires Encodable(c.sgl)
    ensures var s := Encode(c);
            s[0] == c.opcode && s[24..40] == EncodeSgl(c.sgl) && s[RdmaCommands.SGL_TYPE_OFFSET] == EncodeSgl(c.sgl)[15]
  {
    var pre := [c.opcode] + c.other[1..24];
    assert Encode(c) == pre + EncodeSgl(c.sgl) + c.other[40..] && |pre| == 24;
  }

  lemma Le24Digits(x: nat)
    requires x < 0x100_0000
    ensures x % 256 + 256 * (x / 256 % 256) + 0x1_0000 * (x / 0x1_0000) == x
  {
  }

  lemma KeyedReadsBack(c: Command)
    requires Encodable(c.sgl) && c.sgl.Keyed?
    ensures var s := Encode(c);
            && s[0] == c.opcode && (s[RdmaCommands.SGL_TYPE_OFFSET] as int) / 16 == 4
            && RdmaCommands.KeyedLen(s) == c.sgl.len && RdmaCommands.Le64(s, 24) == c.sgl.addr && Le32(s, 35) == c.sgl.rkey
  {
    var s, d := Encode(c), c.sgl;
    var pre := [c.opcode] + c.other[1..24];
    var post := ToLe24(d.len) + ToLe32(d.rkey) + [0x40 + d.sub] + c.other[40..];
    EncodedAt(c);
    Le64RoundTrip(pre, d.addr, post);
    assert s == pre + ToLe64(d.addr) + post;
    var pre2 := pre + ToLe64(d.addr) + ToLe24(d.len);
    Le32RoundTrip(pre2, d.rkey, [0x40 + d.sub] + c.other[40..]);
    assert s == pre2 + ToLe32(d.rkey) + ([0x40 + d.sub] + c.other[40..]);
    assert s[32] == d.len % 256 && s[33] == d.len / 256 % 256 && s[34] == d.len / 0x1_0000;
    Le24Digits(d.len);
  }

  lemma OffsetReadsBack(c: Command)
    requires Encodable(c.sgl) && c.sgl.Offset?
    ensures var s := Encode(c);
            && s[0] == c.opcode && s[RdmaCommands.SGL_TYPE_OFFSET] == c.sgl.kind
            && RdmaCommands.InlineLen(s) == c.sgl.len && RdmaCommands.InlineOff(s) == c.sgl.off
  {
    var s, d := Encode(c), c.sgl;
    var pre := [c.opcode] + c.other[1..24];
    var post := ToLe32(d.len) + d.reserved + [d.kind] + c.other[40..];
    EncodedAt(c);
    assert s == pre + ToLe64(d.off) + post;
    Le64RoundTrip(pre, d.off, post);
    var rest := d.reserved + [d.kind] + c.other[40..];
    assert s == (pre + ToLe64(d.off)) + ToLe32(d.len) + rest;
    Le32RoundTrip(pre + ToLe64(d.off), d.len, rest);
  }

  // ----- where it goes -----

  /** The command brings data: a write or a dataset management command, on an IO queue. */
  predicate BringsData(io: bool, c: Command) {
    io && (c.opcode == 0x01 || c.opcode == 0x09)
  }

  /** How much of it is staged, if it can be: in host memory, at most 128 KiB, or inside the 4 KiB of the capsule. */
  function StagedBytes(c: Command): Option<nat> {
    match c.sgl
    case Keyed(_, _, len, _) => if len == 0 then None else Some(if len < 0x2_0000 then len else 0x2_0000)
    case Offset(kind, off, len, _) => if kind == 0x01 && len > 0 && off + len <= 4096 then Some(len) else None
  }

  /** The fewest pages that hold `len` bytes. */
  predicate FewestPages(pages: nat, len: nat) {
    pages * 4096 >= len > (pages - 1) * 4096
  }

  lemma PagesAreFewest(len: nat)
    requires len > 0
    ensures FewestPages(Pool.PagesFor(len), len)
  {
  }

  /**
    Routing, exactly: a command passes if and only if it brings no data; it is
    staged if and only if its data lies in host memory or inside its capsule,
    in the fewest pages that hold it; and it is refused otherwise.
   */
  lemma RouteIff(io: bool, c: Command)
    requires Encodable(c.sgl)
    ensures var r := RdmaCommands.RouteOf(io, Encode(c));
            && (r == RdmaState.Pass <==> !BringsData(io, c))
            && (r.Stage? <==> BringsData(io, c) && StagedBytes(c).Some?)
            && (r.Stage? ==> FewestPages(r.pages, StagedBytes(c).value))
    ensures RdmaCommands.Inline(io, Encode(c)) <==> BringsData(io, c) && c.sgl.Offset?
  {
    EncodedAt(c);
    if c.sgl.Keyed? {
      KeyedReadsBack(c);
    } else {
      OffsetReadsBack(c);
    }
    if StagedBytes(c).Some? {
      PagesAreFewest(StagedBytes(c).value);
    }
  }

  lemma Halves(lo: u32, hi: u32)
    ensures var x := lo + 0x1_0000_0000 * hi; 0 <= x < 0x1_0000_0000_0000_0000 && x % 0x1_0000_0000 == lo && x / 0x1_0000_0000 == hi
  {
  }

  lemma Le64Bytes(b: seq<byte>, at: nat)
    requires at + 8 <= |b|
    ensures RdmaCommands.Le64(b, at) < 0x1_0000_0000_0000_0000 && ToLe64(RdmaCommands.Le64(b, at)) == b[at..at + 8]
  {
    var lo, hi := Le32(b, at), Le32(b, at + 4);
    Halves(lo, hi);
    assert ToLe64(RdmaCommands.Le64(b, at)) == ToLe32(lo) + ToLe32(hi);
    Le32Bytes(b, at);
    Le32Bytes(b, at + 4);
  }

  lemma Le24Bytes(s: Sqe)
    ensures ToLe24(RdmaCommands.KeyedLen(s)) == s[32..35]
  {
    Digits(s[32], s[33], s[34], 0, RdmaCommands.KeyedLen(s));
  }

  lemma KeyedBytes(s: Sqe, d: Descriptor)
    requires s[39] / 16 == 4 && d == Keyed(s[39] % 16, RdmaCommands.Le64(s, 24), RdmaCommands.KeyedLen(s), Le32(s, 35))
    ensures Encodable(d) && EncodeSgl(d) == s[24..40]
  {
    Le64Bytes(s, 24);
    Le24Bytes(s);
    Le32Bytes(s, 35);
    assert s[24..40] == s[24..32] + s[32..35] + s[35..39] + [s[39]];
  }

  lemma OffsetBytes(s: Sqe, d: Descriptor)
    requires s[39] / 16 != 4 && d == Offset(s[39], RdmaCommands.Le64(s, 24), Le32(s, 32), s[36..39])
    ensures Encodable(d) && EncodeSgl(d) == s[24..40]
  {
    Le64Bytes(s, 24);
    Le32Bytes(s, 32);
    assert s[24..40] == s[24..32] + s[32..36] + s[36..39] + [s[39]];
  }

  /** Every 64 bytes are such a command, so the routes are those of every command there is. */
  lemma EverySqe(s: Sqe) returns (c: Command)
    ensures Encodable(c.sgl) && Encode(c) == s
  {
    if s[39] / 16 == 4 {
      c := Command(s[0], Keyed(s[39] % 16, RdmaCommands.Le64(s, 24), RdmaCommands.KeyedLen(s), Le32(s, 35)), s);
      KeyedBytes(s, c.sgl);
    } else {
      c := Command(s[0], Offset(s[39], RdmaCommands.Le64(s, 24), Le32(s, 32), s[36..39]), s);
      OffsetBytes(s, c.sgl);
    }
    assert s == [s[0]] + s[1..24] + s[24..40] + s[40..];
  }
}
