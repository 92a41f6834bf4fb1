/**
  What the RDMA transport reads from a command and writes into its work
  requests: SGL descriptors, the route they decide, work-request ids, and the
  one-per-run transfers of a scattered lease.
 */
module RdmaCommands {
  import opened Common
  import opened Digest
  import opened Pdu
  import opened Segments
  import Pool
  import RdmaState

  const ICD_LEN: nat := 4096
  const SQE_LEN: nat := 64
  const MDTS: nat := 0x2_0000

  const SGL_TYPE_OFFSET: nat := 39
  const KEYED_SGL_TYPE_HI: int := 4
  const INLINE_SGL_TYPE: byte := 1

  const WRITE: byte := 1
  const DSM: byte := 9

  // ----- SGL descriptors -----

  function Le64(b: seq<byte>, at: nat): nat
    requires at + 8 <= |b|
  {
    Le32(b, at) + 0x1_0000_0000 * Le32(b, at + 4)
  }

  /** In-capsule data: offset into the in-capsule region, length. */
  function InlineOff(sqe: Sqe): nat {
    Le64(sqe, 24)
  }

  function InlineLen(sqe: Sqe): nat {
    Le32(sqe, 32)
  }

  /** Keyed data block: the length is a 24-bit field. */
  function KeyedLen(sqe: Sqe): nat {
    (sqe[32] as int) + 0x100 * (sqe[33] as int) + 0x1_0000 * (sqe[34] as int)
  }

  function StagedLen(sqe: Sqe): nat {
    Min(KeyedLen(sqe), MDTS)
  }

  predicate HostDataIn(io: bool, sqe: Sqe) {
    io && (sqe[0] == WRITE || sqe[0] == DSM)
  }

  /** The payload is in the capsule: host data with a descriptor that is not keyed. */
  predicate Inline(io: bool, sqe: Sqe) {
    HostDataIn(io, sqe) && (sqe[SGL_TYPE_OFFSET] as int) / 16 != KEYED_SGL_TYPE_HI
  }

  /** `off.saturating_add(len)` on 64 bits. */
  function SatAdd(off: nat, len: nat): nat {
    if off + len < 0x1_0000_0000_0000_0000 then off + len else 0xFFFF_FFFF_FFFF_FFFF
  }

  /** Where `route_cmd` sends a command. */
  function RouteOf(io: bool, sqe: Sqe): RdmaState.Route {
    if !HostDataIn(io, sqe) then RdmaState.Pass
    else if Inline(io, sqe) then
      if sqe[SGL_TYPE_OFFSET] != INLINE_SGL_TYPE then RdmaState.Reject
      else if InlineLen(sqe) == 0 || SatAdd(InlineOff(sqe), InlineLen(sqe)) > ICD_LEN then RdmaState.Reject
      else RdmaState.Stage(Pool.PagesFor(InlineLen(sqe)))
    else if StagedLen(sqe) == 0 then RdmaState.Reject
    else RdmaState.Stage(Pool.PagesFor(StagedLen(sqe)))
  }

  /** A staged in-capsule payload lies inside the capsule, and every staged one fits a lease. */
  lemma RouteIsSafe(io: bool, sqe: Sqe)
    ensures RouteOf(io, sqe).Stage? ==> 1 <= RouteOf(io, sqe).pages <= Pool.MAX_SEGS
    ensures RouteOf(io, sqe).Stage? && Inline(io, sqe) ==> SQE_LEN + InlineOff(sqe) + InlineLen(sqe) <= SQE_LEN + ICD_LEN
    ensures Inline(io, sqe) ==> RouteOf(io, sqe) != RdmaState.Pass
  {
  }

  ghost function EnvOf(io: bool, frag: nat -> nat, nslots: nat, pool: nat): RdmaState.Env {
    RdmaState.Env((s: Sqe) => RouteOf(io, s), (s: Sqe) => Inline(io, s), frag, nslots, pool)
  }

  /** The decode meets what the queue's bounds assume of it. */
  lemma DecodeIsOk(io: bool, frag: nat -> nat, nslots: nat, pool: nat)
    ensures RdmaState.EnvOk(EnvOf(io, frag, nslots, pool))
  {
    forall s: Sqe ensures
      && (RouteOf(io, s).Stage? ==> 1 <= RouteOf(io, s).pages <= 32)
      && (Inline(io, s) ==> RouteOf(io, s) != RdmaState.Pass)
    {
      RouteIsSafe(io, s);
    }
  }

  // ----- work-request ids -----

  datatype WrKind = Recv | Send | Write | Read

  datatype WrId = WrId(kind: WrKind, low: u32)

  function Code(kind: WrKind): nat {
    match kind
    case Recv => 1
    case Send => 2
    case Write => 3
    case Read => 4
  }

  function Encode(id: WrId): nat {
    Code(id.kind) * 0x100_0000_0000 + id.low
  }

  function Decode(raw: nat): Option<WrId> {
    var low: u32 := raw % 0x1_0000_0000;
    match raw / 0x100_0000_0000 % 256
    case 1 => Some(WrId(Recv, low))
    case 2 => Some(WrId(Send, low))
    case 3 => Some(WrId(Write, low))
    case 4 => Some(WrId(Read, low))
    case _ => None
  }

  lemma WrIdRoundTrip(id: WrId)
    ensures Decode(Encode(id)) == Some(id)
  {
    assert Encode(id) / 0x100_0000_0000 == Code(id.kind);
  }

  // ----- one work request per run -----

  /** The lease's runs covering its first `len` bytes. */
  method FillSges(segs: seq<Seg>, len: nat) returns (sges: seq<Seg>)
    requires forall i :: 0 <= i < |segs| ==> segs[i].len > 0
    ensures sges == SubRange(segs, 0, len)
  {
    sges := [];
    var rest, remaining: nat := segs, len;
    while rest != [] && remaining > 0
      invariant forall i :: 0 <= i < |rest| ==> rest[i].len > 0
      invariant sges + SubRange(rest, 0, remaining) == SubRange(segs, 0, len)
      decreases |rest|
    {
      var take := Min(remaining, rest[0].len);
      ghost var tail := SubRange(rest[1..], 0, remaining - take);
      assert rest[0].ptr + 0 == rest[0].ptr;
      assert SubRange(rest, 0, remaining) == [Seg(rest[0].ptr, take)] + tail;
      assert sges + ([Seg(rest[0].ptr, take)] + tail) == sges + [Seg(rest[0].ptr, take)] + tail;
      sges := sges + [Seg(rest[0].ptr, take)];
      remaining := remaining - take;
      rest := rest[1..];
    }
    assert SubRange(rest, 0, remaining) == [];
  }

  /** A single-segment transfer between `seg` and host memory at `remote`. */
  datatype Wr = Wr(remote: nat, seg: Seg, signaled: bool)

  function Wrs(base: nat, sges: seq<Seg>): seq<Wr>
    decreases |sges|
  {
    if sges == [] then [] else [Wr(base, sges[0], |sges| == 1)] + Wrs(base + sges[0].len, sges[1..])
  }

  /** `post_sge_runs`: the remote address advances run by run, only the last is signaled. */
  method PostSgeRuns(base: nat, sges: seq<Seg>) returns (wrs: seq<Wr>)
    ensures wrs == Wrs(base, sges) && |wrs| == |sges|
  {
    wrs := [];
    var remote: nat, rest := base, sges;
    while rest != []
      invariant wrs + Wrs(remote, rest) == Wrs(base, sges) && |wrs| + |rest| == |sges|
      decreases |rest|
    {
      ghost var tail := Wrs(remote + rest[0].len, rest[1..]);
      assert wrs + ([Wr(remote, rest[0], |rest| == 1)] + tail) == wrs + [Wr(remote, rest[0], |rest| == 1)] + tail;
      wrs := wrs + [Wr(remote, rest[0], |rest| == 1)];
      remote := remote + rest[0].len;
      rest := rest[1..];
    }
  }

  /** One completion per command: exactly the last run is signaled. */
  lemma {:induction false} LastIsSignaled(base: nat, sges: seq<Seg>)
    ensures |Wrs(base, sges)| == |sges|
    ensures forall i :: 0 <= i < |sges| ==> (Wrs(base, sges)[i].signaled <==> i == |sges| - 1)
    decreases |sges|
  {
    if sges != [] {
      LastIsSignaled(base + sges[0].len, sges[1..]);
    }
  }

  /** The arena after the NIC has performed these READs from the host's memory. */
  function AfterReads(m: seq<byte>, wrs: seq<Wr>, host: nat -> byte): (r: seq<byte>)
    ensures |r| == |m|
    decreases |wrs|
  {
    if wrs == [] || wrs[0].seg.ptr + wrs[0].seg.len > |m| then m
    else
      var w := wrs[0];
      AfterReads(Splice(m, w.seg.ptr, HostBytes(host, w.remote, w.seg.len)), wrs[1..], host)
  }

  function HostBytes(host: nat -> byte, at: nat, len: nat): seq<byte> {
    seq<byte>(len, i requires i >= 0 => host(at + i))
  }

  /** The READs of a scattered lease bring in the host's region as one contiguous piece. */
  lemma {:induction false} ReadsFillLease(m: seq<byte>, base: nat, sges: seq<Seg>, host: nat -> byte)
    requires InArena(|m|, sges)
    ensures AfterReads(m, Wrs(base, sges), host) == Put(m, sges, 0, HostBytes(host, base, Size(sges)))
    decreases |sges|
  {
    if sges != [] {
      var s, rest := sges[0], sges[1..];
      var src := HostBytes(host, base, Size(sges));
      assert Wrs(base, sges)[1..] == Wrs(base + s.len, rest);
      assert src[..s.len] == HostBytes(host, base, s.len);
      assert src[s.len..] == HostBytes(host, base + s.len, Size(rest));
      ReadsFillLease(Splice(m, s.ptr, src[..s.len]), base + s.len, rest, host);
      PutFront(m, sges, src);
    }
  }

  lemma PutFront(m: seq<byte>, sges: seq<Seg>, src: seq<byte>)
    requires InArena(|m|, sges) && sges != [] && |src| == Size(sges)
    ensures Put(m, sges, 0, src) == Put(Splice(m, sges[0].ptr, src[..sges[0].len]), sges[1..], 0, src[sges[0].len..])
  {
    if sges[0].len == 0 {
      assert Splice(m, sges[0].ptr, src[..0]) == m && src[0..] == src;
    } else {
      assert Min(sges[0].len - 0, |src|) == sges[0].len;
    }
  }
}
