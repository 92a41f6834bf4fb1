/**
  What every interleaving of kernel, reader and slot tasks keeps, and the
  three promises of ring-mode receive that follow: the consumed bytes are the
  socket's bytes, a retained payload keeps its bytes until its borrow ends,
  and a parked reader is always woken.
 */
module RingSystem {
  import opened Common
  import opened BufRings
  import opened RingReceive

  // ----- steps -----

  datatype Step =
    | KFill(n: nat, more: bool)
    | KNoBufs
    | KEof
    | KFail
    | Fill
    | Pop
    | Wake
    | Consume(n: nat)
    | Retain(tag: nat, k: nat, len: nat)
    | Release(tag: nat)

  /** The sub-buffers the kernel may still fill, in ring order. */
  ghost function Q(y: Sys): seq<Bid>
    requires y.taken <= |y.u.ring.log|
  {
    y.u.ring.log[y.taken..]
  }

  /** How many bytes of `b` the kernel has filled since it was last provided. */
  ghost function Filled(y: Sys, b: Bid): nat
    requires y.taken <= |y.u.ring.log|
  {
    var q := Q(y);
    if q != [] && q[0] == b then y.koff else if b in q then 0 else y.cap
  }

  ghost predicate Shape(y: Sys) {
    && y.cap > 0
    && y.u.ring.Shape()
    && y.taken <= |y.u.ring.log|
    && |y.mem| == 2 && |y.mem[0]| == y.cap && |y.mem[1]| == y.cap
    && |y.base| == 2
  }

  ghost predicate Enabled(y: Sys, s: Step)
    requires Shape(y)
  {
    match s
    case KFill(n, more) =>
      && y.armed && Q(y) != []
      && 0 < n <= y.cap - Filled(y, Q(y)[0])
      && y.fed + n <= |y.stream|
    case KNoBufs => y.armed && Q(y) == []
    case KEof => y.armed && y.fed == |y.stream|
    case KFail => y.armed
    case Fill => y.u.mode == Idle
    case Pop => y.u.mode == Waiting && y.cq != []
    case Wake => y.u.mode == Parked && y.u.ring.woken
    case Consume(n) => y.u.mode == Idle && y.u.cur.Some? && n <= y.u.cur.value.len - y.u.cur.value.pos
    case Retain(tag, k, len) =>
      && y.u.mode == Idle && y.u.cur.Some? && tag !in y.pinned
      && y.u.cur.value.pos <= k <= y.u.cur.value.len
    case Release(tag) => tag in y.pinned && y.u.ring.pending[y.pinned[tag].bid] > 0
  }

  /** The kernel copies the next `n` stream bytes into the head sub-buffer and posts a completion. */
  ghost function DoKFill(y: Sys, n: nat, more: bool): Sys
    requires Shape(y) && Enabled(y, KFill(n, more))
  {
    var b := Q(y)[0];
    var at := y.koff;
    var full := at + n == y.cap;
    y.(mem := y.mem[b := y.mem[b][..at] + y.stream[y.fed..y.fed + n] + y.mem[b][at + n..]],
       base := if at == 0 then y.base[b := y.fed] else y.base,
       taken := if full then y.taken + 1 else y.taken,
       koff := if full then 0 else at + n,
       armed := more,
       cq := y.cq + [Chunk(b, n, more, !full, at, y.fed)],
       fed := y.fed + n)
  }

  ghost function Post(y: Sys, c: Cqe): Sys {
    y.(armed := false, cq := y.cq + [c])
  }

  ghost function Do(y: Sys, d: Did): Sys {
    y.(u := d.u, armed := y.armed || d.submits)
  }

  ghost function DoPop(y: Sys): Sys
    requires Shape(y) && y.cq != []
  {
    var z := y.(cq := y.cq[1..]);
    match y.cq[0]
    case Chunk(bid, len, more, bufMore, at, pos) =>
      z.(u := TakeChunk(y.u, bid, len, more, bufMore), popped := y.popped + len)
    case NoBufs => Do(z, TakeNoBufs(y.u))
    case Eof => z.(u := TakeEnd(y.u))
    case Failed => z.(u := TakeEnd(y.u))
  }

  ghost function DoConsume(y: Sys, n: nat): Sys
    requires Shape(y) && Enabled(y, Consume(n))
  {
    var c := y.u.cur.value;
    var at := c.off + c.pos;
    y.(u := y.u.(cur := Some(c.(pos := c.pos + n))),
       out := y.out + if at + n <= y.cap then y.mem[c.bid][at..at + n] else [])
  }

  /**
    `try_retain_payload`: keep a payload that starts `k` bytes into the
    window where it lands, if all of it fits in this sub-buffer.
   */
  ghost function DoRetain(y: Sys, tag: nat, k: nat, len: nat): Sys
    requires Shape(y) && Enabled(y, Retain(tag, k, len))
  {
    var c := y.u.cur.value;
    var off := c.off + k;
    if off > y.cap || len > y.cap - off then y
    else y.(u := y.u.(ring := y.u.ring.Borrow(c.bid)),
            pinned := y.pinned[tag := Region(c.bid, off, len, y.popped - c.len + k)])
  }

  ghost function DoRelease(y: Sys, tag: nat): Sys
    requires Shape(y) && Enabled(y, Release(tag))
  {
    y.(u := y.u.(ring := y.u.ring.Release(y.pinned[tag].bid)), pinned := y.pinned - {tag})
  }

  ghost function Apply(y: Sys, s: Step): Sys
    requires Shape(y) && Enabled(y, s)
  {
    match s
    case KFill(n, more) => DoKFill(y, n, more)
    case KNoBufs => Post(y, NoBufs)
    case KEof => Post(y, Eof)
    case KFail => Post(y, Failed)
    case Fill => Do(y, BeginFill(y.u))
    case Pop => DoPop(y)
    case Wake => Do(y, Repoll(y.u))
    case Consume(n) => DoConsume(y, n)
    case Retain(tag, k, len) => DoRetain(y, tag, k, len)
    case Release(tag) => DoRelease(y, tag)
  }

  // ----- the invariant -----

  ghost predicate IsChunk(c: Cqe, b: Bid) {
    c.Chunk? && c.bid == b
  }

  ghost predicate NoChunks(cq: seq<Cqe>, b: Bid) {
    forall i :: 0 <= i < |cq| ==> !IsChunk(cq[i], b)
  }

  /** The last completion of `b`, the one that retired it, is still queued. */
  ghost predicate FinalQueued(cq: seq<Cqe>, b: Bid) {
    exists i :: 0 <= i < |cq| && IsChunk(cq[i], b) && !cq[i].bufMore
  }

  ghost predicate InHand(u: Endpoint, b: Bid) {
    u.cur.Some? && u.cur.value.bid == b && !u.cur.value.bufMore
  }

  ghost function N(p: bool): nat {
    if p then 1 else 0
  }

  /** In how many of its four places a sub-buffer is. */
  ghost function PlaceCount(y: Sys, b: Bid): nat
    requires Shape(y)
  {
    N(b in Q(y)) + N(FinalQueued(y.cq, b)) + N(InHand(y.u, b)) + N(y.u.ring.awaiting[b])
  }

  /** Each sub-buffer is in exactly one place; only `hole`, if any, is in none. */
  ghost predicate PlaceOk(y: Sys, b: Bid, hole: Option<Bid>)
    requires Shape(y)
  {
    && PlaceCount(y, b) == N(hole != Some(b))
    && (y.u.ring.awaiting[b] || InHand(y.u, b) || hole == Some(b) ==> NoChunks(y.cq, b))
  }

  /** The running offsets, replayed over the queued completions, give each chunk's true landing offset. */
  ghost predicate Synced(cq: seq<Cqe>, off: seq<nat>)
    requires |off| == 2
  {
    cq == [] ||
    match cq[0]
    case Chunk(b, len, _, bufMore, at, _) =>
      at == off[b] && Synced(cq[1..], if bufMore then off[b := off[b] + len] else off)
    case _ => Synced(cq[1..], off)
  }

  ghost function OffAfter(cq: seq<Cqe>, off: seq<nat>): (r: seq<nat>)
    requires |off| == 2
    ensures |r| == 2
  {
    if cq == [] then off
    else match cq[0]
      case Chunk(b, len, _, bufMore, _, _) => OffAfter(cq[1..], if bufMore then off[b := off[b] + len] else off)
      case _ => OffAfter(cq[1..], off)
  }

  /** Queued chunks cover the stream from `from` to `to` without gap. */
  ghost predicate Covers(cq: seq<Cqe>, from: nat, to: nat) {
    if cq == [] then from == to
    else match cq[0]
      case Chunk(_, len, _, _, _, pos) => pos == from && len > 0 && Covers(cq[1..], from + len, to)
      case _ => Covers(cq[1..], from, to)
  }

  /** A sub-buffer gets no completion after the one that retired it. */
  ghost predicate FinalIsLast(cq: seq<Cqe>) {
    forall i, j :: 0 <= i < j < |cq| && cq[i].Chunk? && cq[j].Chunk? && cq[i].bid == cq[j].bid ==> cq[i].bufMore
  }

  ghost predicate Places(y: Sys, hole: Option<Bid>)
    requires Shape(y)
  {
    && |Q(y)| <= 2 && (|Q(y)| == 2 ==> Q(y)[0] != Q(y)[1])
    && (forall b: Bid :: PlaceOk(y, b, hole))
    && (y.u.cur.Some? ==> !y.u.ring.awaiting[y.u.cur.value.bid] && hole != Some(y.u.cur.value.bid))
    && FinalIsLast(y.cq)
  }

  /** The filled part of `b` holds the stream from `base[b]`. */
  ghost predicate MemOk(y: Sys, b: Bid)
    requires Shape(y)
  {
    && (0 < Filled(y, b) ==> y.base[b] + Filled(y, b) <= y.fed <= |y.stream|)
    && Filled(y, b) <= y.cap
    && (forall i :: 0 <= i < Filled(y, b) ==> y.mem[b][i] == y.stream[y.base[b] + i])
  }

  ghost predicate Memory(y: Sys)
    requires Shape(y)
  {
    && y.fed <= |y.stream|
    && (if Q(y) == [] then y.koff == 0 else y.koff < y.cap)
    && (Q(y) != [] && y.koff > 0 ==> y.base[Q(y)[0]] + y.koff == y.fed)
    && (forall b: Bid :: MemOk(y, b))
  }

  ghost predicate ChunkOk(y: Sys, c: Cqe)
    requires Shape(y)
  {
    c.Chunk? ==> y.base[c.bid] + c.at == c.pos && c.at + c.len <= Filled(y, c.bid) && 0 < c.len
  }

  ghost predicate OffOk(y: Sys, b: Bid)
    requires Shape(y)
  {
    b in Q(y) ==> OffAfter(y.cq, y.u.ring.recvOff)[b] == Filled(y, b)
  }

  ghost predicate Offsets(y: Sys)
    requires Shape(y)
  {
    && Covers(y.cq, y.popped, y.fed)
    && Synced(y.cq, y.u.ring.recvOff)
    && (forall b: Bid :: OffOk(y, b))
    && (forall i :: 0 <= i < |y.cq| ==> ChunkOk(y, y.cq[i]))
  }

  ghost predicate Window(y: Sys)
    requires Shape(y)
  {
    match y.u.cur
    case None => y.popped <= |y.stream| && y.out == y.stream[..y.popped]
    case Some(c) =>
      && 0 < c.len && c.pos <= c.len
      && c.off + c.len <= Filled(y, c.bid)
      && y.base[c.bid] + c.off + c.len == y.popped <= |y.stream|
      && y.out == y.stream[..y.popped - (c.len - c.pos)]
  }

  ghost predicate Terminal(c: Cqe) {
    !c.Chunk? || !c.more
  }

  ghost predicate Arming(y: Sys) {
    && (forall i :: 0 <= i < |y.cq| && Terminal(y.cq[i]) ==> i == |y.cq| - 1 && !y.armed)
    && (!y.u.op ==> !y.armed && y.cq == [])
    && (y.u.op && !y.armed ==> y.cq != [] && Terminal(y.cq[|y.cq| - 1]))
    && (Eof in y.cq ==> y.fed == |y.stream|)
    && (y.u.mode == Waiting ==> y.u.op && y.u.cur == None)
    && (y.u.mode == Parked || y.u.mode == Closed ==> !y.u.op && y.u.cur == None)
  }

  ghost predicate Parking(y: Sys)
    requires Shape(y)
  {
    && y.u.armedGen <= y.u.ring.gen
    && (NoBufs in y.cq ==> y.u.ring.gen != y.u.armedGen || Q(y) == [])
    && (y.u.mode == Parked ==>
          if y.u.ring.gen == y.u.armedGen then y.u.ring.waker && Q(y) == [] else y.u.ring.woken)
  }

  ghost function PinnedOn(pinned: map<nat, Region>, b: Bid): set<nat> {
    set t | t in pinned && pinned[t].bid == b
  }

  ghost predicate PinOk(y: Sys, b: Bid)
    requires Shape(y)
  {
    && y.u.ring.pending[b] == |PinnedOn(y.pinned, b)|
    && (y.u.ring.awaiting[b] ==> y.u.ring.pending[b] > 0)
  }

  ghost predicate RegionOk(y: Sys, r: Region)
    requires Shape(y)
  {
    && y.base[r.bid] + r.off == r.pos
    && r.off + r.len <= y.cap
    && r.off <= Filled(y, r.bid) && 0 < Filled(y, r.bid)
  }

  ghost predicate Pins(y: Sys)
    requires Shape(y)
  {
    && (forall b: Bid :: PinOk(y, b))
    && (forall t :: t in y.pinned ==> RegionOk(y, y.pinned[t]))
  }

  /** The invariant, with at most one sub-buffer momentarily in no place. */
  ghost predicate InvBut(y: Sys, hole: Option<Bid>) {
    && Shape(y)
    && Places(y, hole)
    && Memory(y)
    && Offsets(y)
    && Window(y)
    && Arming(y)
    && Parking(y)
    && Pins(y)
  }

  ghost predicate Inv(y: Sys) {
    InvBut(y, None)
  }

  ghost predicate Init(y: Sys) {
    && y.cap > 0
    && y.u == Endpoint(RingView([0, 1], [0, 0], [false, false], [0, 0], 2, false, false), None, false, 0, Idle)
    && y.taken == 0 && y.koff == 0 && !y.armed && y.cq == []
    && |y.mem| == 2 && |y.mem[0]| == y.cap && |y.mem[1]| == y.cap && |y.base| == 2
    && y.fed == 0 && y.popped == 0 && y.out == [] && y.pinned == map[]
  }

  lemma InitKeeps(y: Sys)
    requires Init(y)
    ensures Inv(y)
  {
    assert Q(y) == [0, 1];
    assert PinnedOn(y.pinned, 0) == {} && PinnedOn(y.pinned, 1) == {};
  }

  // ----- queue lemmas -----

  lemma {:induction false} SyncedSnoc(cq: seq<Cqe>, off: seq<nat>, c: Cqe)
    requires |off| == 2
    ensures Synced(cq + [c], off) <==>
            Synced(cq, off) && (c.Chunk? ==> c.at == OffAfter(cq, off)[c.bid])
    ensures OffAfter(cq + [c], off) ==
            if c.Chunk? && c.bufMore
            then OffAfter(cq, off)[c.bid := OffAfter(cq, off)[c.bid] + c.len]
            else OffAfter(cq, off)
  {
    if cq == [] {
      assert cq + [c] == [c];
    } else {
      assert (cq + [c])[1..] == cq[1..] + [c];
      var off' := match cq[0]
        case Chunk(b, len, _, bufMore, _, _) => if bufMore then off[b := off[b] + len] else off
        case _ => off;
      SyncedSnoc(cq[1..], off', c);
    }
  }

  lemma {:induction false} CoversSnoc(cq: seq<Cqe>, from: nat, to: nat, c: Cqe)
    requires Covers(cq, from, to)
    requires c.Chunk? ==> c.pos == to && c.len > 0
    ensures Covers(cq + [c], from, if c.Chunk? then to + c.len else to)
  {
    if cq == [] {
      assert cq + [c] == [c];
    } else {
      assert (cq + [c])[1..] == cq[1..] + [c];
      CoversSnoc(cq[1..], match cq[0] case Chunk(_, len, _, _, _, _) => from + len case _ => from, to, c);
    }
  }

  /** An offset no queued completion uses may change freely. */
  lemma {:induction false} SyncedFrame(cq: seq<Cqe>, off: seq<nat>, b: Bid, v: nat)
    requires |off| == 2 && NoChunks(cq, b)
    ensures Synced(cq, off[b := v]) == Synced(cq, off)
    ensures OffAfter(cq, off[b := v]) == OffAfter(cq, off)[b := v]
  {
    if cq != [] {
      assert NoChunks(cq[1..], b);
      assert !IsChunk(cq[0], b);
      match cq[0] {
        case Chunk(d, len, _, bufMore, _, _) =>
          var off' := if bufMore then off[d := off[d] + len] else off;
          SyncedFrame(cq[1..], off', b, v);
          assert off[b := v][d := off[d] + len] == off[d := off[d] + len][b := v];
        case _ => SyncedFrame(cq[1..], off, b, v);
      }
    }
  }

  lemma {:induction false} CoversBound(cq: seq<Cqe>, from: nat, to: nat)
    requires Covers(cq, from, to)
    ensures from <= to
  {
    if cq != [] {
      CoversBound(cq[1..], match cq[0] case Chunk(_, len, _, _, _, _) => from + len case _ => from, to);
    }
  }

  lemma FinalSnoc(cq: seq<Cqe>, c: Cqe, b: Bid)
    ensures FinalQueued(cq + [c], b) <==> FinalQueued(cq, b) || (IsChunk(c, b) && !c.bufMore)
    ensures NoChunks(cq + [c], b) <==> NoChunks(cq, b) && !IsChunk(c, b)
  {
    var cs := cq + [c];
    if FinalQueued(cq, b) {
      var i :| 0 <= i < |cq| && IsChunk(cq[i], b) && !cq[i].bufMore;
      assert cs[i] == cq[i];
    }
    if IsChunk(c, b) && !c.bufMore {
      assert cs[|cq|] == c;
    }
    if NoChunks(cs, b) {
      assert forall i :: 0 <= i < |cq| ==> cq[i] == cs[i];
      assert cs[|cq|] == c;
    }
  }

  // ----- frames: what a step that only fills sub-buffers keeps -----

  /** From `y` to `z` no fill was discarded or moved. */
  ghost predicate Grows(y: Sys, z: Sys)
    requires Shape(y) && Shape(z)
  {
    && z.cap == y.cap && z.stream == y.stream
    && (forall d: Bid :: Filled(y, d) <= Filled(z, d))
    && (forall d: Bid :: Filled(y, d) > 0 ==> z.base[d] == y.base[d])
  }

  lemma PinsGrow(y: Sys, z: Sys)
    requires Shape(y) && Shape(z) && Grows(y, z) && Pins(y)
    requires z.pinned == y.pinned && z.u.ring.pending == y.u.ring.pending && z.u.ring.awaiting == y.u.ring.awaiting
    ensures Pins(z)
  {
    forall d: Bid ensures PinOk(z, d) {
      assert PinOk(y, d);
    }
    forall t | t in z.pinned ensures RegionOk(z, z.pinned[t]) {
      assert RegionOk(y, y.pinned[t]);
    }
  }

  lemma OffsetsSnoc(y: Sys, z: Sys, c: Cqe)
    requires Shape(y) && Shape(z) && Grows(y, z) && Offsets(y)
    requires z.cq == y.cq + [c] && z.u.ring.recvOff == y.u.ring.recvOff && z.popped == y.popped
    requires z.fed == if c.Chunk? then y.fed + c.len else y.fed
    requires c.Chunk? ==> c.pos == y.fed && c.bid in Q(y) && c.at == Filled(y, c.bid) && ChunkOk(z, c)
    requires forall d: Bid :: d in Q(z) ==>
      d in Q(y) && (if IsChunk(c, d) then c.bufMore && Filled(z, d) == Filled(y, d) + c.len else Filled(z, d) == Filled(y, d))
    ensures Offsets(z)
  {
    SyncedSnoc(y.cq, y.u.ring.recvOff, c);
    CoversSnoc(y.cq, y.popped, y.fed, c);
    if c.Chunk? {
      assert OffOk(y, c.bid);
    }
    forall d: Bid ensures OffOk(z, d) {
      assert OffOk(y, d);
    }
    forall i | 0 <= i < |z.cq| ensures ChunkOk(z, z.cq[i]) {
      if i < |y.cq| {
        assert ChunkOk(y, y.cq[i]);
      }
    }
  }

  // ----- kernel steps -----

  lemma KFillPlaces(y: Sys, n: nat, more: bool)
    requires Shape(y) && Places(y, None) && Memory(y) && Enabled(y, KFill(n, more))
    ensures Shape(DoKFill(y, n, more)) && Places(DoKFill(y, n, more), None)
    ensures Q(DoKFill(y, n, more)) == if y.koff + n == y.cap then Q(y)[1..] else Q(y)
  {
    var z := DoKFill(y, n, more);
    var b := Q(y)[0];
    var c := z.cq[|y.cq|];
    assert PlaceOk(y, b, None);
    assert Q(z) == if y.koff + n == y.cap then Q(y)[1..] else Q(y);
    forall d: Bid ensures PlaceOk(z, d, None) {
      assert PlaceOk(y, d, None);
      FinalSnoc(y.cq, c, d);
    }
  }

  lemma KFillGrows(y: Sys, n: nat, more: bool)
    requires Shape(y) && Places(y, None) && Memory(y) && Enabled(y, KFill(n, more))
    ensures var z := DoKFill(y, n, more);
            && Shape(z) && Grows(y, z)
            && (forall d: Bid :: Filled(z, d) == Filled(y, d) + if d == Q(y)[0] then n else 0)
  {
    var z := DoKFill(y, n, more);
    KFillPlaces(y, n, more);
    forall d: Bid ensures Filled(z, d) == Filled(y, d) + if d == Q(y)[0] then n else 0 {
      assert PlaceOk(y, d, None) && PlaceOk(z, d, None);
    }
  }

  /** Splicing the next `n` stream bytes after a filled prefix extends it. */
  lemma SpliceFill(m: seq<byte>, stream: seq<byte>, base: nat, at: nat, n: nat)
    requires at + n <= |m| && base + at + n <= |stream|
    requires forall i :: 0 <= i < at ==> m[i] == stream[base + i]
    ensures var m' := m[..at] + stream[base + at..base + at + n] + m[at + n..];
            |m'| == |m| && forall i :: 0 <= i < at + n ==> m'[i] == stream[base + i]
  {
  }

  lemma KFillMemory(y: Sys, n: nat, more: bool)
    requires Shape(y) && Places(y, None) && Memory(y) && Enabled(y, KFill(n, more))
    ensures Shape(DoKFill(y, n, more)) && Memory(DoKFill(y, n, more))
  {
    var z := DoKFill(y, n, more);
    KFillGrows(y, n, more);
    KFillHere(y, n, more, z);
    forall d: Bid ensures MemOk(z, d) {
      assert MemOk(y, d);
      if d != Q(y)[0] {
        KFillOther(y, n, more, z, d);
      }
    }
  }

  lemma KFillHere(y: Sys, n: nat, more: bool, z: Sys)
    requires Shape(y) && Memory(y) && Enabled(y, KFill(n, more)) && z == DoKFill(y, n, more) && Shape(z)
    requires Filled(z, Q(y)[0]) == Filled(y, Q(y)[0]) + n
    ensures MemOk(z, Q(y)[0])
  {
    var b := Q(y)[0];
    assert MemOk(y, b);
    assert z.base[b] + y.koff == y.fed;
    SpliceFill(y.mem[b], y.stream, z.base[b], y.koff, n);
  }

  lemma KFillOther(y: Sys, n: nat, more: bool, z: Sys, d: Bid)
    requires Shape(y) && Enabled(y, KFill(n, more)) && z == DoKFill(y, n, more) && Shape(z)
    requires d != Q(y)[0] && Filled(z, d) == Filled(y, d) && MemOk(y, d)
    ensures MemOk(z, d)
  {
  }

  lemma KFillOffsets(y: Sys, n: nat, more: bool)
    requires Shape(y) && Places(y, None) && Memory(y) && Offsets(y) && Enabled(y, KFill(n, more))
    ensures Shape(DoKFill(y, n, more)) && Offsets(DoKFill(y, n, more))
  {
    var z := DoKFill(y, n, more);
    KFillPlaces(y, n, more);
    KFillGrows(y, n, more);
    OffsetsSnoc(y, z, z.cq[|y.cq|]);
  }

  lemma KFillKeeps(y: Sys, n: nat, more: bool)
    requires Inv(y) && Enabled(y, KFill(n, more))
    ensures Inv(DoKFill(y, n, more))
  {
    var z := DoKFill(y, n, more);
    KFillPlaces(y, n, more);
    KFillGrows(y, n, more);
    KFillMemory(y, n, more);
    KFillOffsets(y, n, more);
    PinsGrow(y, z);
    assert Window(z);
    assert Parking(z);
  }

  lemma PostKeeps(y: Sys, c: Cqe)
    requires Inv(y) && y.armed && !c.Chunk?
    requires c == NoBufs ==> Q(y) == []
    requires c == Eof ==> y.fed == |y.stream|
    ensures Inv(Post(y, c))
  {
    var z := Post(y, c);
    assert Q(z) == Q(y);
    assert Grows(y, z);
    OffsetsSnoc(y, z, c);
    PinsGrow(y, z);
    assert Places(z, None) by {
      forall b: Bid ensures PlaceOk(z, b, None) {
        assert PlaceOk(y, b, None);
        FinalSnoc(y.cq, c, b);
      }
    }
    assert Memory(z) by {
      forall b: Bid ensures MemOk(z, b) {
        assert MemOk(y, b);
      }
    }
  }

  // ----- a sub-buffer goes back to the kernel -----

  ghost function Give(y: Sys, b: Bid): Sys
    requires Shape(y)
  {
    y.(u := y.u.(ring := y.u.ring.Provide(b)))
  }

  lemma GiveQueue(y: Sys, b: Bid)
    requires Shape(y)
    ensures Shape(Give(y, b)) && Q(Give(y, b)) == Q(y) + [b]
  {
  }

  lemma GivePlace(y: Sys, b: Bid, z: Sys, d: Bid)
    requires Shape(y) && Places(y, Some(b)) && Memory(y) && Shape(z) && z == Give(y, b) && Q(z) == Q(y) + [b]
    ensures PlaceOk(z, d, None) && Filled(z, d) == if d == b then 0 else Filled(y, d)
  {
    assert PlaceOk(y, b, Some(b)) && PlaceOk(y, d, Some(b));
  }

  lemma GivePlaces(y: Sys, b: Bid)
    requires Shape(y) && Places(y, Some(b)) && Memory(y)
    ensures Shape(Give(y, b)) && Places(Give(y, b), None) && Q(Give(y, b)) == Q(y) + [b]
    ensures forall d: Bid :: Filled(Give(y, b), d) == if d == b then 0 else Filled(y, d)
  {
    var z := Give(y, b);
    GiveQueue(y, b);
    assert PlaceOk(y, b, Some(b));
    forall d: Bid
      ensures PlaceOk(z, d, None) && Filled(z, d) == if d == b then 0 else Filled(y, d)
    {
      GivePlace(y, b, z, d);
    }
  }

  lemma GiveOffsets(y: Sys, b: Bid)
    requires Shape(y) && Places(y, Some(b)) && Memory(y) && Offsets(y)
    ensures Shape(Give(y, b)) && Offsets(Give(y, b)) && Memory(Give(y, b))
  {
    var z := Give(y, b);
    GivePlaces(y, b);
    assert PlaceOk(y, b, Some(b));
    SyncedFrame(y.cq, y.u.ring.recvOff, b, 0);
    forall d: Bid ensures OffOk(z, d) && MemOk(z, d) {
      assert OffOk(y, d) && MemOk(y, d);
    }
    forall i | 0 <= i < |z.cq| ensures ChunkOk(z, z.cq[i]) {
      assert ChunkOk(y, y.cq[i]) && !IsChunk(y.cq[i], b);
    }
  }

  lemma GivePins(y: Sys, b: Bid)
    requires Shape(y) && Places(y, Some(b)) && Memory(y) && Pins(y) && y.u.ring.pending[b] == 0
    ensures Shape(Give(y, b)) && Pins(Give(y, b))
  {
    var z := Give(y, b);
    GivePlaces(y, b);
    assert PinOk(y, b);
    forall d: Bid ensures PinOk(z, d) {
      assert PinOk(y, d);
    }
    forall t | t in z.pinned ensures RegionOk(z, z.pinned[t]) {
      assert RegionOk(y, y.pinned[t]);
      assert t in PinnedOn(y.pinned, y.pinned[t].bid);
    }
  }

  lemma GiveKeeps(y: Sys, b: Bid)
    requires InvBut(y, Some(b)) && y.u.ring.pending[b] == 0
    ensures Inv(Give(y, b))
  {
    GivePlaces(y, b);
    GiveOffsets(y, b);
    GivePins(y, b);
  }

  // ----- reader steps -----

  /** The two states agree on everything the kernel fills and where. */
  ghost predicate SameFill(y: Sys, z: Sys) {
    && z.u.ring.log == y.u.ring.log && z.taken == y.taken && z.koff == y.koff
    && z.mem == y.mem && z.base == y.base && z.fed == y.fed && z.stream == y.stream && z.cap == y.cap
    && z.u.ring.Shape()
  }

  lemma MemoryFrame(y: Sys, z: Sys)
    requires Shape(y) && Memory(y) && SameFill(y, z)
    ensures Shape(z) && Q(z) == Q(y) && Memory(z)
    ensures forall d: Bid :: Filled(z, d) == Filled(y, d)
  {
    forall d: Bid ensures MemOk(z, d) {
      assert MemOk(y, d);
    }
  }

  lemma OffsetsFrame(y: Sys, z: Sys)
    requires Shape(y) && Shape(z) && Offsets(y) && SameFill(y, z)
    requires z.cq == y.cq && z.popped == y.popped && z.u.ring.recvOff == y.u.ring.recvOff
    ensures Offsets(z)
  {
    forall d: Bid ensures OffOk(z, d) {
      assert OffOk(y, d);
    }
    forall i | 0 <= i < |z.cq| ensures ChunkOk(z, z.cq[i]) {
      assert ChunkOk(y, y.cq[i]);
    }
  }

  /** Changing only reader bookkeeping keeps everything about memory and offsets. */
  lemma SameRing(y: Sys, z: Sys)
    requires Shape(y) && Memory(y) && Offsets(y) && Pins(y) && SameFill(y, z)
    requires z.u.ring.pending == y.u.ring.pending && z.pinned == y.pinned
    requires z.u.ring.awaiting == y.u.ring.awaiting && z.u.ring.recvOff == y.u.ring.recvOff
    requires z.cq == y.cq && z.popped == y.popped
    ensures Shape(z) && Q(z) == Q(y) && Memory(z) && Offsets(z) && Pins(z)
    ensures forall d: Bid :: Filled(z, d) == Filled(y, d)
  {
    MemoryFrame(y, z);
    OffsetsFrame(y, z);
    PinsGrow(y, z);
  }

  lemma SamePlaces(y: Sys, z: Sys, hole: Option<Bid>)
    requires Shape(y) && Shape(z) && Places(y, hole)
    requires Q(z) == Q(y) && z.cq == y.cq && z.u.ring.awaiting == y.u.ring.awaiting
    requires forall d: Bid :: InHand(z.u, d) == InHand(y.u, d)
    requires z.u.cur.Some? ==> y.u.cur.Some? && z.u.cur.value.bid == y.u.cur.value.bid
    ensures Places(z, hole)
  {
    forall d: Bid ensures PlaceOk(z, d, hole) {
      assert PlaceOk(y, d, hole);
    }
  }

  lemma ArmKeeps(y: Sys)
    requires Inv(y) && y.u.mode == Idle && y.u.cur == None
    ensures Inv(Do(y, Arm(y.u)))
  {
    var z := Do(y, Arm(y.u));
    SameRing(y, z);
    SamePlaces(y, z, None);
  }

  /** The drained chunk leaves the reader's hand: a retired sub-buffer is then in no place. */
  lemma DropCur(y: Sys)
    requires Inv(y) && y.u.cur.Some? && y.u.cur.value.pos == y.u.cur.value.len
    ensures var c := y.u.cur.value;
            InvBut(y.(u := y.u.(cur := None)), if c.bufMore then None else Some(c.bid))
  {
    var c := y.u.cur.value;
    var z := y.(u := y.u.(cur := None));
    var hole := if c.bufMore then None else Some(c.bid);
    SameRing(y, z);
    forall d: Bid ensures PlaceOk(z, d, hole) {
      assert PlaceOk(y, d, None);
    }
  }

  /** A retired sub-buffer with live borrows waits for them. */
  lemma AwaitKeeps(y: Sys, b: Bid)
    requires InvBut(y, Some(b)) && y.u.ring.pending[b] > 0
    ensures Inv(y.(u := y.u.(ring := y.u.ring.(awaiting := y.u.ring.awaiting[b := true]))))
  {
    var z := y.(u := y.u.(ring := y.u.ring.(awaiting := y.u.ring.awaiting[b := true])));
    MemoryFrame(y, z);
    OffsetsFrame(y, z);
    forall d: Bid ensures PlaceOk(z, d, None) && PinOk(z, d) {
      assert PlaceOk(y, d, Some(b)) && PinOk(y, d);
    }
    forall t | t in z.pinned ensures RegionOk(z, z.pinned[t]) {
      assert RegionOk(y, y.pinned[t]);
    }
  }

  /** A drained, retired sub-buffer: returned at once, or once its borrows end. */
  lemma RecvDoneKeeps(y: Sys, b: Bid)
    requires InvBut(y, Some(b))
    ensures Inv(y.(u := y.u.(ring := y.u.ring.RecvDone(b))))
  {
    if y.u.ring.pending[b] == 0 {
      GiveKeeps(y, b);
    } else {
      AwaitKeeps(y, b);
    }
  }

  lemma FillKeeps(y: Sys)
    requires Inv(y) && Enabled(y, Fill)
    ensures Inv(Do(y, BeginFill(y.u)))
  {
    match y.u.cur {
      case None => ArmKeeps(y);
      case Some(c) =>
        if c.pos == c.len {
          DropCur(y);
          var y1 := y.(u := y.u.(cur := None));
          if c.bufMore {
            ArmKeeps(y1);
          } else {
            RecvDoneKeeps(y1, c.bid);
            ArmKeeps(y1.(u := y1.u.(ring := y1.u.ring.RecvDone(c.bid))));
          }
        }
    }
  }

  /** Taking the first completion off a queue. */
  lemma FinalTail(cq: seq<Cqe>, b: Bid)
    requires cq != [] && FinalIsLast(cq)
    ensures FinalIsLast(cq[1..])
    ensures FinalQueued(cq, b) <==> FinalQueued(cq[1..], b) || (IsChunk(cq[0], b) && !cq[0].bufMore)
    ensures IsChunk(cq[0], b) && !cq[0].bufMore ==> NoChunks(cq[1..], b)
    ensures NoChunks(cq, b) ==> NoChunks(cq[1..], b)
  {
    var rest := cq[1..];
    assert forall i :: 0 <= i < |rest| ==> rest[i] == cq[i + 1];
    if FinalQueued(rest, b) {
      var i :| 0 <= i < |rest| && IsChunk(rest[i], b) && !rest[i].bufMore;
      assert cq[i + 1] == rest[i];
    }
    if FinalQueued(cq, b) {
      var i :| 0 <= i < |cq| && IsChunk(cq[i], b) && !cq[i].bufMore;
      if i > 0 {
        assert rest[i - 1] == cq[i];
      }
    }
  }

  lemma PopPlaces(y: Sys)
    requires Inv(y) && Enabled(y, Pop) && y.cq[0].Chunk?
    ensures Shape(DoPop(y)) && Places(DoPop(y), None) && Q(DoPop(y)) == Q(y)
  {
    var z := DoPop(y);
    var c := y.cq[0];
    assert PlaceOk(y, c.bid, None);
    assert IsChunk(y.cq[0], c.bid);
    FinalTail(y.cq, c.bid);
    forall d: Bid ensures PlaceOk(z, d, None) {
      assert PlaceOk(y, d, None);
      FinalTail(y.cq, d);
    }
  }

  lemma PopOffsets(y: Sys)
    requires Shape(y) && Memory(y) && Offsets(y) && Pins(y) && Enabled(y, Pop) && y.cq[0].Chunk?
    ensures Shape(DoPop(y)) && Memory(DoPop(y)) && Offsets(DoPop(y)) && Pins(DoPop(y))
  {
    var z := DoPop(y);
    MemoryFrame(y, z);
    PinsGrow(y, z);
    forall d: Bid ensures OffOk(z, d) {
      assert OffOk(y, d);
    }
    forall i | 0 <= i < |z.cq| ensures ChunkOk(z, z.cq[i]) {
      assert ChunkOk(y, y.cq[i + 1]);
    }
  }

  lemma PopChunkKeeps(y: Sys)
    requires Inv(y) && Enabled(y, Pop) && y.cq[0].Chunk?
    ensures Inv(DoPop(y))
  {
    var z := DoPop(y);
    var c := y.cq[0];
    PopPlaces(y);
    PopOffsets(y);
    assert ChunkOk(y, y.cq[0]) && MemOk(y, c.bid);
    assert Filled(z, c.bid) == Filled(y, c.bid);
    assert Window(z);
    assert Arming(z) by {
      assert forall i :: 0 <= i < |z.cq| ==> z.cq[i] == y.cq[i + 1];
    }
    assert Parking(z);
  }

  /** A terminal completion empties the queue; the reader then owns no armed receive. */
  lemma PopTerminalRest(y: Sys, mode: Mode)
    requires Inv(y) && Enabled(y, Pop) && !y.cq[0].Chunk?
    requires mode == Idle || mode == Closed
    ensures y.cq == [y.cq[0]] && !y.armed
    ensures Inv(y.(cq := [], u := y.u.(op := false, mode := mode)))
  {
    assert Terminal(y.cq[0]);
    assert y.cq == [y.cq[0]];
    var z := y.(cq := [], u := y.u.(op := false, mode := mode));
    assert Synced(y.cq[1..], y.u.ring.recvOff) && Covers(y.cq[1..], y.popped, y.fed);
    forall d: Bid ensures PlaceOk(z, d, None) && MemOk(z, d) && OffOk(z, d) && PinOk(z, d) {
      assert PlaceOk(y, d, None) && MemOk(y, d) && OffOk(y, d) && PinOk(y, d);
      FinalTail(y.cq, d);
      assert !FinalQueued(z.cq, d);
    }
    forall t | t in z.pinned ensures RegionOk(z, z.pinned[t]) {
      assert RegionOk(y, y.pinned[t]);
    }
  }

  lemma ParkKeeps(y: Sys)
    requires Inv(y) && y.u.mode == Idle && !y.u.op && y.u.cur == None
    requires y.u.ring.gen == y.u.armedGen && Q(y) == []
    ensures Inv(y.(u := y.u.(mode := Parked, ring := y.u.ring.(waker := true))))
  {
    var z := y.(u := y.u.(mode := Parked, ring := y.u.ring.(waker := true)));
    SameRing(y, z);
    SamePlaces(y, z, None);
  }

  lemma PopKeeps(y: Sys)
    requires Inv(y) && Enabled(y, Pop)
    ensures Inv(DoPop(y))
  {
    match y.cq[0] {
      case Chunk(_, _, _, _, _, _) => PopChunkKeeps(y);
      case NoBufs =>
        PopTerminalRest(y, Idle);
        var z := y.(cq := [], u := y.u.(op := false, mode := Idle));
        assert y.cq[1..] == [];
        assert NoBufs in y.cq;
        if y.u.ring.gen != y.u.armedGen {
          ArmKeeps(z);
          assert DoPop(y) == Do(z, Arm(z.u));
        } else {
          ParkKeeps(z);
        }
      case Eof =>
        PopTerminalRest(y, Closed);
        assert y.cq[1..] == [];
      case Failed =>
        PopTerminalRest(y, Closed);
        assert y.cq[1..] == [];
    }
  }

  lemma WakeKeeps(y: Sys)
    requires Inv(y) && Enabled(y, Wake)
    ensures Inv(Do(y, Repoll(y.u)))
  {
    var idle := y.(u := y.u.(mode := Idle, ring := y.u.ring.(woken := false)));
    SameRing(y, idle);
    SamePlaces(y, idle, None);
    if y.u.ring.gen != y.u.armedGen {
      ArmKeeps(idle);
      assert Do(y, Repoll(y.u)) == Do(idle, Arm(idle.u));
    } else {
      ParkKeeps(idle);
    }
  }

  lemma PlacedBytes(m: seq<byte>, stream: seq<byte>, base: nat, filled: nat, at: nat, n: nat)
    requires filled <= |m| && base + filled <= |stream| && at + n <= filled
    requires forall i :: 0 <= i < filled ==> m[i] == stream[base + i]
    ensures m[at..at + n] == stream[base + at..base + at + n]
    ensures stream[..base + at] + m[at..at + n] == stream[..base + at + n]
  {
  }

  lemma ConsumeWindow(y: Sys, n: nat, z: Sys)
    requires Shape(y) && Memory(y) && Window(y) && Enabled(y, Consume(n)) && z == DoConsume(y, n) && Shape(z)
    ensures Window(z)
  {
    assert MemOk(y, y.u.cur.value.bid);
    ConsumeOut(y, n);
  }

  /** The bytes consumed are the next of the stream. */
  lemma ConsumeOut(y: Sys, n: nat)
    requires Shape(y) && Window(y) && Enabled(y, Consume(n)) && MemOk(y, y.u.cur.value.bid)
    ensures var c := y.u.cur.value;
            y.popped - (c.len - c.pos) + n <= |y.stream| && DoConsume(y, n).out == y.stream[..y.popped - (c.len - c.pos) + n]
  {
    var c := y.u.cur.value;
    PlacedBytes(y.mem[c.bid], y.stream, y.base[c.bid], Filled(y, c.bid), c.off + c.pos, n);
  }

  lemma ConsumeKeeps(y: Sys, n: nat)
    requires Inv(y) && Enabled(y, Consume(n))
    ensures Inv(DoConsume(y, n))
  {
    var z := DoConsume(y, n);
    SameRing(y, z);
    SamePlaces(y, z, None);
    ConsumeWindow(y, n, z);
  }

  // ----- borrows -----

  lemma PinnedCount(pinned: map<nat, Region>, tag: nat, r: Region, b: Bid)
    requires tag !in pinned
    ensures |PinnedOn(pinned[tag := r], b)| == |PinnedOn(pinned, b)| + N(r.bid == b)
  {
    var more := PinnedOn(pinned[tag := r], b);
    assert more == PinnedOn(pinned, b) + if r.bid == b then {tag} else {};
  }

  lemma UnpinnedCount(pinned: map<nat, Region>, tag: nat, b: Bid)
    requires tag in pinned
    ensures |PinnedOn(pinned, b)| == |PinnedOn(pinned - {tag}, b)| + N(pinned[tag].bid == b)
  {
    var rest := pinned - {tag};
    assert pinned == rest[tag := pinned[tag]];
    PinnedCount(rest, tag, pinned[tag], b);
  }

  /** Only borrow counts and the retained payloads change. */
  lemma SameButPins(y: Sys, z: Sys)
    requires Shape(y) && Places(y, None) && Memory(y) && Offsets(y) && Window(y) && Arming(y) && Parking(y)
    requires |z.u.ring.pending| == 2
    requires z == y.(u := y.u.(ring := y.u.ring.(pending := z.u.ring.pending)), pinned := z.pinned)
    ensures Shape(z) && Places(z, None) && Memory(z) && Offsets(z) && Window(z) && Arming(z) && Parking(z)
    ensures forall d: Bid :: Filled(z, d) == Filled(y, d)
  {
    MemoryFrame(y, z);
    OffsetsFrame(y, z);
    SamePlaces(y, z, None);
  }

  lemma RetainKeeps(y: Sys, tag: nat, k: nat, len: nat)
    requires Inv(y) && Enabled(y, Retain(tag, k, len))
    ensures Inv(DoRetain(y, tag, k, len))
  {
    var z := DoRetain(y, tag, k, len);
    if z != y {
      var r := z.pinned[tag];
      SameButPins(y, z);
      forall d: Bid ensures PinOk(z, d) {
        assert PinOk(y, d);
        PinnedCount(y.pinned, tag, r, d);
      }
      forall t | t in z.pinned ensures RegionOk(z, z.pinned[t]) {
        if t != tag {
          assert RegionOk(y, y.pinned[t]);
        }
      }
    }
  }

  /** The state after the borrow count drops, before any return to the kernel. */
  ghost function Unpin(y: Sys, tag: nat): Sys
    requires Shape(y) && Enabled(y, Release(tag))
  {
    var b := y.pinned[tag].bid;
    y.(u := y.u.(ring := y.u.ring.(pending := y.u.ring.pending[b := y.u.ring.pending[b] - 1])),
       pinned := y.pinned - {tag})
  }

  lemma UnpinPins(y: Sys, tag: nat)
    requires Shape(y) && Pins(y) && Enabled(y, Release(tag))
    ensures var z := Unpin(y, tag);
            && Shape(z)
            && (forall d: Bid :: z.u.ring.pending[d] == |PinnedOn(z.pinned, d)|)
            && (forall t :: t in z.pinned ==> RegionOk(z, z.pinned[t]))
  {
    var z := Unpin(y, tag);
    forall d: Bid ensures z.u.ring.pending[d] == |PinnedOn(z.pinned, d)| {
      assert PinOk(y, d);
      UnpinnedCount(y.pinned, tag, d);
    }
    forall t | t in z.pinned ensures RegionOk(z, z.pinned[t]) {
      assert RegionOk(y, y.pinned[t]);
    }
  }

  ghost function Unawait(z: Sys, b: Bid): Sys
    requires Shape(z)
  {
    z.(u := z.u.(ring := z.u.ring.(awaiting := z.u.ring.awaiting[b := false])))
  }

  lemma ReleaseIs(y: Sys, tag: nat)
    requires Shape(y) && Enabled(y, Release(tag))
    ensures var z := Unpin(y, tag);
            var b := y.pinned[tag].bid;
            DoRelease(y, tag) ==
              if z.u.ring.pending[b] == 0 && y.u.ring.awaiting[b] then Give(Unawait(z, b), b) else z
  {
    var z := Unpin(y, tag);
    var b := y.pinned[tag].bid;
    if z.u.ring.pending[b] == 0 && y.u.ring.awaiting[b] {
      assert DoRelease(y, tag).u.ring == Unawait(z, b).u.ring.Provide(b);
    }
  }

  lemma ReleaseKeeps(y: Sys, tag: nat)
    requires Inv(y) && Enabled(y, Release(tag))
    ensures Inv(DoRelease(y, tag))
  {
    var b := y.pinned[tag].bid;
    var z := Unpin(y, tag);
    SameButPins(y, z);
    UnpinPins(y, tag);
    ReleaseIs(y, tag);
    forall d: Bid ensures d == b || PinOk(z, d) {
      assert PinOk(y, d);
    }
    if z.u.ring.pending[b] == 0 && y.u.ring.awaiting[b] {
      ReturnKeeps(z, b);
    } else {
      assert PinOk(z, b);
    }
  }

  /** The last borrow of an awaited sub-buffer has ended. */
  lemma ReturnKeeps(z: Sys, b: Bid)
    requires Shape(z) && Places(z, None) && Memory(z) && Offsets(z) && Window(z) && Arming(z) && Parking(z)
    requires forall d: Bid :: z.u.ring.pending[d] == |PinnedOn(z.pinned, d)|
    requires forall d: Bid :: d == b || PinOk(z, d)
    requires forall t :: t in z.pinned ==> RegionOk(z, z.pinned[t])
    requires z.u.ring.awaiting[b] && z.u.ring.pending[b] == 0
    ensures Inv(Give(Unawait(z, b), b))
  {
    var w := Unawait(z, b);
    MemoryFrame(z, w);
    OffsetsFrame(z, w);
    assert PlaceOk(z, b, None);
    forall d: Bid ensures PlaceOk(w, d, Some(b)) && PinOk(w, d) {
      assert PlaceOk(z, d, None) && (d == b || PinOk(z, d));
    }
    forall t | t in w.pinned ensures RegionOk(w, w.pinned[t]) {
      assert RegionOk(z, z.pinned[t]);
    }
    GiveKeeps(w, b);
  }

  lemma StepKeeps(y: Sys, s: Step)
    requires Inv(y) && Enabled(y, s)
    ensures Inv(Apply(y, s))
  {
    match s
    case KFill(n, more) => KFillKeeps(y, n, more);
    case KNoBufs => PostKeeps(y, NoBufs);
    case KEof => PostKeeps(y, Eof);
    case KFail => PostKeeps(y, Failed);
    case Fill => FillKeeps(y);
    case Pop => PopKeeps(y);
    case Wake => WakeKeeps(y);
    case Consume(n) => ConsumeKeeps(y, n);
    case Retain(tag, k, len) => RetainKeeps(y, tag, k, len);
    case Release(tag) => ReleaseKeeps(y, tag);
  }

  // ----- whole runs -----

  ghost predicate Run(y: Sys, steps: seq<Step>, z: Sys)
    decreases steps
  {
    if steps == [] then y == z
    else Shape(y) && Enabled(y, steps[0]) && Run(Apply(y, steps[0]), steps[1..], z)
  }

  lemma {:induction false} RunKeeps(y: Sys, steps: seq<Step>, z: Sys)
    requires Inv(y) && Run(y, steps, z)
    ensures Inv(z)
    decreases steps
  {
    if steps != [] {
      StepKeeps(y, steps[0]);
      RunKeeps(Apply(y, steps[0]), steps[1..], z);
    }
  }

  /** The bytes of sub-buffer `b` at `[off, off + len)`. */
  ghost function Bytes(y: Sys, b: Bid, off: nat, len: nat): seq<byte>
    requires Shape(y) && off + len <= y.cap
  {
    y.mem[b][off..off + len]
  }

  /**
    Ring receive is the plain byte stream: whatever the kernel's schedule, the
    consumed bytes are a prefix of the socket's bytes, the window in hand is
    the next stretch of them, the ring's running offset is the kernel's own
    for the next completion, and end-of-stream is seen only after every byte.
   */
  lemma ReceivedIsStream(y: Sys, steps: seq<Step>, z: Sys)
    requires Init(y) && Run(y, steps, z)
    ensures Shape(z) && z.out <= z.stream && WindowIsNext(z)
    ensures z.cq != [] && z.cq[0].Chunk? ==> z.u.ring.recvOff[z.cq[0].bid] == z.cq[0].at
    ensures z.u.mode == Waiting && z.cq != [] && z.cq[0] == Eof ==> z.out == z.stream
  {
    InitKeeps(y);
    RunKeeps(y, steps, z);
    InvWindow(z);
    InvEof(z);
  }

  /** The window in hand holds the stream's next bytes. */
  ghost predicate WindowIsNext(z: Sys)
    requires Shape(z)
  {
    z.u.cur.Some? ==>
      var c := z.u.cur.value;
      var left := c.len - c.pos;
      && 0 <= left && c.off + c.len <= z.cap && |z.out| + left <= |z.stream|
      && Bytes(z, c.bid, c.off + c.pos, left) == z.stream[|z.out|..|z.out| + left]
  }

  lemma InvWindow(z: Sys)
    requires Inv(z)
    ensures WindowIsNext(z)
  {
    if z.u.cur.Some? {
      assert MemOk(z, z.u.cur.value.bid);
    }
  }

  /** A waiting reader that sees the end of the stream has consumed all of it. */
  lemma InvEof(z: Sys)
    requires Inv(z)
    ensures z.u.mode == Waiting && z.cq != [] && z.cq[0] == Eof ==> z.out == z.stream
  {
    if z.u.mode == Waiting && z.cq != [] && z.cq[0] == Eof {
      assert Terminal(z.cq[0]);
      assert Covers(z.cq[1..], z.popped, z.fed);
      assert z.cq[1..] == [];
    }
  }

  /** One step neither drops nor moves a retained payload other than the one it releases. */
  lemma StepPinned(y: Sys, s: Step, tag: nat)
    requires Inv(y) && Enabled(y, s) && tag in y.pinned && s != Release(tag)
    ensures tag in Apply(y, s).pinned && Apply(y, s).pinned[tag] == y.pinned[tag]
    ensures Apply(y, s).fed >= y.fed && Apply(y, s).stream == y.stream
  {
  }

  lemma {:induction false} RunPinned(y: Sys, steps: seq<Step>, z: Sys, tag: nat)
    requires Inv(y) && Run(y, steps, z) && tag in y.pinned && Release(tag) !in steps
    ensures tag in z.pinned && z.pinned[tag] == y.pinned[tag] && z.fed >= y.fed && z.stream == y.stream
    decreases steps
  {
    if steps != [] {
      StepKeeps(y, steps[0]);
      StepPinned(y, steps[0], tag);
      RunPinned(Apply(y, steps[0]), steps[1..], z, tag);
    }
  }

  /** Region `r` holds its stretch of the stream, which is also what the copying path is handed for it. */
  ghost predicate RegionHolds(y: Sys, r: Region) {
    && Shape(y) && 0 <= r.pos && r.pos + r.len <= |y.stream| && r.off + r.len <= y.cap
    && Bytes(y, r.bid, r.off, r.len) == y.stream[r.pos..r.pos + r.len]
    && (r.pos + r.len <= |y.out| ==> Bytes(y, r.bid, r.off, r.len) == y.out[r.pos..r.pos + r.len])
  }

  lemma PrefixSlice(a: seq<byte>, b: seq<byte>, lo: nat, n: nat)
    requires a <= b && lo + n <= |b|
    ensures lo + n <= |a| ==> a[lo..lo + n] == b[lo..lo + n]
  {
  }

  lemma RegionInPlace(y: Sys, r: Region)
    requires Shape(y) && Memory(y) && RegionOk(y, r) && r.pos + r.len <= y.fed
    ensures 0 <= r.pos && r.pos + r.len <= |y.stream| && r.off + r.len <= y.cap
    ensures Bytes(y, r.bid, r.off, r.len) == y.stream[r.pos..r.pos + r.len]
  {
    assert MemOk(y, r.bid);
  }

  /** A retained payload that has fully arrived is in place. */
  lemma PinnedBytes(y: Sys, tag: nat)
    requires Inv(y) && tag in y.pinned && y.pinned[tag].pos + y.pinned[tag].len <= y.fed
    ensures RegionHolds(y, y.pinned[tag])
  {
    var r := y.pinned[tag];
    assert RegionOk(y, r);
    RegionInPlace(y, r);
    OutIsPrefix(y);
    PrefixSlice(y.out, y.stream, r.pos, r.len);
  }

  /** Starting from a state the system can be in, the same holds to the end of any run that does not release it. */
  lemma PinnedStays(m: Sys, after: seq<Step>, z: Sys, tag: nat)
    requires Inv(m) && Run(m, after, z) && tag in m.pinned && Release(tag) !in after
    requires m.pinned[tag].pos + m.pinned[tag].len <= m.fed
    ensures tag in z.pinned && z.pinned[tag] == m.pinned[tag] && RegionHolds(z, m.pinned[tag])
  {
    RunKeeps(m, after, z);
    RunPinned(m, after, z, tag);
    PinnedBytes(z, tag);
  }

  /**
    A payload retained in ring memory: from the moment its last byte arrives
    until its own release, through any steps of the kernel, the reader and
    other borrowers, its region holds exactly the stream's bytes; those are the
    bytes the copying path is handed for the same positions.
   */
  lemma RetainedHolds(y: Sys, before: seq<Step>, m: Sys, after: seq<Step>, z: Sys, tag: nat)
    requires Init(y) && Run(y, before, m) && Run(m, after, z)
    requires tag in m.pinned && Release(tag) !in after
    requires m.pinned[tag].pos + m.pinned[tag].len <= m.fed
    ensures tag in z.pinned && z.pinned[tag] == m.pinned[tag] && RegionHolds(z, m.pinned[tag])
  {
    InitKeeps(y);
    RunKeeps(y, before, m);
    PinnedStays(m, after, z, tag);
  }

  lemma OutIsPrefix(z: Sys)
    requires Inv(z)
    ensures z.out <= z.stream
  {
  }

  /** Sub-buffer `b` is held back from the kernel by live borrows alone. */
  ghost predicate HeldBack(z: Sys, b: Bid)
    requires Shape(z)
  {
    && z.u.ring.awaiting[b] && z.u.ring.pending[b] > 0
    && exists tag :: tag in z.pinned && z.pinned[tag].bid == b
  }

  /** Releasing `tag` is possible and leaves a parked reader with its wake delivered. */
  ghost predicate ReleaseWakes(z: Sys, tag: nat)
    requires Shape(z)
  {
    && Enabled(z, Release(tag))
    && Shape(Apply(z, Release(tag))) && Enabled(Apply(z, Release(tag)), Wake)
  }

  /**
    No lost wakeup. A reader waiting for a completion has a live multishot
    receive or a queued completion. A parked reader either has its wake in
    flight, or its waker is registered and both sub-buffers are held back by
    live borrows alone, so ending the last borrow of either one wakes it.
   */
  lemma ParkedIsWoken(y: Sys, steps: seq<Step>, z: Sys)
    requires Init(y) && Run(y, steps, z)
    ensures Shape(z)
    ensures z.u.mode == Waiting ==> z.armed || z.cq != []
    ensures z.u.mode == Parked && !z.u.ring.woken ==>
      && z.u.ring.waker
      && (forall b: Bid :: HeldBack(z, b))
      && (forall tag :: tag in z.pinned && z.u.ring.pending[z.pinned[tag].bid] == 1 ==> ReleaseWakes(z, tag))
  {
    InitKeeps(y);
    RunKeeps(y, steps, z);
    if z.u.mode == Parked && !z.u.ring.woken {
      forall b: Bid ensures HeldBack(z, b) {
        InvHeldBack(z, b);
      }
      forall tag | tag in z.pinned && z.u.ring.pending[z.pinned[tag].bid] == 1
        ensures ReleaseWakes(z, tag)
      {
        InvReleaseWakes(z, tag);
      }
    }
  }

  lemma InvHeldBack(z: Sys, b: Bid)
    requires Inv(z) && z.u.mode == Parked && !z.u.ring.woken
    ensures HeldBack(z, b)
  {
    assert PlaceOk(z, b, None) && PinOk(z, b);
    assert PinnedOn(z.pinned, b) != {};
    var tag :| tag in PinnedOn(z.pinned, b);
  }

  lemma InvReleaseWakes(z: Sys, tag: nat)
    requires Inv(z) && z.u.mode == Parked && !z.u.ring.woken
    requires tag in z.pinned && z.u.ring.pending[z.pinned[tag].bid] == 1
    ensures ReleaseWakes(z, tag)
  {
    InvHeldBack(z, z.pinned[tag].bid);
    StepKeeps(z, Release(tag));
  }
}
