/**
  The receive path on top of the ring: the ring system hands its bytes to the
  phase machine, which keeps payloads in ring memory whenever they fit. The
  machine sees exactly the socket's bytes, and a command started on a payload
  kept in the ring finds that payload there until its slot lets go of it.
 */
module RecvRing {
  import opened Common
  import opened Digest
  import opened Pdu
  import opened RecvMachine
  import opened RingReceive
  import opened RingSystem
  import HostStream

  /** `held` is, for each started command that reads ring memory, the payload it was started with. */
  datatype Joint = Joint(ring: Sys, rx: St, held: map<nat, seq<byte>>)

  datatype JStep =
    | OfRing(s: Step)
    | NextByte
    | Let(tag: nat)

  // ----- the machine and ring memory -----

  /** Slots backed by ring memory: only the payload now arriving, where it arrives. */
  ghost predicate RingSlot(st: St, t: nat)
    requires t in st.recv
  {
    var slot := st.recv[t];
    slot.store.InRing? ==>
      && !st.phase.Header?
      && (st.phase.Data? ==>
            && st.phase.tag == t && st.phase.retained && st.phase.remaining <= slot.dataLen
            && slot.store.pos + slot.dataLen == |st.seen| + st.phase.remaining
            && (st.phase.kind.H2c? ==> slot.recvOffset == 0 && st.phase.kind.length == slot.dataLen))
      && (st.phase.Ddgst? ==>
            && st.phase.tag == t && slot.store.pos + slot.dataLen + |st.phase.have| == |st.seen|
            && (st.phase.kind.H2c? ==> slot.recvOffset == 0 && st.phase.kind.length == slot.dataLen))
  }

  ghost predicate RingSlots(st: St) {
    && (forall t :: t in st.recv ==> RingSlot(st, t))
    && (st.phase.Data? ==> st.phase.tag in st.recv && st.phase.remaining > 0)
    && (st.phase.Ddgst? ==> st.phase.tag in st.recv && |st.phase.have| < 4)
  }

  /** The byte that led from `st` to `st1` started a payload that stays in the ring. */
  predicate Kept(st: St, st1: St) {
    st1.payloads > st.payloads && st1.phase.Data? && st1.phase.retained
  }

  /** The payload just started may be tried for retention: it is all of its slot's data. */
  predicate Eligible(st: St, st1: St) {
    && st1.payloads > st.payloads && st1.phase.Data? && st1.phase.tag in st1.recv
    && st1.phase.remaining == st1.recv[st1.phase.tag].dataLen
  }

  /** How the slots change: what is newly in the ring, what was claimed. */
  ghost predicate SlotsMove(env: Env, st: St, st1: St) {
    && (forall t :: t in st1.recv && t !in st.recv ==> t == env.tags(st.claims) && st1.claims == st.claims + 1)
    && (forall t :: t in st1.recv && st1.recv[t].store.InRing? ==>
          if Kept(st, st1) && t == st1.phase.tag then st1.recv[t].store.pos == |st1.seen|
          else t in st.recv && st.recv[t].store == st1.recv[t].store && st.recv[t].dataLen == st1.recv[t].dataLen)
    && (forall t :: t in st.recv && t in st1.recv && st.recv[t].store.InRing? ==> st1.recv[t].store.InRing?)
    && (Kept(st, st1) ==>
          && st1.phase.tag in st1.recv && st1.recv[st1.phase.tag].store.InRing? && Eligible(st, st1)
          && (st1.phase.tag in st.recv ==> st.recv[st1.phase.tag].store.Lease?))
  }

  /** At most one event, and a started command has the payload its slot held. */
  ghost predicate EventMoves(env: Env, st: St, st1: St) {
    && st1.claims <= st.claims + 1
    && (st1.events != st.events ==>
          && |st1.events| == |st.events| + 1 && st.events == st1.events[..|st.events|]
          && var e := st1.events[|st.events|];
             (e.Submit? ==>
                && e.tag !in st1.recv
                && (e.tag in st.recv || (e.tag == env.tags(st.claims) && st1.claims == st.claims + 1))
                && (e.tag in st.recv && st.recv[e.tag].store.InRing? ==>
                      var pos := st.recv[e.tag].store.pos;
                      pos + st.recv[e.tag].dataLen <= |st1.seen|
                      && e.payload == st1.seen[pos..pos + st.recv[e.tag].dataLen])))
  }

  ghost predicate Moves(env: Env, st: St, st1: St, b: byte) {
    && RingSlots(st1) && SlotsMove(env, st, st1) && EventMoves(env, st, st1)
    && st1.seen == st.seen + [b] && st.payloads <= st1.payloads
    && (Eligible(st, st1) ==> (st1.phase.retained <==> env.keep(st.payloads)))
  }

  lemma CapsuleMoves(env: Env, st: St, b: byte, sqe: Sqe, dataLen: nat, ddgst: bool)
    requires RingSlots(st) && st.phase.Header?
    ensures Moves(env, st, HandleCapsule(env, st.(seen := st.seen + [b], phase := Header([])), sqe, dataLen, ddgst), b)
  {
    assert forall t :: t in st.recv ==> RingSlot(st, t) && st.recv[t].store.Lease?;
  }

  lemma H2cMoves(env: Env, st: St, b: byte, cid: u16, ttag: nat, offset: nat, length: nat, last: bool,
                 dataLen: nat, ddgst: bool)
    requires RingSlots(st) && st.phase.Header?
    ensures Moves(env, st, HandleH2c(env, st.(seen := st.seen + [b], phase := Header([])),
                                     cid, ttag, offset, length, last, dataLen, ddgst), b)
  {
    assert forall t :: t in st.recv ==> RingSlot(st, t) && st.recv[t].store.Lease?;
  }

  lemma EndMoves(env: Env, st: St, b: byte, phase: Phase)
    requires RingSlots(st) && st.phase.Header? && (phase.Ended? || phase.Header?)
    ensures Moves(env, st, st.(seen := st.seen + [b], phase := phase), b)
  {
    assert forall t :: t in st.recv ==> RingSlot(st, t) && st.recv[t].store.Lease?;
  }

  lemma PduMoves(env: Env, st: St, b: byte, d: Decoded)
    requires RingSlots(st) && st.phase.Header?
    ensures Moves(env, st, HandlePdu(env, st.(seen := st.seen + [b], phase := Header([])), d), b)
  {
    var ddgst := d.ddgst && env.dataDigest;
    match d.kind {
      case CapsuleCmd(sqe) => CapsuleMoves(env, st, b, sqe, d.dataLen, ddgst);
      case H2CData(cid, ttag, offset, length, last) =>
        H2cMoves(env, st, b, cid, ttag, offset, length, last, d.dataLen, ddgst);
      case H2CTerm(fes, fei) => EndMoves(env, st, b, Ended(HostTerm(fes, fei)));
      case _ => EndMoves(env, st, b, Ended(Term(PduError(PDU_SEQ_ERR, 0))));
    }
  }

  lemma HeaderMoves(env: Env, st: St, b: byte)
    requires RingSlots(st) && st.phase.Header?
    ensures Moves(env, st, StepByte(env, st, b), b)
  {
    var g := st.phase.got + [b];
    var st0 := st.(seen := st.seen + [b], phase := Header([]));
    if |g| == 8 && HeaderLen(env.hdrDigest, g).Err? {
      EndMoves(env, st, b, Ended(Term(HeaderLen(env.hdrDigest, g).error)));
    } else if Complete(env.hdrDigest, g) {
      match Take(env.crc, env.hdrDigest, g)
      case Err(e) => EndMoves(env, st, b, Ended(Term(e)));
      case Ok(d) => PduMoves(env, st, b, d);
    } else {
      EndMoves(env, st, b, Header(g));
    }
  }

  /** The last byte before a payload is finished has been taken. */
  ghost predicate Finishing(st: St, st0: St, tag: nat, kind: PayloadKind, b: byte) {
    && tag in st.recv && st0.recv.Keys == st.recv.Keys
    && (forall t :: t in st.recv && t != tag ==> st0.recv[t] == st.recv[t] && st.recv[t].store.Lease?)
    && st0.recv[tag].(store := st.recv[tag].store) == st.recv[tag]
    && (st.recv[tag].store.InRing? ==>
          && st0.recv[tag].store == st.recv[tag].store
          && st.recv[tag].store.pos + st.recv[tag].dataLen <= |st0.seen|
          && (kind.H2c? ==> st.recv[tag].recvOffset == 0 && kind.length == st.recv[tag].dataLen))
    && (st.recv[tag].store.Lease? ==> st0.recv[tag].store.Lease?)
    && st0.seen == st.seen + [b] && st0.events == st.events && st0.claims == st.claims && st0.payloads == st.payloads
  }

  lemma SubmitMoves(env: Env, st: St, st0: St, tag: nat, b: byte)
    requires tag in st.recv && st0.recv.Keys == st.recv.Keys
    requires forall t :: t in st.recv && t != tag ==> st0.recv[t] == st.recv[t] && st.recv[t].store.Lease?
    requires st.recv[tag].store.InRing? ==>
               && st0.recv[tag].store == st.recv[tag].store && st0.recv[tag].dataLen == st.recv[tag].dataLen
               && st.recv[tag].store.pos + st.recv[tag].dataLen <= |st0.seen|
    requires st0.seen == st.seen + [b] && st0.events == st.events && st0.claims == st.claims && st0.payloads == st.payloads
    ensures Moves(env, st, SubmitSlot(st0, tag), b)
  {
  }

  lemma FinishMoves(env: Env, st: St, st0: St, tag: nat, kind: PayloadKind, piece: Piece, b: byte)
    requires Finishing(st, st0, tag, kind, b)
    ensures Moves(env, st, FinishPayload(st0, tag, kind, piece), b)
  {
    if kind.InCapsule? || st0.recv[tag].recvOffset + kind.length == st0.recv[tag].dataLen {
      WholeMoves(env, st, st0, tag, kind, piece, b);
    } else {
      PartMoves(env, st, st0, tag, kind, piece, b);
    }
  }

  lemma WholeMoves(env: Env, st: St, st0: St, tag: nat, kind: PayloadKind, piece: Piece, b: byte)
    requires Finishing(st, st0, tag, kind, b) && (kind.H2c? ==> st0.recv[tag].recvOffset + kind.length == st0.recv[tag].dataLen)
    ensures Moves(env, st, FinishPayload(st0, tag, kind, piece), b)
  {
    var slot := st0.recv[tag];
    var done := if kind.H2c? then slot.dataLen else slot.recvOffset;
    var st1 := st0.(recv := st0.recv[tag := slot.(recvOffset := done, pieces := slot.pieces + [piece])]);
    assert FinishPayload(st0, tag, kind, piece) == SubmitSlot(st1, tag);
    SubmitMoves(env, st, st1, tag, b);
  }

  lemma PartMoves(env: Env, st: St, st0: St, tag: nat, kind: PayloadKind, piece: Piece, b: byte)
    requires Finishing(st, st0, tag, kind, b) && kind.H2c? && st0.recv[tag].recvOffset + kind.length != st0.recv[tag].dataLen
    ensures Moves(env, st, FinishPayload(st0, tag, kind, piece), b)
  {
    var st1 := FinishPayload(st0, tag, kind, piece);
    WaitMoves(env, st, st1, tag, st1.phase, b);
  }

  lemma WaitMoves(env: Env, st: St, st0: St, tag: nat, phase: Phase, b: byte)
    requires tag in st.recv && st0.recv.Keys == st.recv.Keys && (phase.Ended? || phase.Header?)
    requires forall t :: t in st.recv ==> st.recv[t].store.Lease? && st0.recv[t].store.Lease?
    requires st0.seen == st.seen + [b] && st0.events == st.events && st0.claims == st.claims && st0.payloads == st.payloads
    ensures Moves(env, st, st0.(phase := phase), b)
  {
  }

  lemma OthersLease(st: St)
    requires RingSlots(st) && (st.phase.Data? || st.phase.Ddgst?)
    ensures forall t :: t in st.recv && t != st.phase.tag ==> st.recv[t].store.Lease?
  {
    assert forall t :: t in st.recv ==> RingSlot(st, t);
  }

  lemma LandMoves(env: Env, st: St, b: byte)
    requires RingSlots(st) && st.phase.Data?
    ensures var st1 := Land(env, st, [b]);
            && SlotsMove(env, st, st1) && EventMoves(env, st, st1) && st1.seen == st.seen + [b]
            && st1.payloads == st.payloads
            && (forall t :: t in st1.recv ==> RingSlot(st1, t))
  {
    OthersLease(st);
    assert RingSlot(st, st.phase.tag);
  }

  lemma DataMoves(env: Env, st: St, b: byte)
    requires RingSlots(st) && st.phase.Data?
    ensures Moves(env, st, StepByte(env, st, b), b)
  {
    var p := st.phase;
    var st1 := Land(env, st, [b]);
    var piece := PieceOf(st1.recv[p.tag], st1.phase, st1.seen);
    OthersLease(st);
    assert RingSlot(st, p.tag);
    if p.remaining > 1 {
      LandMoves(env, st, b);
    } else if p.ddgst {
      LandMoves(env, st, b);
      assert RingSlot(st1, p.tag);
    } else {
      FinishMoves(env, st, st1, p.tag, p.kind, piece, b);
    }
  }

  lemma DdgstMoves(env: Env, st: St, b: byte)
    requires RingSlots(st) && st.phase.Ddgst?
    ensures Moves(env, st, StepByte(env, st, b), b)
  {
    var p := st.phase;
    var have := p.have + [b];
    var st1 := st.(seen := st.seen + [b], phase := p.(have := have));
    OthersLease(st);
    assert RingSlot(st, p.tag);
    if |have| == 4 && Le32(have, 0) == p.expected {
      FinishMoves(env, st, st1, p.tag, p.kind, p.piece, b);
    }
  }

  lemma ByteMoves(env: Env, st: St, b: byte)
    requires RingSlots(st) && !st.phase.Ended?
    ensures Moves(env, st, StepByte(env, st, b), b)
  {
    match st.phase
    case Header(_) => HeaderMoves(env, st, b);
    case Data(_, _, _, _, _, _, _) => DataMoves(env, st, b);
    case Ddgst(_, _, _, _, _) => DdgstMoves(env, st, b);
  }

  // ----- steps of the whole receive path -----

  ghost function WindowByte(y: Sys): byte
    requires Shape(y) && y.u.cur.Some? && y.u.cur.value.off + y.u.cur.value.pos < y.cap
  {
    y.mem[y.u.cur.value.bid][y.u.cur.value.off + y.u.cur.value.pos]
  }

  /** A payload of `len` bytes starting after the next window byte fits in the sub-buffer. */
  predicate Fits(y: Sys, len: nat) {
    y.u.cur.Some? && y.u.cur.value.off + y.u.cur.value.pos + 1 + len <= y.cap
  }

  /**
    The environment of the phase machine is the ring's: a claimed tag is one
    that holds no ring memory, and a payload is kept exactly when it may be
    and it fits.
   */
  ghost predicate EnvAgrees(env: Env, j: Joint, st1: St) {
    && (st1.claims > j.rx.claims ==> env.tags(j.rx.claims) !in j.ring.pinned)
    && (Eligible(j.rx, st1) ==>
          (env.keep(j.rx.payloads) <==> Fits(j.ring, st1.recv[st1.phase.tag].dataLen)))
  }

  ghost predicate JEnabled(env: Env, j: Joint, s: JStep)
    requires Shape(j.ring)
  {
    match s
    case OfRing(r) => !r.Consume? && !r.Retain? && !r.Release? && Enabled(j.ring, r)
    case NextByte =>
      && !j.rx.phase.Ended? && Enabled(j.ring, Consume(1))
      && j.ring.u.cur.value.off + j.ring.u.cur.value.pos < j.ring.cap
      && EnvAgrees(env, j, StepByte(env, j.rx, WindowByte(j.ring)))
    case Let(tag) => tag !in j.rx.recv && Enabled(j.ring, Release(tag))
  }

  ghost function Held(j: Joint, st1: St): map<nat, seq<byte>> {
    if |st1.events| == |j.rx.events| + 1 && st1.events[|j.rx.events|].Submit?
       && st1.events[|j.rx.events|].tag in j.ring.pinned
    then j.held[st1.events[|j.rx.events|].tag := st1.events[|j.rx.events|].payload]
    else j.held
  }

  /** One window byte is consumed, and a payload that starts after it is borrowed. */
  ghost function TakeByte(y: Sys, keep: Option<(nat, nat)>): Sys
    requires Shape(y) && Enabled(y, Consume(1))
  {
    var y1 := DoConsume(y, 1);
    if keep.Some? && Shape(y1) && Enabled(y1, Retain(keep.value.0, y1.u.cur.value.pos, keep.value.1))
    then DoRetain(y1, keep.value.0, y1.u.cur.value.pos, keep.value.1)
    else y1
  }

  function ToKeep(st: St, st1: St): Option<(nat, nat)> {
    if Kept(st, st1) && st1.phase.tag in st1.recv then Some((st1.phase.tag, st1.recv[st1.phase.tag].dataLen)) else None
  }

  ghost function Advance(j: Joint, st1: St): Joint
    requires Shape(j.ring) && Enabled(j.ring, Consume(1))
  {
    Joint(TakeByte(j.ring, ToKeep(j.rx, st1)), st1, Held(j, st1))
  }

  ghost function JApply(env: Env, j: Joint, s: JStep): Joint
    requires Shape(j.ring) && JEnabled(env, j, s)
  {
    match s
    case OfRing(r) => j.(ring := Apply(j.ring, r))
    case NextByte => Advance(j, StepByte(env, j.rx, WindowByte(j.ring)))
    case Let(tag) => j.(ring := DoRelease(j.ring, tag), held := j.held - {tag})
  }

  // ----- what every step keeps -----

  /** A slot backed by ring memory has borrowed exactly that memory. */
  ghost predicate Borrowed(j: Joint, t: nat)
    requires t in j.rx.recv
  {
    var slot := j.rx.recv[t];
    if slot.store.InRing? then
      t in j.ring.pinned && j.ring.pinned[t].pos == slot.store.pos && j.ring.pinned[t].len == slot.dataLen
    else t !in j.ring.pinned
  }

  ghost predicate HeldIs(j: Joint, t: nat)
    requires t in j.held
  {
    && t !in j.rx.recv && t in j.ring.pinned
    && var r := j.ring.pinned[t];
       && 0 <= r.pos && r.pos + r.len <= |j.ring.out|
       && j.held[t] == j.ring.out[r.pos..r.pos + r.len]
  }

  /** How the ring's borrows and the machine's slots belong together. */
  ghost predicate Linked(j: Joint) {
    && (forall t :: t in j.rx.recv ==> Borrowed(j, t))
    && (forall t :: t in j.held ==> HeldIs(j, t))
    && j.rx.seen == j.ring.out
  }

  ghost predicate JInv(env: Env, j: Joint) {
    Inv(j.ring) && RingSlots(j.rx) && Linked(j) && j.rx == Feed(env, Start, j.ring.out)
  }

  lemma LinksStay(j: Joint, k: Joint)
    requires Linked(j) && k.rx == j.rx && k.ring.out == j.ring.out
    requires forall t :: t in k.held ==> t in j.held && k.held[t] == j.held[t] && t in k.ring.pinned
    requires forall t :: t in k.ring.pinned ==> t in j.ring.pinned && k.ring.pinned[t] == j.ring.pinned[t]
    requires forall t :: t in j.rx.recv && t in j.ring.pinned ==> t in k.ring.pinned
    ensures Linked(k)
  {
    forall t | t in k.rx.recv ensures Borrowed(k, t) {
      assert Borrowed(j, t);
    }
    forall t | t in k.held ensures HeldIs(k, t) {
      assert HeldIs(j, t);
    }
  }

  lemma SameOut(y: Sys, r: Step)
    requires Shape(y) && Enabled(y, r) && !r.Consume? && !r.Retain? && !r.Release?
    ensures Apply(y, r).out == y.out && Apply(y, r).pinned == y.pinned
  {
  }

  /** Steps of the kernel and the reader neither consume bytes nor touch borrows. */
  lemma RingStepKeeps(env: Env, j: Joint, r: Step)
    requires JInv(env, j) && JEnabled(env, j, OfRing(r))
    ensures JInv(env, JApply(env, j, OfRing(r)))
  {
    var k := j.(ring := Apply(j.ring, r));
    SameOut(j.ring, r);
    assert Linked(k) by {
      assert forall t :: t in j.held ==> HeldIs(j, t);
      LinksStay(j, k);
    }
    StepKeeps(j.ring, r);
  }

  lemma LetKeeps(env: Env, j: Joint, tag: nat)
    requires JInv(env, j) && JEnabled(env, j, Let(tag))
    ensures JInv(env, JApply(env, j, Let(tag)))
  {
    var k := j.(ring := DoRelease(j.ring, tag), held := j.held - {tag});
    assert Linked(k) by {
      assert forall t :: t in j.held ==> HeldIs(j, t);
      LinksStay(j, k);
    }
    StepKeeps(j.ring, Release(tag));
  }

  lemma FeedSnoc(env: Env, st: St, bytes: seq<byte>, b: byte)
    ensures Feed(env, st, bytes + [b]) == StepByte(env, Feed(env, st, bytes), b)
  {
    FeedAppend(env, st, bytes, [b]);
    var st1 := Feed(env, st, bytes);
    assert [b][1..] == [];
    assert Feed(env, st1, [b]) == Feed(env, StepByte(env, st1, b), []);
  }

  lemma TakeByteInv(y: Sys, keep: Option<(nat, nat)>)
    requires Inv(y) && Enabled(y, Consume(1))
    ensures Inv(TakeByte(y, keep))
  {
    var y1 := DoConsume(y, 1);
    ConsumeKeeps(y, 1);
    if keep.Some? && Enabled(y1, Retain(keep.value.0, y1.u.cur.value.pos, keep.value.1)) {
      RetainKeeps(y1, keep.value.0, y1.u.cur.value.pos, keep.value.1);
    }
  }

  /** Taking a byte hands it over and borrows exactly the payload to keep. */
  lemma TakeByteIs(y: Sys, keep: Option<(nat, nat)>)
    requires Shape(y) && Window(y) && Enabled(y, Consume(1)) && y.u.cur.value.off + y.u.cur.value.pos < y.cap
    requires keep.Some? ==> keep.value.0 !in y.pinned && Fits(y, keep.value.1)
    ensures var z := TakeByte(y, keep);
            && z.out == y.out + [WindowByte(y)]
            && (keep.None? ==> z.pinned == y.pinned)
            && (keep.Some? ==>
                  && keep.value.0 in z.pinned
                  && z.pinned == y.pinned[keep.value.0 := z.pinned[keep.value.0]]
                  && z.pinned[keep.value.0].pos == |z.out| && z.pinned[keep.value.0].len == keep.value.1)
  {
    var c := y.u.cur.value;
    assert y.mem[c.bid][c.off + c.pos..c.off + c.pos + 1] == [WindowByte(y)];
  }

  /** `k` follows `j` by one byte `b` that took the machine to `k.rx`. */
  ghost predicate Follows(env: Env, j: Joint, k: Joint, b: byte) {
    && Linked(j) && Moves(env, j.rx, k.rx, b)
    && (k.rx.claims > j.rx.claims ==> env.tags(j.rx.claims) !in j.ring.pinned)
    && k.held == Held(j, k.rx) && k.ring.out == j.ring.out + [b]
    && match ToKeep(j.rx, k.rx)
       case None => k.ring.pinned == j.ring.pinned
       case Some(p) =>
         && p.0 !in j.ring.pinned && p.0 in k.ring.pinned
         && k.ring.pinned == j.ring.pinned[p.0 := k.ring.pinned[p.0]]
         && k.ring.pinned[p.0].pos == |k.ring.out| && k.ring.pinned[p.0].len == p.1
  }

  lemma StaysBorrowed(env: Env, j: Joint, k: Joint, b: byte, t: nat)
    requires Follows(env, j, k, b) && t in k.rx.recv
    ensures Borrowed(k, t)
  {
    if t in j.rx.recv {
      assert Borrowed(j, t);
    }
  }

  lemma StaysHeld(env: Env, j: Joint, k: Joint, b: byte, t: nat)
    requires Follows(env, j, k, b) && t in k.held
    ensures HeldIs(k, t)
  {
    if t in j.rx.recv {
      assert Borrowed(j, t);
    }
    if t in j.held {
      assert HeldIs(j, t);
      var r := j.ring.pinned[t];
      assert k.ring.out[r.pos..r.pos + r.len] == j.ring.out[r.pos..r.pos + r.len];
    }
  }

  lemma StaysLinked(env: Env, j: Joint, k: Joint, b: byte)
    requires Follows(env, j, k, b)
    ensures Linked(k)
  {
    forall t | t in k.rx.recv ensures Borrowed(k, t) {
      StaysBorrowed(env, j, k, b, t);
    }
    forall t | t in k.held ensures HeldIs(k, t) {
      StaysHeld(env, j, k, b, t);
    }
  }

  lemma ByteFollows(env: Env, j: Joint, st1: St)
    requires Inv(j.ring) && Linked(j) && Enabled(j.ring, Consume(1))
    requires j.ring.u.cur.value.off + j.ring.u.cur.value.pos < j.ring.cap
    requires Moves(env, j.rx, st1, WindowByte(j.ring)) && EnvAgrees(env, j, st1)
    ensures Inv(Advance(j, st1).ring) && Follows(env, j, Advance(j, st1), WindowByte(j.ring))
  {
    var keep := ToKeep(j.rx, st1);
    if keep.Some? {
      if keep.value.0 in j.rx.recv {
        assert Borrowed(j, keep.value.0);
      }
    }
    TakeByteIs(j.ring, keep);
    TakeByteInv(j.ring, keep);
  }

  lemma ByteKeeps(env: Env, j: Joint)
    requires JInv(env, j) && JEnabled(env, j, NextByte)
    ensures JInv(env, JApply(env, j, NextByte))
  {
    var b := WindowByte(j.ring);
    var st1 := StepByte(env, j.rx, b);
    ByteMoves(env, j.rx, b);
    ByteFollows(env, j, st1);
    StaysLinked(env, j, Advance(j, st1), b);
    FeedSnoc(env, Start, j.ring.out, b);
  }

  // ----- whole runs -----

  ghost predicate JInit(j: Joint) {
    Init(j.ring) && j.rx == Start && j.held == map[]
  }

  ghost predicate JRun(env: Env, j: Joint, steps: seq<JStep>, k: Joint)
    decreases steps
  {
    if steps == [] then j == k
    else Shape(j.ring) && JEnabled(env, j, steps[0]) && JRun(env, JApply(env, j, steps[0]), steps[1..], k)
  }

  lemma {:induction false} JRunKeeps(env: Env, j: Joint, steps: seq<JStep>, k: Joint)
    requires JInv(env, j) && JRun(env, j, steps, k)
    ensures JInv(env, k)
    decreases steps
  {
    if steps != [] {
      match steps[0] {
        case OfRing(r) => RingStepKeeps(env, j, r);
        case NextByte => ByteKeeps(env, j);
        case Let(tag) => LetKeeps(env, j, tag);
      }
      JRunKeeps(env, JApply(env, j, steps[0]), steps[1..], k);
    }
  }

  /** The payload command `t` was started with is still in the ring memory it was left in. */
  ghost predicate HeldThere(k: Joint, t: nat)
    requires Shape(k.ring) && t in k.held
  {
    && t in k.ring.pinned
    && var r := k.ring.pinned[t];
       r.off + r.len <= k.ring.cap && Bytes(k.ring, r.bid, r.off, r.len) == k.held[t]
  }

  /**
    Receive over the ring, end to end: after any schedule the phase machine
    has done exactly what the socket's bytes, taken plainly in order, make it
    do; and every started command whose payload was kept in ring memory still
    finds there the payload it was started with.
   */
  lemma RingServesStream(env: Env, j: Joint, steps: seq<JStep>, k: Joint)
    requires JInit(j) && JRun(env, j, steps, k)
    ensures Shape(k.ring) && k.ring.out <= k.ring.stream && k.rx == Feed(env, Start, k.ring.out)
    ensures forall t :: t in k.held ==> HeldThere(k, t)
  {
    JInitKeeps(env, j);
    JRunKeeps(env, j, steps, k);
    OutIsPrefix(k.ring);
    forall t | t in k.held ensures HeldThere(k, t) {
      HeldStays(env, k, t);
    }
  }

  lemma HeldStays(env: Env, k: Joint, t: nat)
    requires JInv(env, k) && t in k.held
    ensures HeldThere(k, t)
  {
    assert HeldIs(k, t);
    HeldBytes(k.ring, t);
  }

  lemma JInitKeeps(env: Env, j: Joint)
    requires JInit(j)
    ensures JInv(env, j)
  {
    InitKeeps(j.ring);
    assert Feed(env, Start, []) == Start;
  }

  lemma HeldBytes(y: Sys, t: nat)
    requires Inv(y) && t in y.pinned && 0 <= y.pinned[t].pos && y.pinned[t].pos + y.pinned[t].len <= |y.out|
    ensures var r := y.pinned[t];
            r.off + r.len <= y.cap && Bytes(y, r.bid, r.off, r.len) == y.out[r.pos..r.pos + r.len]
  {
    OutIsPrefix(y);
    CoversBound(y.cq, y.popped, y.fed);
    PinnedBytes(y, t);
  }

  /** Any host served over the ring: once its bytes are consumed, the outcome is the one its PDUs call for. */
  lemma RingServesHost(env: Env, j: Joint, steps: seq<JStep>, k: Joint, pdus: seq<HostStream.HostPdu>)
    requires Composes(env.crc) && HostStream.AllEncodable(env, pdus)
    requires JInit(j) && JRun(env, j, steps, k) && k.ring.out <= HostStream.Wire(env, pdus)
    requires k.ring.out == HostStream.Wire(env, pdus) || k.rx.phase.Ended?
    ensures HostStream.Served(k.rx.phase, k.rx.events, HostStream.AfterAll(env, HostStream.Fresh, pdus))
  {
    RingServesStream(env, j, steps, k);
    HostStream.StreamIsServed(env, k.ring.out, pdus);
  }

  /**
    A payload that starts and is all of its slot's data is left in ring memory,
    and its sub-buffer borrowed, exactly if it fits in what is left of that
    sub-buffer.
   */
  lemma StaysInPlaceIff(env: Env, j: Joint, steps: seq<JStep>, k: Joint)
    requires JInit(j) && JRun(env, j, steps, k) && Shape(k.ring) && JEnabled(env, k, NextByte)
    requires Eligible(k.rx, StepByte(env, k.rx, WindowByte(k.ring)))
    ensures var m := JApply(env, k, NextByte);
            var tag := m.rx.phase.tag;
            && (m.rx.recv[tag].store.InRing? <==> Fits(k.ring, m.rx.recv[tag].dataLen))
            && (tag in m.ring.pinned <==> Fits(k.ring, m.rx.recv[tag].dataLen))
  {
    JInitKeeps(env, j);
    JRunKeeps(env, j, steps, k);
    ByteMoves(env, k.rx, WindowByte(k.ring));
    ByteKeeps(env, k);
    PlaceIff(env, k, JApply(env, k, NextByte), WindowByte(k.ring));
  }

  lemma PlaceIff(env: Env, k: Joint, m: Joint, b: byte)
    requires Moves(env, k.rx, m.rx, b) && EnvAgrees(env, k, m.rx) && Eligible(k.rx, m.rx) && Linked(m)
    ensures var tag := m.rx.phase.tag;
            && (m.rx.recv[tag].store.InRing? <==> Fits(k.ring, m.rx.recv[tag].dataLen))
            && (tag in m.ring.pinned <==> Fits(k.ring, m.rx.recv[tag].dataLen))
  {
    assert Borrowed(m, m.rx.phase.tag);
    assert RingSlot(m.rx, m.rx.phase.tag);
  }
}
