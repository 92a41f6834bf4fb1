/**
  What the receive path keeps against arbitrary input, well formed or not:
  which slots are being received, where payload bytes may be written, and what
  a submitted command carries.
 */
module RecvSafety {
  import opened Common
  import opened Digest
  import opened Pdu
  import opened RecvMachine
  import opened RecvFraming

  // ----- payload bytes and the stretches of the stream they were -----

  /** The four bytes after the piece are its digest. */
  predicate Digested(crc: Crc, seen: seq<byte>, p: Piece) {
    && p.pos + p.len + 4 <= |seen|
    && Le32(seen, p.pos + p.len) == crc(0, seen[p.pos..p.pos + p.len])
  }

  /** Whether a PDU of the stream announces a payload: its first byte, its length, and whether a digest follows. */
  type Tells = (seq<byte>, nat, nat, bool) -> bool

  ghost function TellsOf(env: Env): Tells {
    (seen: seq<byte>, start: nat, len: nat, dd: bool) => Told(env, seen, start, len, dd)
  }

  /** A PDU of the stream announced this piece, and its digest, if it announced one, checks. */
  ghost predicate PieceOk(crc: Crc, told: Tells, seen: seq<byte>, p: Piece) {
    && 0 < p.len && p.pos + p.len <= |seen| && told(seen, p.pos, p.len, p.dd)
    && (p.dd ==> Digested(crc, seen, p))
  }

  /**
    `bytes` is the concatenation of the pieces, which lie in the stream one
    after the other, without overlap and before `limit`, each the payload of a
    PDU of the stream and verified if that PDU carries a digest.
   */
  ghost predicate Backed(crc: Crc, told: Tells, seen: seq<byte>, pieces: seq<Piece>, limit: int, bytes: seq<byte>) {
    if pieces == [] then bytes == []
    else
      var p := pieces[|pieces| - 1];
      var at := |bytes| - p.len;
      && PieceOk(crc, told, seen, p) && p.pos + p.len <= limit
      && 0 <= at && bytes[at..] == seen[p.pos..p.pos + p.len]
      && Backed(crc, told, seen, pieces[..|pieces| - 1], p.pos, bytes[..at])
  }

  /** What the stream said stays said as it grows. */
  ghost predicate Stays(told: Tells) {
    forall seen, more, s, n, d {:trigger told(seen, s, n, d), told(seen + more, s, n, d)} ::
      told(seen, s, n, d) ==> told(seen + more, s, n, d)
  }

  lemma PieceGrows(crc: Crc, told: Tells, seen: seq<byte>, more: seq<byte>, p: Piece)
    requires PieceOk(crc, told, seen, p) && Stays(told)
    ensures PieceOk(crc, told, seen + more, p)
    ensures (seen + more)[p.pos..p.pos + p.len] == seen[p.pos..p.pos + p.len]
  {
    assert (seen + more)[p.pos..p.pos + p.len] == seen[p.pos..p.pos + p.len];
    assert told(seen + more, p.pos, p.len, p.dd);
    if p.dd {
      assert Le32(seen + more, p.pos + p.len) == Le32(seen, p.pos + p.len);
    }
  }

  lemma {:induction false} BackedGrows(crc: Crc, told: Tells, seen: seq<byte>, more: seq<byte>, pieces: seq<Piece>,
                                       limit: int, limit': int, bytes: seq<byte>)
    requires Backed(crc, told, seen, pieces, limit, bytes) && limit <= limit' && Stays(told)
    ensures Backed(crc, told, seen + more, pieces, limit', bytes)
    decreases |pieces|
  {
    if pieces != [] {
      var p := pieces[|pieces| - 1];
      PieceGrows(crc, told, seen, more, p);
      BackedGrows(crc, told, seen, more, pieces[..|pieces| - 1], p.pos, p.pos, bytes[..|bytes| - p.len]);
    }
  }

  lemma BackedSnoc(crc: Crc, told: Tells, seen: seq<byte>, pieces: seq<Piece>, p: Piece, bytes: seq<byte>, limit: int)
    requires Backed(crc, told, seen, pieces, p.pos, bytes) && PieceOk(crc, told, seen, p) && p.pos + p.len <= limit
    ensures Backed(crc, told, seen, pieces + [p], limit, bytes + seen[p.pos..p.pos + p.len])
  {
    var all := bytes + seen[p.pos..p.pos + p.len];
    assert (pieces + [p])[..|pieces|] == pieces;
    assert all[..|bytes|] == bytes && all[|bytes|..] == seen[p.pos..p.pos + p.len];
  }

  lemma {:induction false} BackedLen(crc: Crc, told: Tells, seen: seq<byte>, pieces: seq<Piece>, limit: int, bytes: seq<byte>)
    requires Backed(crc, told, seen, pieces, limit, bytes) && bytes == []
    ensures pieces == []
  {
  }

  // ----- the invariant, for any digest and any notion of backing with these laws -----

  datatype Laws = Laws(
    crc: Crc,
    told: Tells,
    bound: (seq<byte>, nat) -> bool,
    backed: (seq<byte>, seq<Piece>, int, seq<byte>) -> bool)
  {
    ghost predicate Good(seen: seq<byte>, p: Piece) {
      PieceOk(crc, told, seen, p)
    }
  }

  ghost function LawsOf(env: Env): Laws {
    Laws(env.crc,
         TellsOf(env),
         (seen: seq<byte>, at: nat) => Bound(env, seen, at),
         (seen, pieces, limit, bytes) => Backed(env.crc, TellsOf(env), seen, pieces, limit, bytes))
  }

  ghost predicate Hold(k: Laws) {
    && Composes(k.crc) && Stays(k.told) && FramingHolds(k)
    && (forall seen, more, ps, lim, lim', bs {:trigger k.backed(seen, ps, lim, bs), k.backed(seen + more, ps, lim', bs)} ::
          k.backed(seen, ps, lim, bs) && lim <= lim' ==> k.backed(seen + more, ps, lim', bs))
    && (forall seen, lim :: k.backed(seen, [], lim, []))
    && (forall seen, ps, lim :: k.backed(seen, ps, lim, []) ==> ps == [])
    && (forall seen, ps, p, lim, bs :: SnocLaw(k, seen, ps, p, lim, bs))
  }

  /** PDU starts stay where they are, and a PDU ends where the next one starts. */
  ghost predicate FramingHolds(k: Laws) {
    && (forall seen, more, at {:trigger k.bound(seen, at), k.bound(seen + more, at)} ::
          k.bound(seen, at) ==> k.bound(seen + more, at))
    && (forall seen, s: nat, n: nat, d {:trigger k.told(seen, s, n, d)} ::
          k.told(seen, s, n, d) && s + n + Trailer(d) <= |seen| ==> k.bound(seen, s + n + Trailer(d)))
  }

  ghost predicate SnocLaw(k: Laws, seen: seq<byte>, ps: seq<Piece>, p: Piece, lim: int, bs: seq<byte>) {
    k.backed(seen, ps, p.pos, bs) && k.Good(seen, p) && p.pos + p.len <= lim && p.pos + p.len <= |seen| ==>
      k.backed(seen, ps + [p], lim, bs + seen[p.pos..p.pos + p.len])
  }

  lemma FramingIs(env: Env)
    ensures Stays(TellsOf(env)) && FramingHolds(LawsOf(env))
  {
    forall seen: seq<byte>, more: seq<byte>, s: nat, n: nat, d | Told(env, seen, s, n, d)
      ensures Told(env, seen + more, s, n, d)
    {
      ToldGrows(env, seen, more, s, n, d);
    }
    forall seen: seq<byte>, more: seq<byte>, at: nat | Bound(env, seen, at) ensures Bound(env, seen + more, at) {
      BoundGrows(env, seen, more, at);
    }
  }

  lemma BackingIs(crc: Crc, told: Tells)
    requires Stays(told)
    ensures forall seen: seq<byte>, more: seq<byte>, ps, lim, lim', bs
        {:trigger Backed(crc, told, seen, ps, lim, bs), Backed(crc, told, seen + more, ps, lim', bs)} ::
      Backed(crc, told, seen, ps, lim, bs) && lim <= lim' ==> Backed(crc, told, seen + more, ps, lim', bs)
    ensures forall seen, ps, lim :: Backed(crc, told, seen, ps, lim, []) ==> ps == []
  {
    forall seen: seq<byte>, more: seq<byte>, ps, lim, lim', bs | Backed(crc, told, seen, ps, lim, bs) && lim <= lim'
      ensures Backed(crc, told, seen + more, ps, lim', bs)
    {
      BackedGrows(crc, told, seen, more, ps, lim, lim', bs);
    }
    forall seen, ps, lim | Backed(crc, told, seen, ps, lim, []) ensures ps == [] {
      BackedLen(crc, told, seen, ps, lim, []);
    }
  }

  lemma LawsHold(env: Env)
    requires Composes(env.crc)
    ensures Hold(LawsOf(env))
  {
    var k := LawsOf(env);
    FramingIs(env);
    BackingIs(env.crc, TellsOf(env));
    forall seen, ps, p, lim, bs ensures SnocLaw(k, seen, ps, p, lim, bs) {
      if Backed(env.crc, k.told, seen, ps, p.pos, bs) && k.Good(seen, p) && p.pos + p.len <= lim {
        BackedSnoc(env.crc, k.told, seen, ps, p, bs, lim);
      }
    }
  }

  /** A solicited transfer between PDUs: the first `recvOffset` bytes are in, the rest missing. */
  ghost predicate SlotIdle(k: Laws, seen: seq<byte>, s: RSlot) {
    && s.recvOffset < s.dataLen <= MDTS
    && s.store.Lease? && s.dataLen <= |s.store.bytes|
    && k.backed(seen, s.pieces, |seen|, s.store.bytes[..s.recvOffset])
  }

  /** The transfer this PDU belongs to, and how far it may reach. */
  ghost predicate KindOk(s: RSlot, base: nat, kind: PayloadKind) {
    && 0 < Total(s, kind) && s.dataLen <= MDTS && base == s.recvOffset
    && match kind
       case InCapsule => base == 0
       case H2c(_, length) => base + length <= s.dataLen
  }

  /** `n` bytes of this PDU's payload, the stream's from `pos`, are in the slot after its earlier pieces. */
  ghost predicate Holds(k: Laws, seen: seq<byte>, s: RSlot, kind: PayloadKind, pos: nat, n: nat) {
    && pos + n <= |seen| && n <= Total(s, kind)
    && match s.store
       case InRing(at) => at == pos && s.pieces == [] && s.recvOffset == 0 && Total(s, kind) == s.dataLen
       case Lease(b) =>
         && s.recvOffset + Total(s, kind) <= |b| && s.dataLen <= |b|
         && k.backed(seen, s.pieces, pos, b[..s.recvOffset])
         && b[s.recvOffset..s.recvOffset + n] == seen[pos..pos + n]
  }

  ghost function Done(s: RSlot, p: Phase): int
    requires p.Data?
  {
    Total(s, p.kind) - p.remaining
  }

  /** A payload of which all but `remaining` bytes have arrived, as the last bytes seen. */
  ghost predicate SlotFilling(k: Laws, seen: seq<byte>, s: RSlot, p: Phase)
    requires p.Data?
  {
    && KindOk(s, p.base, p.kind)
    && 0 <= Done(s, p) <= |seen|
    && p.retained == s.store.InRing?
    && Holds(k, seen, s, p.kind, |seen| - Done(s, p), Done(s, p))
    && (p.ddgst ==> p.sum == k.crc(0, seen[|seen| - Done(s, p)..]))
    && k.told(seen, |seen| - Done(s, p), Total(s, p.kind), p.ddgst)
  }

  /** This PDU's whole payload is in the slot. */
  ghost predicate SlotFilled(k: Laws, seen: seq<byte>, s: RSlot, kind: PayloadKind, piece: Piece) {
    && KindOk(s, s.recvOffset, kind)
    && piece.len == Total(s, kind)
    && Holds(k, seen, s, kind, piece.pos, piece.len)
  }

  ghost predicate SlotDigesting(k: Laws, seen: seq<byte>, s: RSlot, ph: Phase)
    requires ph.Ddgst?
  {
    var end := ph.piece.pos + ph.piece.len;
    && SlotFilled(k, seen, s, ph.kind, ph.piece)
    && |ph.have| < 4 && end + |ph.have| == |seen| && seen[end..] == ph.have
    && ph.expected == k.crc(0, seen[ph.piece.pos..end])
    && ph.piece.dd && k.told(seen, ph.piece.pos, ph.piece.len, true)
  }

  /** A submitted command carries exactly `dataLen` bytes: checked, in order, nothing else. */
  ghost predicate EventOk(k: Laws, seen: seq<byte>, e: Event) {
    e.Submit? ==> |e.payload| == e.dataLen <= MDTS && k.backed(seen, e.pieces, |seen|, e.payload)
  }

  ghost function Track(m: map<nat, nat>, e: Event): map<nat, nat> {
    if e.Solicit? then m[e.tag := e.length] else m - {e.tag}
  }

  /** The R2Ts not yet answered in full: tag and length. */
  ghost function Solicited(events: seq<Event>): map<nat, nat> {
    if events == [] then map[] else Track(Solicited(events[..|events| - 1]), events[|events| - 1])
  }

  ghost function Lengths(recv: map<nat, RSlot>): map<nat, nat> {
    map t | t in recv :: recv[t].dataLen
  }

  ghost predicate OthersIdle(k: Laws, seen: seq<byte>, recv: map<nat, RSlot>, tag: Option<nat>) {
    forall t :: t in recv && Some(t) != tag ==> SlotIdle(k, seen, recv[t])
  }

  ghost predicate EventsOk(k: Laws, seen: seq<byte>, events: seq<Event>) {
    forall i :: 0 <= i < |events| ==> EventOk(k, seen, events[i])
  }

  /** Everything but the slot `tag` is as between PDUs. */
  ghost predicate AroundOk(k: Laws, st: St, tag: nat, kind: PayloadKind) {
    && EventsOk(k, st.seen, st.events)
    && tag in st.recv
    && Solicited(st.events) == (if kind.InCapsule? then Lengths(st.recv - {tag}) else Lengths(st.recv))
    && OthersIdle(k, st.seen, st.recv, Some(tag))
  }

  /** No payload is arriving. */
  ghost predicate Between(k: Laws, st: St) {
    && EventsOk(k, st.seen, st.events)
    && OthersIdle(k, st.seen, st.recv, None) && Solicited(st.events) == Lengths(st.recv)
  }

  /** The header bytes collected are the last ones seen, and began at the start of a PDU. */
  ghost predicate Collecting(k: Laws, seen: seq<byte>, got: seq<byte>) {
    |got| <= |seen| && got == seen[|seen| - |got|..] && k.bound(seen, |seen| - |got|)
  }

  ghost predicate RecvInv(k: Laws, st: St) {
    match st.phase
    case Ended(_) => EventsOk(k, st.seen, st.events)
    case Header(got) => Between(k, st) && Collecting(k, st.seen, got)
    case Data(tag, _, remaining, _, _, kind, _) =>
      remaining > 0 && AroundOk(k, st, tag, kind) && SlotFilling(k, st.seen, st.recv[tag], st.phase)
    case Ddgst(tag, _, _, kind, _) =>
      AroundOk(k, st, tag, kind) && SlotDigesting(k, st.seen, st.recv[tag], st.phase)
  }

  // ----- growth of the stream -----

  lemma StreamGrows(k: Laws, seen: seq<byte>, more: seq<byte>, recv: map<nat, RSlot>, tag: Option<nat>, events: seq<Event>)
    requires Hold(k) && OthersIdle(k, seen, recv, tag) && EventsOk(k, seen, events)
    ensures OthersIdle(k, seen + more, recv, tag) && EventsOk(k, seen + more, events)
  {
    forall t | t in recv && Some(t) != tag ensures SlotIdle(k, seen + more, recv[t]) {
      assert SlotIdle(k, seen, recv[t]);
    }
    forall i | 0 <= i < |events| ensures EventOk(k, seen + more, events[i]) {
      assert EventOk(k, seen, events[i]);
    }
  }

  lemma HoldsGrows(k: Laws, seen: seq<byte>, more: seq<byte>, s: RSlot, kind: PayloadKind, pos: nat, n: nat)
    requires Hold(k) && Holds(k, seen, s, kind, pos, n)
    ensures Holds(k, seen + more, s, kind, pos, n)
    ensures (seen + more)[pos..pos + n] == seen[pos..pos + n]
  {
  }

  /** Changing the slot `tag`, but not its length, leaves everything around it. */
  lemma AroundSlot(k: Laws, st: St, tag: nat, kind: PayloadKind, s: RSlot)
    requires AroundOk(k, st, tag, kind) && s.dataLen == st.recv[tag].dataLen
    ensures AroundOk(k, st.(recv := st.recv[tag := s]), tag, kind)
  {
    var recv := st.recv[tag := s];
    assert Lengths(recv) == Lengths(st.recv) && Lengths(recv - {tag}) == Lengths(st.recv - {tag});
  }

  lemma SolicitedSnoc(events: seq<Event>, e: Event)
    ensures Solicited(events + [e]) == Track(Solicited(events), e)
  {
    assert (events + [e])[..|events|] == events;
  }

  // ----- payload bytes -----

  lemma WriteExtends(b: seq<byte>, base: nat, at: nat, chunk: seq<byte>)
    requires base <= at && at + |chunk| <= |b|
    ensures var w := b[..at] + chunk + b[at + |chunk|..];
            |w| == |b| && w[..base] == b[..base] && w[base..at + |chunk|] == b[base..at] + chunk
  {
  }

  /** `chunk` arrives after the last `n` bytes seen. */
  lemma HoldsMore(k: Laws, seen: seq<byte>, s: RSlot, kind: PayloadKind, n: nat, chunk: seq<byte>)
    requires Hold(k) && n <= |seen| && Holds(k, seen, s, kind, |seen| - n, n) && n + |chunk| <= Total(s, kind)
    ensures var s' := if s.store.InRing? then s else s.(store := Write(s.store, s.recvOffset + n, chunk));
            Holds(k, seen + chunk, s', kind, |seen| - n, n + |chunk|)
  {
    HoldsGrows(k, seen, chunk, s, kind, |seen| - n, n);
    if s.store.Lease? {
      WriteExtends(s.store.bytes, s.recvOffset, s.recvOffset + n, chunk);
      assert (seen + chunk)[|seen| - n..] == seen[|seen| - n..] + chunk;
    }
  }

  lemma SumGrows(crc: Crc, seen: seq<byte>, n: nat, chunk: seq<byte>)
    requires Composes(crc) && n <= |seen|
    ensures crc(crc(0, seen[|seen| - n..]), chunk) == crc(0, (seen + chunk)[|seen| - n..])
  {
    assert (seen + chunk)[|seen| - n..] == seen[|seen| - n..] + chunk;
  }

  lemma SlotLands(k: Laws, seen: seq<byte>, s: RSlot, p: Phase, chunk: seq<byte>)
    requires Hold(k) && p.Data? && |chunk| <= p.remaining && SlotFilling(k, seen, s, p)
    ensures SlotFilling(k, seen + chunk, LandSlot(s, p, chunk), LandPhase(k.crc, p, chunk))
  {
    var s1, p1 := LandSlot(s, p, chunk), LandPhase(k.crc, p, chunk);
    assert |seen + chunk| - Done(s1, p1) == |seen| - Done(s, p) && Total(s1, p1.kind) == Total(s, p.kind);
    LandsHolds(k, seen, s, p, chunk);
    SumGrows(k.crc, seen, Done(s, p), chunk);
    assert k.told(seen + chunk, |seen| - Done(s, p), Total(s, p.kind), p.ddgst);
  }

  lemma LandsHolds(k: Laws, seen: seq<byte>, s: RSlot, p: Phase, chunk: seq<byte>)
    requires Hold(k) && p.Data? && |chunk| <= p.remaining && SlotFilling(k, seen, s, p)
    ensures Holds(k, seen + chunk, LandSlot(s, p, chunk), p.kind, |seen| - Done(s, p), Done(s, p) + |chunk|)
  {
    HoldsMore(k, seen, s, p.kind, Done(s, p), chunk);
  }

  /** The pieces of a slot whose transfer is complete are exactly its payload. */
  lemma FilledPayload(k: Laws, seen: seq<byte>, s: RSlot, kind: PayloadKind, piece: Piece)
    requires Hold(k) && SlotFilled(k, seen, s, kind, piece) && k.Good(seen, piece)
    requires s.recvOffset + piece.len == s.dataLen
    ensures var s' := s.(recvOffset := s.dataLen, pieces := s.pieces + [piece]);
            |Payload(s', seen)| == s.dataLen && k.backed(seen, s'.pieces, |seen|, Payload(s', seen))
  {
    match s.store
    case InRing(at) =>
      assert k.backed(seen, [], piece.pos, []) && SnocLaw(k, seen, [], piece, |seen|, []);
      assert [] + seen[piece.pos..piece.pos + piece.len] == seen[piece.pos..piece.pos + piece.len];
    case Lease(b) =>
      assert SnocLaw(k, seen, s.pieces, piece, |seen|, b[..s.recvOffset]);
      assert b[..s.dataLen] == b[..s.recvOffset] + seen[piece.pos..piece.pos + piece.len];
  }

  lemma PartialIdle(k: Laws, seen: seq<byte>, s: RSlot, kind: PayloadKind, piece: Piece)
    requires Hold(k) && SlotFilled(k, seen, s, kind, piece) && k.Good(seen, piece)
    requires kind.H2c? && s.recvOffset + piece.len != s.dataLen
    ensures SlotIdle(k, seen, s.(recvOffset := s.recvOffset + piece.len, pieces := s.pieces + [piece]))
  {
    var b := s.store.bytes;
    assert SnocLaw(k, seen, s.pieces, piece, |seen|, b[..s.recvOffset]);
    assert b[..s.recvOffset + piece.len] == b[..s.recvOffset] + seen[piece.pos..piece.pos + piece.len];
  }

  lemma SubmitSafe(k: Laws, st: St, tag: nat, kind: PayloadKind)
    requires AroundOk(k, st, tag, kind) && k.bound(st.seen, |st.seen|)
    requires var s := st.recv[tag];
             |Payload(s, st.seen)| == s.dataLen <= MDTS && k.backed(st.seen, s.pieces, |st.seen|, Payload(s, st.seen))
    ensures RecvInv(k, SubmitSlot(st, tag))
  {
    var st1 := SubmitSlot(st, tag);
    SolicitedSnoc(st.events, st1.events[|st.events|]);
    assert Lengths(st.recv) - {tag} == Lengths(st.recv - {tag});
    assert Lengths(st.recv - {tag}) - {tag} == Lengths(st.recv - {tag});
  }

  /** The slot waits for its next PDU, or a premature end terminates the connection. */
  lemma WaitSafe(k: Laws, st: St, tag: nat, kind: PayloadKind)
    requires AroundOk(k, st, tag, kind) && kind.H2c? && SlotIdle(k, st.seen, st.recv[tag]) && k.bound(st.seen, |st.seen|)
    ensures RecvInv(k, st.(phase := Header([])))
    ensures RecvInv(k, TermWith(st, DATA_OUT_OF_RANGE, 0))
  {
  }

  /** The slot of a payload with `piece` added. */
  ghost function WithPiece(s: RSlot, kind: PayloadKind, piece: Piece): RSlot {
    if kind.H2c? then s.(recvOffset := s.recvOffset + kind.length, pieces := s.pieces + [piece])
    else s.(pieces := s.pieces + [piece])
  }

  lemma FinishIs(st: St, tag: nat, kind: PayloadKind, piece: Piece)
    requires tag in st.recv
    ensures var s1 := WithPiece(st.recv[tag], kind, piece);
            var st1 := st.(recv := st.recv[tag := s1]);
            FinishPayload(st, tag, kind, piece) ==
              if kind.InCapsule? || s1.recvOffset == s1.dataLen then SubmitSlot(st1, tag)
              else if kind.last then TermWith(st1, DATA_OUT_OF_RANGE, 0)
              else st1.(phase := Header([]))
  {
  }

  lemma FinishLastSafe(k: Laws, st: St, tag: nat, kind: PayloadKind, piece: Piece)
    requires Hold(k) && AroundOk(k, st, tag, kind) && k.bound(st.seen, |st.seen|)
    requires SlotFilled(k, st.seen, st.recv[tag], kind, piece) && k.Good(st.seen, piece)
    requires st.recv[tag].recvOffset + piece.len == st.recv[tag].dataLen
    ensures RecvInv(k, SubmitSlot(st.(recv := st.recv[tag := WithPiece(st.recv[tag], kind, piece)]), tag))
  {
    var s1 := WithPiece(st.recv[tag], kind, piece);
    FilledPayload(k, st.seen, st.recv[tag], kind, piece);
    AroundSlot(k, st, tag, kind, s1);
    SubmitSafe(k, st.(recv := st.recv[tag := s1]), tag, kind);
  }

  lemma FinishPartSafe(k: Laws, st: St, tag: nat, kind: PayloadKind, piece: Piece)
    requires Hold(k) && AroundOk(k, st, tag, kind) && k.bound(st.seen, |st.seen|)
    requires SlotFilled(k, st.seen, st.recv[tag], kind, piece) && k.Good(st.seen, piece)
    requires kind.H2c? && st.recv[tag].recvOffset + piece.len != st.recv[tag].dataLen
    ensures var st1 := st.(recv := st.recv[tag := WithPiece(st.recv[tag], kind, piece)]);
            RecvInv(k, st1.(phase := Header([]))) && RecvInv(k, TermWith(st1, DATA_OUT_OF_RANGE, 0))
  {
    var s1 := WithPiece(st.recv[tag], kind, piece);
    PartialIdle(k, st.seen, st.recv[tag], kind, piece);
    AroundSlot(k, st, tag, kind, s1);
    WaitSafe(k, st.(recv := st.recv[tag := s1]), tag, kind);
  }

  lemma FinishSafe(k: Laws, st: St, tag: nat, kind: PayloadKind, piece: Piece)
    requires Hold(k) && AroundOk(k, st, tag, kind) && k.bound(st.seen, |st.seen|)
    requires SlotFilled(k, st.seen, st.recv[tag], kind, piece) && k.Good(st.seen, piece)
    ensures RecvInv(k, FinishPayload(st, tag, kind, piece))
  {
    FinishIs(st, tag, kind, piece);
    if st.recv[tag].recvOffset + piece.len == st.recv[tag].dataLen {
      FinishLastSafe(k, st, tag, kind, piece);
    } else {
      FinishPartSafe(k, st, tag, kind, piece);
    }
  }

  lemma SettleSafe(k: Laws, st: St)
    requires Hold(k) && st.phase.Data? && AroundOk(k, st, st.phase.tag, st.phase.kind)
    requires SlotFilling(k, st.seen, st.recv[st.phase.tag], st.phase)
    ensures RecvInv(k, Settle(st))
  {
    var p := st.phase;
    if p.remaining == 0 {
      SettledPiece(k, st);
      if !p.ddgst {
        FinishSafe(k, st, p.tag, p.kind, PieceOf(st.recv[p.tag], p, st.seen));
      }
    }
  }

  /** The payload is all in. */
  lemma SettledPiece(k: Laws, st: St)
    requires Hold(k) && st.phase.Data? && st.phase.tag in st.recv && st.phase.remaining == 0
    requires SlotFilling(k, st.seen, st.recv[st.phase.tag], st.phase)
    ensures var p := st.phase;
            var piece := PieceOf(st.recv[p.tag], p, st.seen);
            && SlotFilled(k, st.seen, st.recv[p.tag], p.kind, piece) && piece.pos + piece.len == |st.seen| && piece.dd == p.ddgst
            && k.told(st.seen, piece.pos, piece.len, p.ddgst)
            && (if p.ddgst then SlotDigesting(k, st.seen, st.recv[p.tag], Ddgst(p.tag, p.sum, [], p.kind, piece))
                else k.Good(st.seen, piece) && k.bound(st.seen, |st.seen|))
  {
    var p := st.phase;
    var s := st.recv[p.tag];
    var piece := PieceOf(s, p, st.seen);
    assert Done(s, p) == piece.len && |st.seen| - Done(s, p) == piece.pos;
    assert k.told(st.seen, piece.pos, piece.len, p.ddgst);
    assert st.seen[piece.pos + piece.len..] == [] && st.seen[piece.pos..] == st.seen[piece.pos..piece.pos + piece.len];
    assert !p.ddgst ==> k.bound(st.seen, piece.pos + piece.len + Trailer(false));
  }

  lemma DataSafe(env: Env, k: Laws, st: St, chunk: seq<byte>)
    requires Hold(k) && k.crc == env.crc
    requires RecvInv(k, st) && st.phase.Data? && |chunk| <= st.phase.remaining
    ensures RecvInv(k, AdvanceData(env, st, chunk))
  {
    var p := st.phase;
    var st1 := Land(env, st, chunk);
    SlotLands(k, st.seen, st.recv[p.tag], p, chunk);
    StreamGrows(k, st.seen, chunk, st.recv, Some(p.tag), st.events);
    AroundSlot(k, st.(seen := st1.seen), p.tag, p.kind, st1.recv[p.tag]);
    SettleSafe(k, st1);
  }

  // ----- digest bytes -----

  /** The digest bytes, all in, are the four bytes after the payload. */
  lemma DigestVerifies(k: Laws, seen: seq<byte>, p: Piece, have: seq<byte>)
    requires |have| == 4 && 0 < p.len && p.pos + p.len + 4 == |seen| && seen[p.pos + p.len..] == have
    requires Le32(have, 0) == k.crc(0, seen[p.pos..p.pos + p.len]) && p.dd && k.told(seen, p.pos, p.len, true)
    ensures k.Good(seen, p)
  {
    assert forall i :: 0 <= i < 4 ==> seen[p.pos + p.len + i] == have[i];
  }

  /** The digest has arrived: the payload is finished, or its command fails. */
  lemma DigestSafe(k: Laws, st: St, tag: nat, kind: PayloadKind, p: Piece, expected: u32, have: seq<byte>)
    requires Hold(k) && AroundOk(k, st, tag, kind) && SlotFilled(k, st.seen, st.recv[tag], kind, p)
    requires |have| == 4 && p.pos + p.len + 4 == |st.seen| && st.seen[p.pos + p.len..] == have
    requires expected == k.crc(0, st.seen[p.pos..p.pos + p.len]) && p.dd && k.told(st.seen, p.pos, p.len, true)
    ensures Le32(have, 0) == expected ==> RecvInv(k, FinishPayload(st, tag, kind, p))
    ensures RecvInv(k, st.(phase := Header([]), recv := st.recv - {tag},
                           events := st.events + [Fail(tag, Cid(st.recv[tag].cmd))]))
  {
    assert k.bound(st.seen, p.pos + p.len + Trailer(true));
    if Le32(have, 0) == expected {
      DigestVerifies(k, st.seen, p, have);
      FinishSafe(k, st, tag, kind, p);
    }
    FailSafe(k, st, tag, kind);
  }

  lemma DdgstSafe(k: Laws, st: St, chunk: seq<byte>)
    requires Hold(k)
    requires RecvInv(k, st) && st.phase.Ddgst? && |st.phase.have| + |chunk| <= 4
    ensures RecvInv(k, AdvanceDdgst(st, chunk))
  {
    var ph := st.phase;
    var have := ph.have + chunk;
    var st1 := st.(seen := st.seen + chunk, phase := ph.(have := have));
    DigestGrows(k, st, chunk, st1);
    if |have| == 4 {
      DigestSafe(k, st1, ph.tag, ph.kind, ph.piece, ph.expected, have);
    }
  }

  lemma DigestGrows(k: Laws, st: St, chunk: seq<byte>, st1: St)
    requires Hold(k) && RecvInv(k, st) && st.phase.Ddgst?
    requires st1 == st.(seen := st.seen + chunk, phase := st.phase.(have := st.phase.have + chunk))
    ensures AroundOk(k, st1, st.phase.tag, st.phase.kind)
    ensures var p := st.phase.piece;
            && SlotFilled(k, st1.seen, st1.recv[st.phase.tag], st.phase.kind, p)
            && p.pos + p.len + |st1.phase.have| == |st1.seen| && st1.seen[p.pos + p.len..] == st1.phase.have
            && st1.seen[p.pos..p.pos + p.len] == st.seen[p.pos..p.pos + p.len]
            && p.dd && k.told(st1.seen, p.pos, p.len, true)
  {
    var ph := st.phase;
    var p := ph.piece;
    StreamGrows(k, st.seen, chunk, st.recv, Some(ph.tag), st.events);
    HoldsGrows(k, st.seen, chunk, st.recv[ph.tag], ph.kind, p.pos, p.len);
    assert k.told(st.seen + chunk, p.pos, p.len, true);
  }

  /** A digest mismatch fails the command and forgets the slot. */
  lemma FailSafe(k: Laws, st: St, tag: nat, kind: PayloadKind)
    requires AroundOk(k, st, tag, kind) && k.bound(st.seen, |st.seen|)
    ensures RecvInv(k, st.(phase := Header([]), recv := st.recv - {tag},
                           events := st.events + [Fail(tag, Cid(st.recv[tag].cmd))]))
  {
    SolicitedSnoc(st.events, Fail(tag, Cid(st.recv[tag].cmd)));
    assert Lengths(st.recv) - {tag} == Lengths(st.recv - {tag});
    assert Lengths(st.recv - {tag}) - {tag} == Lengths(st.recv - {tag});
  }

  // ----- headers -----

  lemma LeaseCovers(env: Env, st: St, len: nat)
    ensures len <= |FreshLease(env, st, len).bytes|
  {
  }

  /** A payload about to arrive. */
  lemma StartsFilling(k: Laws, seen: seq<byte>, s: RSlot, p: Phase)
    requires Hold(k) && p.Data? && p.sum == 0 && p.remaining == Total(s, p.kind) && KindOk(s, p.base, p.kind)
    requires if p.retained
             then s.store == InRing(|seen|) && s.pieces == [] && s.recvOffset == 0 && Total(s, p.kind) == s.dataLen
             else s.store.Lease? && s.dataLen <= |s.store.bytes| && k.backed(seen, s.pieces, |seen|, s.store.bytes[..s.recvOffset])
    requires k.told(seen, |seen|, Total(s, p.kind), p.ddgst)
    ensures SlotFilling(k, seen, s, p)
  {
    assert seen[|seen|..] == [] && k.crc(0, []) == 0;
  }

  lemma InCapsuleSafe(env: Env, k: Laws, st: St, sqe: Sqe, dataLen: nat, ddgst: bool)
    requires Hold(k) && Between(k, st) && st.phase.Header? && 0 < dataLen <= MDTS && k.told(st.seen, |st.seen|, dataLen, ddgst)
    ensures RecvInv(k, HandleCapsule(env, st, sqe, dataLen, ddgst))
  {
    var st1 := HandleCapsule(env, st, sqe, dataLen, ddgst);
    if st1.phase.Data? {
      var tag := st1.phase.tag;
      LeaseCovers(env, st, dataLen);
      assert st1.recv - {tag} == st.recv;
      var s := st1.recv[tag];
      assert s.store.Lease? ==> s.store.bytes[..0] == [];
      assert k.backed(st.seen, [], |st.seen|, []);
      StartsFilling(k, st.seen, s, st1.phase);
    }
  }

  /** A command whose data is still to be solicited: it gets a lease and an R2T. */
  lemma SolicitSafe(env: Env, k: Laws, st: St, sqe: Sqe, ddgst: bool)
    requires Hold(k) && Between(k, st) && st.phase.Header? && NeedsR2t(sqe) && SglLength(sqe) <= MDTS
    requires k.bound(st.seen, |st.seen|)
    requires env.tags(st.claims) !in st.recv && env.tags(st.claims) < env.nslots
    ensures RecvInv(k, HandleCapsule(env, st, sqe, 0, ddgst))
  {
    var tag := env.tags(st.claims);
    var st1 := HandleCapsule(env, st, sqe, 0, ddgst);
    assert k.backed(st.seen, [], |st.seen|, []);
    LeaseCovers(env, st, SglLength(sqe));
    SolicitedSnoc(st.events, st1.events[|st.events|]);
    assert st1.recv[tag].store.bytes[..0] == [];
    assert Lengths(st1.recv) == Lengths(st.recv)[tag := SglLength(sqe)];
  }

  /** A command without host data starts at once. */
  lemma PlainSafe(env: Env, k: Laws, st: St, sqe: Sqe, ddgst: bool)
    requires Hold(k) && Between(k, st) && st.phase.Header? && !NeedsR2t(sqe) && k.bound(st.seen, |st.seen|)
    requires env.tags(st.claims) !in st.recv && env.tags(st.claims) < env.nslots
    ensures RecvInv(k, HandleCapsule(env, st, sqe, 0, ddgst))
  {
    var tag := env.tags(st.claims);
    var st1 := HandleCapsule(env, st, sqe, 0, ddgst);
    assert k.backed(st.seen, [], |st.seen|, []);
    SolicitedSnoc(st.events, st1.events[|st.events|]);
    assert Lengths(st.recv) - {tag} == Lengths(st.recv);
  }

  lemma CapsuleSafe(env: Env, k: Laws, st: St, sqe: Sqe, dataLen: nat, ddgst: bool)
    requires Hold(k) && Between(k, st) && st.phase.Header?
    requires k.told(st.seen, |st.seen|, dataLen, ddgst) && (ddgst ==> dataLen > 0)
    ensures RecvInv(k, HandleCapsule(env, st, sqe, dataLen, ddgst))
  {
    assert dataLen == 0 ==> k.bound(st.seen, |st.seen| + 0 + Trailer(false));
    var tag := env.tags(st.claims);
    if 0 < dataLen <= MDTS {
      InCapsuleSafe(env, k, st, sqe, dataLen, ddgst);
    } else if tag !in st.recv && tag < env.nslots && dataLen == 0 {
      if NeedsR2t(sqe) && SglLength(sqe) <= MDTS {
        SolicitSafe(env, k, st, sqe, ddgst);
      } else if !NeedsR2t(sqe) {
        PlainSafe(env, k, st, sqe, ddgst);
      }
    }
  }

  lemma H2cSafe(env: Env, k: Laws, st: St, cid: u16, ttag: nat, offset: nat, length: nat, last: bool,
                dataLen: nat, ddgst: bool)
    requires Hold(k) && Between(k, st) && st.phase.Header? && k.told(st.seen, |st.seen|, dataLen, ddgst)
    ensures RecvInv(k, HandleH2c(env, st, cid, ttag, offset, length, last, dataLen, ddgst))
  {
    var st1 := HandleH2c(env, st, cid, ttag, offset, length, last, dataLen, ddgst);
    if st1.phase.Data? {
      var s := st.recv[ttag];
      assert SlotIdle(k, st.seen, s);
      assert s.store.bytes[..0] == [];
      assert Lengths(st1.recv) == Lengths(st.recv);
      StartsFilling(k, st.seen, st1.recv[ttag], st1.phase);
    }
  }

  lemma PduSafe(env: Env, k: Laws, st: St, d: Decoded)
    requires Hold(k) && Between(k, st) && st.phase.Header?
    requires k.told(st.seen, |st.seen|, d.dataLen, d.ddgst && env.dataDigest) && (d.ddgst ==> d.dataLen > 0)
    ensures RecvInv(k, HandlePdu(env, st, d))
  {
    var ddgst := d.ddgst && env.dataDigest;
    match d.kind
    case CapsuleCmd(sqe) => CapsuleSafe(env, k, st, sqe, d.dataLen, ddgst);
    case H2CData(cid, ttag, offset, length, last) =>
      H2cSafe(env, k, st, cid, ttag, offset, length, last, d.dataLen, ddgst);
    case _ =>
  }

  /** A complete header announces what follows it. */
  lemma HeaderTells(env: Env, seen: seq<byte>, g: seq<byte>, d: Decoded)
    requires Collecting(LawsOf(env), seen, g) && Complete(env.hdrDigest, g) && Take(env.crc, env.hdrDigest, g) == Ok(d)
    ensures LawsOf(env).told(seen, |seen|, d.dataLen, d.ddgst && env.dataDigest) && (d.ddgst ==> d.dataLen > 0)
  {
    DigestNeedsPayload(env, g);
    CompleteTells(env, seen, |seen| - |g|, d);
  }

  lemma HeaderSafe(env: Env, st: St, g: seq<byte>)
    requires Hold(LawsOf(env)) && Between(LawsOf(env), st) && st.phase.Header? && Collecting(LawsOf(env), st.seen, g)
    ensures RecvInv(LawsOf(env), AfterHeader(env, st, g))
  {
    if Complete(env.hdrDigest, g) && Take(env.crc, env.hdrDigest, g).Ok? {
      HeaderTells(env, st.seen, g, Take(env.crc, env.hdrDigest, g).value);
      PduSafe(env, LawsOf(env), st, Take(env.crc, env.hdrDigest, g).value);
    }
  }

  // ----- whole streams -----

  lemma StepSafe(env: Env, st: St, b: byte)
    requires Composes(env.crc) && RecvInv(LawsOf(env), st)
    ensures RecvInv(LawsOf(env), StepByte(env, st, b))
  {
    LawsHold(env);
    match st.phase
    case Ended(_) =>
    case Header(got) =>
      StreamGrows(LawsOf(env), st.seen, [b], st.recv, None, st.events);
      assert (st.seen + [b])[|st.seen| - |got|..] == got + [b];
      HeaderSafe(env, st.(seen := st.seen + [b], phase := Header([])), got + [b]);
    case Data(_, _, _, _, _, _, _) => DataSafe(env, LawsOf(env), st, [b]);
    case Ddgst(_, _, _, _, _) => DdgstSafe(LawsOf(env), st, [b]);
  }

  lemma {:induction false} FeedSafe(env: Env, st: St, bytes: seq<byte>)
    requires Composes(env.crc) && RecvInv(LawsOf(env), st)
    ensures RecvInv(LawsOf(env), Feed(env, st, bytes))
    decreases |bytes|
  {
    if bytes != [] {
      StepSafe(env, st, bytes[0]);
      FeedSafe(env, StepByte(env, st, bytes[0]), bytes[1..]);
    }
  }

  /**
    Against any byte stream, malformed or not, with any tags, leases and ring
    memory: between PDUs the slots in reception are exactly the unanswered
    R2Ts, each short of its length, which is at most MDTS; while a payload
    arrives its next byte lands inside the lease; and every submitted command
    carries exactly `dataLen` payload bytes, the concatenation of disjoint
    stretches of the stream in order. Each stretch is the payload of a PDU,
    found by reading the stream itself as PDUs from its first byte, and if that
    PDU's header says so and digests were negotiated, the four bytes behind it
    are its correct digest.
   */
  lemma AnyStreamIsSafe(env: Env, bytes: seq<byte>)
    requires Composes(env.crc)
    ensures var st := Feed(env, Start, bytes);
            && (st.phase.Header? ==>
                  && Solicited(st.events) == Lengths(st.recv)
                  && forall t :: t in st.recv ==> st.recv[t].recvOffset < st.recv[t].dataLen <= MDTS)
            && (st.phase.Data? ==>
                  && st.phase.tag in st.recv
                  && var s := st.recv[st.phase.tag];
                     s.store.Lease? ==> 0 <= st.phase.base + Done(s, st.phase) < |s.store.bytes|)
            && (forall i :: 0 <= i < |st.events| && st.events[i].Submit? ==>
                  var e := st.events[i];
                  |e.payload| == e.dataLen <= MDTS && Backed(env.crc, TellsOf(env), st.seen, e.pieces, |st.seen|, e.payload))
  {
    var st := Feed(env, Start, bytes);
    var k := LawsOf(env);
    assert RecvInv(k, Start);
    FeedSafe(env, Start, bytes);
    assert forall i :: 0 <= i < |st.events| ==> EventOk(k, st.seen, st.events[i]);
    if st.phase.Header? {
      assert forall t :: t in st.recv ==> SlotIdle(k, st.seen, st.recv[t]);
    }
  }
}
