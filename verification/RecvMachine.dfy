/**
  The NVMe/TCP receive path as a machine over single bytes: header assembly,
  payload reassembly into command slots and data-digest verification. It is
  the reference the window-at-a-time code is proved against.
 */
module RecvMachine {
  import opened Common
  import opened Digest
  import opened Pdu

  /** The largest transfer of one command: 128 KiB. */
  const MDTS: nat := 0x2_0000
  const PAGE: nat := 4096

  const TRANSPORT_DATA_BLOCK: byte := 0x5A

  function Cid(sqe: Sqe): u16 {
    Le16(sqe, 2)
  }

  function SglLength(sqe: Sqe): u32 {
    Le32(sqe, 32)
  }

  /** Host-to-controller data the host kept resident: it must be solicited. */
  predicate NeedsR2t(sqe: Sqe) {
    sqe[0] % 4 == 1 && sqe[39] == TRANSPORT_DATA_BLOCK && SglLength(sqe) > 0
  }

  /**
    What the receive loop meets but does not decide: the negotiated digests,
    the tag each command is given, whether a payload can be kept in ring memory
    and the bytes a fresh lease happens to hold.
   */
  datatype Env = Env(
    crc: Crc,
    hdrDigest: bool,
    dataDigest: bool,
    nslots: nat,
    tags: nat -> nat,
    keep: nat -> bool,
    stale: (nat, nat) -> byte)

  /** A slot's data buffer: leased memory, or the ring memory the payload lands in. */
  datatype Store = Lease(bytes: seq<byte>) | InRing(pos: nat)

  /** `len` payload bytes that were the stream's from `pos`; `dd` if a digest had to follow. */
  datatype Piece = Piece(pos: nat, len: nat, dd: bool)

  datatype RSlot = RSlot(cmd: Sqe, dataLen: nat, recvOffset: nat, store: Store, pieces: seq<Piece>)

  datatype PayloadKind = InCapsule | H2c(last: bool, length: nat)

  datatype End = Term(error: PduError) | HostTerm(fes: u16, fei: u32) | NoTag

  datatype Phase =
    | Header(got: seq<byte>)
    | Data(tag: nat, base: nat, remaining: nat, sum: u32, ddgst: bool, kind: PayloadKind, retained: bool)
    | Ddgst(tag: nat, expected: u32, have: seq<byte>, kind: PayloadKind, piece: Piece)
    | Ended(end: End)

  /** What leaves the receive path: commands for execution, R2Ts, failed commands. */
  datatype Event =
    | Submit(tag: nat, cmd: Sqe, dataLen: nat, payload: seq<byte>, pieces: seq<Piece>)
    | Solicit(tag: nat, cid: u16, length: nat)
    | Fail(tag: nat, cid: u16)

  /** `recv` are the slots in state Receiving; `seen` every byte processed. */
  datatype St = St(
    phase: Phase,
    recv: map<nat, RSlot>,
    seen: seq<byte>,
    events: seq<Event>,
    claims: nat,
    payloads: nat)

  const Start: St := St(Header([]), map[], [], [], 0, 0)

  // ----- handlers -----

  function LeaseLen(len: nat): nat {
    (len + PAGE - 1) / PAGE * PAGE
  }

  /** A lease is the fewest whole pages that hold the data. */
  lemma LeaseIsFewest(len: nat)
    ensures LeaseLen(len) % 4096 == 0 && len <= LeaseLen(len) < len + 4096
  {
    var k := (len + 4095) / 4096;
    assert LeaseLen(len) == k * 4096;
    assert k * 4096 % 4096 == 0;
  }

  function StaleLease(env: Env, claim: nat, len: nat): Store {
    Lease(seq<byte>(LeaseLen(len), i requires 0 <= i => env.stale(claim, i)))
  }

  function FreshLease(env: Env, st: St, len: nat): Store {
    StaleLease(env, st.claims, len)
  }

  /** The bytes the slot task will find in the slot. */
  function Payload(slot: RSlot, seen: seq<byte>): seq<byte> {
    match slot.store
    case Lease(b) => if slot.dataLen <= |b| then b[..slot.dataLen] else []
    case InRing(pos) => if pos + slot.dataLen <= |seen| then seen[pos..pos + slot.dataLen] else []
  }

  function EndWith(st: St, end: End): St {
    st.(phase := Ended(end))
  }

  function TermWith(st: St, fes: nat, fei: nat): St {
    EndWith(st, Term(PduError(fes, fei)))
  }

  function SubmitSlot(st: St, tag: nat): St
    requires tag in st.recv
  {
    var slot := st.recv[tag];
    st.(phase := Header([]),
        recv := st.recv - {tag},
        events := st.events + [Submit(tag, slot.cmd, slot.dataLen, Payload(slot, st.seen), slot.pieces)])
  }

  /** One PDU's payload is in (and verified): submit once the whole transfer is. */
  function FinishPayload(st: St, tag: nat, kind: PayloadKind, piece: Piece): St
    requires tag in st.recv
  {
    var slot := st.recv[tag];
    match kind
    case InCapsule =>
      SubmitSlot(st.(recv := st.recv[tag := slot.(pieces := slot.pieces + [piece])]), tag)
    case H2c(last, length) =>
      var slot1 := slot.(recvOffset := slot.recvOffset + length, pieces := slot.pieces + [piece]);
      var st1 := st.(recv := st.recv[tag := slot1]);
      if slot1.recvOffset == slot1.dataLen then SubmitSlot(st1, tag)
      else if last then TermWith(st1, DATA_OUT_OF_RANGE, 0)
      else st1.(phase := Header([]))
  }

  function HandleCapsule(env: Env, st: St, sqe: Sqe, dataLen: nat, ddgst: bool): St {
    var tag := env.tags(st.claims);
    if tag in st.recv || tag >= env.nslots then EndWith(st, NoTag)
    else
      var st1 := st.(claims := st.claims + 1);
      if dataLen > 0 then
        if dataLen > MDTS then TermWith(st1, DATA_LIMIT_EXCEEDED, 0)
        else
          var retained := env.keep(st.payloads);
          var store := if retained then InRing(|st.seen|) else FreshLease(env, st, dataLen);
          st1.(recv := st1.recv[tag := RSlot(sqe, dataLen, 0, store, [])],
               payloads := st.payloads + 1,
               phase := Data(tag, 0, dataLen, 0, ddgst, InCapsule, retained))
      else if NeedsR2t(sqe) then
        var length := SglLength(sqe);
        if length > MDTS then TermWith(st1, DATA_LIMIT_EXCEEDED, 0)
        else
          st1.(recv := st1.recv[tag := RSlot(sqe, length, 0, FreshLease(env, st, length), [])],
               events := st1.events + [Solicit(tag, Cid(sqe), length)],
               phase := Header([]))
      else
        st1.(events := st1.events + [Submit(tag, sqe, 0, [], [])], phase := Header([]))
  }

  predicate ValidH2c(st: St, cid: u16, ttag: nat, offset: nat, length: nat) {
    && ttag in st.recv
    && Cid(st.recv[ttag].cmd) == cid
    && offset == st.recv[ttag].recvOffset
    && offset + length <= st.recv[ttag].dataLen
    && length > 0
  }

  function HandleH2c(env: Env, st: St, cid: u16, ttag: nat, offset: nat, length: nat, last: bool,
                     dataLen: nat, ddgst: bool): St
  {
    if ttag >= env.nslots then TermWith(st, INVALID_PDU_HDR, 10)
    else if !ValidH2c(st, cid, ttag, offset, length) then TermWith(st, DATA_OUT_OF_RANGE, 0)
    else if dataLen != length then TermWith(st, INVALID_PDU_HDR, 16)
    else
      var slot := st.recv[ttag];
      var retained := offset == 0 && length == slot.dataLen && env.keep(st.payloads);
      st.(recv := if retained then st.recv[ttag := slot.(store := InRing(|st.seen|))] else st.recv,
          payloads := st.payloads + 1,
          phase := Data(ttag, offset, length, 0, ddgst, H2c(last, length), retained))
  }

  function HandlePdu(env: Env, st: St, d: Decoded): St {
    var ddgst := d.ddgst && env.dataDigest;
    match d.kind
    case CapsuleCmd(sqe) => HandleCapsule(env, st, sqe, d.dataLen, ddgst)
    case H2CData(cid, ttag, offset, length, last) =>
      HandleH2c(env, st, cid, ttag, offset, length, last, d.dataLen, ddgst)
    case H2CTerm(fes, fei) => EndWith(st, HostTerm(fes, fei))
    case _ => TermWith(st, PDU_SEQ_ERR, 0)
  }

  /** The header bytes `g` were just completed or extended. */
  function AfterHeader(env: Env, st: St, g: seq<byte>): St {
    if |g| == 8 && HeaderLen(env.hdrDigest, g).Err? then EndWith(st, Term(HeaderLen(env.hdrDigest, g).error))
    else if Complete(env.hdrDigest, g) then
      match Take(env.crc, env.hdrDigest, g)
      case Err(e) => EndWith(st, Term(e))
      case Ok(d) => HandlePdu(env, st, d)
    else st.(phase := Header(g))
  }

  function Total(slot: RSlot, kind: PayloadKind): nat {
    match kind
    case InCapsule => slot.dataLen
    case H2c(_, length) => length
  }

  /** Copy `chunk` to logical offset `at` of a lease; ring memory already holds it. */
  function Write(store: Store, at: int, chunk: seq<byte>): Store {
    if store.InRing? || at < 0 || at + |chunk| > |store.bytes| then store
    else Lease(store.bytes[..at] + chunk + store.bytes[at + |chunk|..])
  }

  /** The slot with `chunk` copied to its reassembly offset, unless it is already there. */
  function LandSlot(slot: RSlot, p: Phase, chunk: seq<byte>): RSlot
    requires p.Data?
  {
    if p.retained then slot
    else slot.(store := Write(slot.store, p.base + (Total(slot, p.kind) - p.remaining), chunk))
  }

  function LandPhase(crc: Crc, p: Phase, chunk: seq<byte>): Phase
    requires p.Data? && |chunk| <= p.remaining
  {
    p.(remaining := p.remaining - |chunk|, sum := if p.ddgst then crc(p.sum, chunk) else p.sum)
  }

  /** Payload bytes reach the slot and the running digest. */
  function Land(env: Env, st: St, chunk: seq<byte>): St
    requires st.phase.Data? && st.phase.tag in st.recv && |chunk| <= st.phase.remaining
  {
    var tag := st.phase.tag;
    st.(seen := st.seen + chunk,
        recv := st.recv[tag := LandSlot(st.recv[tag], st.phase, chunk)],
        phase := LandPhase(env.crc, st.phase, chunk))
  }

  /** The stretch of the stream a complete payload was. */
  function PieceOf(slot: RSlot, p: Phase, seen: seq<byte>): Piece
    requires p.Data?
  {
    Piece(Sub(|seen|, Total(slot, p.kind)), Total(slot, p.kind), p.ddgst)
  }

  /** Once no payload byte remains, move on to the digest or finish the payload. */
  function Settle(st: St): St
    requires st.phase.Data? && st.phase.tag in st.recv
  {
    var p := st.phase;
    var piece := PieceOf(st.recv[p.tag], p, st.seen);
    if p.remaining > 0 then st
    else if p.ddgst then st.(phase := Ddgst(p.tag, p.sum, [], p.kind, piece))
    else FinishPayload(st, p.tag, p.kind, piece)
  }

  /** Payload bytes arrive, at most as many as remain. */
  function AdvanceData(env: Env, st: St, chunk: seq<byte>): St
    requires st.phase.Data? && st.phase.tag in st.recv && |chunk| <= st.phase.remaining
  {
    Settle(Land(env, st, chunk))
  }

  function Sub(a: nat, b: nat): nat {
    if b <= a then a - b else 0
  }

  /** Digest bytes arrive, at most as many as are missing; a mismatch fails the command only. */
  function AdvanceDdgst(st: St, chunk: seq<byte>): St
    requires st.phase.Ddgst? && st.phase.tag in st.recv && |st.phase.have| + |chunk| <= 4
  {
    var p := st.phase;
    var have := p.have + chunk;
    var st1 := st.(seen := st.seen + chunk, phase := p.(have := have));
    if |have| < 4 then st1
    else if Le32(have, 0) != p.expected then
      st1.(phase := Header([]),
           recv := st.recv - {p.tag},
           events := st.events + [Fail(p.tag, Cid(st.recv[p.tag].cmd))])
    else FinishPayload(st1, p.tag, p.kind, p.piece)
  }

  // ----- the byte machine -----

  function StepByte(env: Env, st: St, b: byte): St {
    match st.phase
    case Ended(_) => st
    case Header(got) => AfterHeader(env, st.(seen := st.seen + [b], phase := Header([])), got + [b])
    case Data(tag, _, remaining, _, _, _, _) =>
      if tag in st.recv && remaining > 0 then AdvanceData(env, st, [b]) else st
    case Ddgst(tag, _, have, _, _) =>
      if tag in st.recv && |have| < 4 then AdvanceDdgst(st, [b]) else st
  }

  function Feed(env: Env, st: St, bytes: seq<byte>): St
    decreases |bytes|
  {
    if bytes == [] then st else Feed(env, StepByte(env, st, bytes[0]), bytes[1..])
  }

  /** How the stream is cut into windows does not matter to the byte machine. */
  lemma {:induction false} FeedAppend(env: Env, st: St, a: seq<byte>, b: seq<byte>)
    ensures Feed(env, st, a + b) == Feed(env, Feed(env, st, a), b)
    decreases |a|
  {
    if a == [] {
      assert a + b == b;
    } else {
      assert (a + b)[1..] == a[1..] + b;
      FeedAppend(env, StepByte(env, st, a[0]), a[1..], b);
    }
  }

  lemma {:induction false} FeedEnded(env: Env, st: St, bytes: seq<byte>)
    requires st.phase.Ended?
    ensures Feed(env, st, bytes) == st
    decreases |bytes|
  {
    if bytes != [] {
      FeedEnded(env, st, bytes[1..]);
    }
  }
}
