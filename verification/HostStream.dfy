/**
  End-to-end receive: whatever sequence of PDUs a host puts on the wire, the
  receive path runs exactly the commands it meant with exactly their payloads,
  solicits exactly the transfers it left resident, fails exactly the commands
  whose payload did not match its digest, and ends the connection exactly where
  the host broke the protocol, with the reason.
 */
module HostStream {
  import opened Common
  import opened Digest
  import opened Pdu
  import opened PduDecoders
  import opened RecvMachine
  import opened RecvChunks
  import opened HostCommands

  /** PDUs that are well formed but never the host's to send. */
  datatype Misplaced =
    | InitRequest(hdgst: bool, ddgst: bool, maxr2t: u32)
    | InitResponse(hdgst: bool, ddgst: bool, maxdata: u32)
    | Completion(cqe: Cqe)
    | ReadData(cid: u16, offset: u32, length: u32, last: bool, success: bool)
    | Ready(cid: u16, ttag: u16, offset: u32, length: u32)

  /**
    A command with its in-capsule data; one H2CData PDU of a solicited transfer;
    a termination request; or one of the PDUs only a target sends. `sum` is the
    data digest as sent, right or wrong, if one was.
   */
  datatype HostPdu =
    | Cmd(cmd: Command, data: seq<byte>, sum: Option<u32>)
    | Chunk(cid: u16, ttag: u16, offset: u32, data: seq<byte>, last: bool, sum: Option<u32>)
    | Terminate(fes: u16, fei: u32, data: seq<byte>)
    | Stray(pdu: Misplaced, data: seq<byte>)

  /** A digest follows data only, and only if digests were negotiated; a PDU has at most 32 MiB. */
  predicate Encodable(env: Env, pdu: HostPdu) {
    match pdu
    case Cmd(_, data, sum) => 72 + 4 + |data| + 4 <= MAX_PLEN && (sum.Some? ==> env.dataDigest && data != [])
    case Chunk(_, _, _, data, _, sum) => 24 + 4 + |data| + 4 <= MAX_PLEN && (sum.Some? ==> env.dataDigest && data != [])
    case Terminate(_, _, data) => |data| <= 128
    case Stray(p, _) => p.ReadData? ==> 24 + 4 + p.length + 4 <= MAX_PLEN
  }

  predicate AllEncodable(env: Env, pdus: seq<HostPdu>) {
    forall i :: 0 <= i < |pdus| ==> Encodable(env, pdus[i])
  }

  function EncodeH2CTerm(fes: u16, fei: u32, dataLen: nat): seq<byte>
    requires dataLen <= 128
  {
    Common8(H2C_TERM, 0, 24, 0, 24 + dataLen) + ToLe16(fes) + ToLe32(fei) + Zeros(10)
  }

  function EncodeStray(env: Env, pdu: Misplaced): seq<byte>
    requires pdu.ReadData? ==> 24 + 4 + pdu.length + 4 <= MAX_PLEN
  {
    match pdu
    case InitRequest(hd, dd, maxr2t) => EncodeIcReq(hd, dd, maxr2t)
    case InitResponse(hd, dd, maxdata) => EncodeIcResp(hd, dd, maxdata)
    case Completion(cqe) => EncodeCapsuleResp(env.crc, cqe, env.hdrDigest)
    case ReadData(cid, offset, length, last, success) =>
      EncodeC2HData(env.crc, cid, offset, length, last, success, env.hdrDigest, false)
    case Ready(cid, ttag, offset, length) => EncodeR2T(env.crc, cid, ttag, offset, length, env.hdrDigest)
  }

  function HeaderOf(env: Env, pdu: HostPdu): seq<byte>
    requires Encodable(env, pdu)
  {
    match pdu
    case Cmd(cmd, data, sum) => EncodeCapsuleCmd(env.crc, Bytes(cmd), env.hdrDigest, |data|, sum.Some?)
    case Chunk(cid, ttag, offset, data, last, sum) =>
      EncodeH2CData(env.crc, cid, ttag, offset, |data|, last, env.hdrDigest, sum.Some?)
    case Terminate(fes, fei, data) => EncodeH2CTerm(fes, fei, |data|)
    case Stray(p, _) => EncodeStray(env, p)
  }

  function Trailer(sum: Option<u32>): seq<byte> {
    if sum.Some? then ToLe32(sum.value) else []
  }

  function Body(pdu: HostPdu): seq<byte> {
    if pdu.Cmd? || pdu.Chunk? then pdu.data + Trailer(pdu.sum) else pdu.data
  }

  /** The PDU on the wire. */
  function Encode(env: Env, pdu: HostPdu): seq<byte>
    requires Encodable(env, pdu)
  {
    HeaderOf(env, pdu) + Body(pdu)
  }

  function Wire(env: Env, pdus: seq<HostPdu>): seq<byte>
    requires AllEncodable(env, pdus)
  {
    if pdus == [] then [] else Encode(env, pdus[0]) + Wire(env, pdus[1..])
  }

  // ----- the host's view of the target -----

  /** A transfer the target has solicited: what the host has sent of it so far. */
  datatype Transfer = Transfer(cmd: Command, sent: seq<byte>)

  /** A command starts with its whole payload, its data is asked for, or it fails. */
  datatype Effect =
    | Run(tag: nat, cmd: Command, payload: seq<byte>)
    | Ask(tag: nat, cid: u16, length: nat)
    | Spoilt(tag: nat, cid: u16)

  datatype View = View(open: map<nat, Transfer>, effects: seq<Effect>, claims: nat, end: Option<End>)

  const Fresh: View := View(map[], [], 0, None)

  function Ends(v: View, fes: nat, fei: nat): View {
    v.(end := Some(Term(PduError(fes, fei))))
  }

  /** The digest sent is not the data's. */
  predicate Garbled(env: Env, data: seq<byte>, sum: Option<u32>) {
    sum.Some? && sum.value != env.crc(0, data)
  }

  /** A command with its data in the capsule, and a tag. */
  function AfterCapsule(env: Env, v: View, tag: nat, cmd: Command, data: seq<byte>, sum: Option<u32>): View {
    if |data| > 0x2_0000 then Ends(v, DATA_LIMIT_EXCEEDED, 0)
    else if Garbled(env, data, sum) then v.(effects := v.effects + [Spoilt(tag, cmd.cid)])
    else v.(effects := v.effects + [Run(tag, cmd, data)])
  }

  /** A command without data in the capsule, and a tag. */
  function AfterBare(v: View, tag: nat, cmd: Command): View {
    if !LeftResident(cmd) then v.(effects := v.effects + [Run(tag, cmd, [])])
    else if cmd.length > 0x2_0000 then Ends(v, DATA_LIMIT_EXCEEDED, 0)
    else v.(open := v.open[tag := Transfer(cmd, [])], effects := v.effects + [Ask(tag, cmd.cid, cmd.length)])
  }

  /** The data continue an open transfer of that command exactly where it stands, and not past its end. */
  predicate Continues(v: View, cid: u16, ttag: nat, offset: nat, data: seq<byte>) {
    && ttag in v.open && v.open[ttag].cmd.cid == cid && data != []
    && offset == |v.open[ttag].sent| && offset + |data| <= v.open[ttag].cmd.length
  }

  /** The next stretch of an open transfer. */
  function AfterData(env: Env, v: View, ttag: nat, data: seq<byte>, last: bool, sum: Option<u32>): View
    requires ttag in v.open
  {
    var t := v.open[ttag];
    var sent := t.sent + data;
    if Garbled(env, data, sum) then v.(open := v.open - {ttag}, effects := v.effects + [Spoilt(ttag, t.cmd.cid)])
    else if |sent| == t.cmd.length then v.(open := v.open - {ttag}, effects := v.effects + [Run(ttag, t.cmd, sent)])
    else if last then Ends(v, DATA_OUT_OF_RANGE, 0)
    else v.(open := v.open[ttag := t.(sent := sent)])
  }

  function After(env: Env, v: View, pdu: HostPdu): View {
    if v.end.Some? then v
    else
      match pdu
      case Cmd(cmd, data, sum) =>
        var tag := env.tags(v.claims);
        var v1 := v.(claims := v.claims + 1);
        if tag in v.open || tag >= env.nslots then v.(end := Some(NoTag))
        else if data == [] then AfterBare(v1, tag, cmd)
        else AfterCapsule(env, v1, tag, cmd, data, sum)
      case Chunk(cid, ttag, offset, data, last, sum) =>
        if ttag >= env.nslots then Ends(v, INVALID_PDU_HDR, 10)
        else if !Continues(v, cid, ttag, offset, data) then Ends(v, DATA_OUT_OF_RANGE, 0)
        else AfterData(env, v, ttag, data, last, sum)
      case Terminate(fes, fei, _) => v.(end := Some(HostTerm(fes, fei)))
      case Stray(_, _) => Ends(v, PDU_SEQ_ERR, 0)
  }

  function AfterAll(env: Env, v: View, pdus: seq<HostPdu>): View
    decreases |pdus|
  {
    if pdus == [] then v else AfterAll(env, After(env, v, pdus[0]), pdus[1..])
  }

  // ----- the receive path agrees with that view -----

  ghost predicate Is(e: Event, f: Effect) {
    match f
    case Run(tag, cmd, payload) =>
      e.Submit? && e.tag == tag && e.cmd == Bytes(cmd) && e.payload == payload && e.dataLen == |payload|
    case Ask(tag, cid, length) => e == Solicit(tag, cid, length)
    case Spoilt(tag, cid) => e == Fail(tag, cid)
  }

  ghost predicate EffectsAre(events: seq<Event>, effects: seq<Effect>) {
    |events| == |effects| && forall i :: 0 <= i < |events| ==> Is(events[i], effects[i])
  }

  /** What a host can tell: whether and why the connection ended, and what happened before. */
  ghost predicate Served(phase: Phase, events: seq<Event>, v: View) {
    phase == (if v.end.None? then Header([]) else Ended(v.end.value)) && EffectsAre(events, v.effects)
  }

  ghost predicate SlotIs(s: RSlot, t: Transfer) {
    && s.cmd == Bytes(t.cmd) && s.dataLen == t.cmd.length && s.recvOffset == |t.sent| && |t.sent| <= t.cmd.length
    && s.store.Lease? && t.cmd.length <= |s.store.bytes| && s.store.bytes[..|t.sent|] == t.sent
  }

  ghost predicate SlotsAre(recv: map<nat, RSlot>, open: map<nat, Transfer>) {
    recv.Keys == open.Keys && forall t :: t in open ==> SlotIs(recv[t], open[t])
  }

  /** Between PDUs the machine and the host agree. */
  ghost predicate Agrees(st: St, v: View) {
    && Served(st.phase, st.events, v)
    && (v.end.None? ==> st.claims == v.claims && SlotsAre(st.recv, v.open))
  }

  /** A complete header, however long, only produces its effect at its last byte. */
  lemma HeaderActs(env: Env, st: St, h: seq<byte>)
    requires st.phase == Header([]) && Complete(env.hdrDigest, h)
    ensures Feed(env, st, h) == AfterHeader(env, st.(seen := st.seen + h), h)
  {
    HeaderIsQuiet(env.hdrDigest, h, 0);
    assert h[..0] == [] && h[0..|h| - 1] == h[..|h| - 1];
    HeaderEnds(env, st, h);
    assert [] + h == h;
  }

  /** The state in which a whole payload has landed, and its digest, if any, was read. */
  ghost function Delivered(st: St, data: seq<byte>, sum: Option<u32>): St
    requires st.phase.Data? && st.phase.tag in st.recv && |data| <= st.phase.remaining
  {
    var slot := LandSlot(st.recv[st.phase.tag], st.phase, data);
    st.(seen := st.seen + data + Trailer(sum), recv := st.recv[st.phase.tag := slot])
  }

  /** A payload that does not match its digest fails its command, and only that. */
  ghost function Failed(st: St, tag: nat): St
    requires tag in st.recv
  {
    st.(phase := Header([]), recv := st.recv - {tag}, events := st.events + [Fail(tag, Cid(st.recv[tag].cmd))])
  }

  lemma FinishIgnoresPhase(st: St, st': St, tag: nat, kind: PayloadKind, piece: Piece)
    requires tag in st.recv && st' == st.(phase := st'.phase)
    ensures FinishPayload(st', tag, kind, piece) == FinishPayload(st, tag, kind, piece)
  {
  }

  /** A payload and its digest, fed whole, finish the payload or fail the command. */
  lemma PayloadActs(env: Env, st: St, data: seq<byte>, sum: Option<u32>)
    requires Composes(env.crc) && DataPlaced(st) && |data| == st.phase.remaining
    requires st.phase.ddgst == sum.Some? && st.phase.sum == 0
    ensures var p := st.phase;
            var piece := PieceOf(st.recv[p.tag], p, st.seen + data);
            var d := Delivered(st, data, sum);
            Feed(env, st, data + Trailer(sum)) ==
              if Garbled(env, data, sum) then Failed(d, p.tag) else FinishPayload(d, p.tag, p.kind, piece)
  {
    var p := st.phase;
    var piece := PieceOf(st.recv[p.tag], p, st.seen + data);
    var st1 := Land(env, st, data);
    var d := Delivered(st, data, sum);
    FeedAppend(env, st, data, Trailer(sum));
    DataFeeds(env, st, data);
    assert PieceOf(st1.recv[p.tag], st1.phase, st1.seen) == piece;
    if sum.Some? {
      var wire := Trailer(sum);
      var st2 := Settle(st1);
      assert st2 == st1.(phase := Ddgst(p.tag, env.crc(0, data), [], p.kind, piece));
      DdgstFeeds(env, st2, wire);
      Le32RoundTrip([], sum.value, []);
      assert [] + wire + [] == wire && [] + wire == wire;
      var st3 := st2.(seen := st2.seen + wire, phase := st2.phase.(have := [] + wire));
      FinishIgnoresPhase(d, st3, p.tag, p.kind, piece);
    } else {
      assert Feed(env, Settle(st1), []) == Settle(st1);
      assert d.seen == st1.seen;
      FinishIgnoresPhase(d, st1, p.tag, p.kind, piece);
    }
  }

  // ----- headers -----

  ghost function MeantStray(pdu: Misplaced): Decoded {
    match pdu
    case InitRequest(hd, dd, maxr2t) => Decoded(IcReq(0, 0, DigestBits(hd, dd), maxr2t), 0, false)
    case InitResponse(hd, dd, maxdata) => Decoded(IcResp(0, 0, DigestBits(hd, dd), maxdata), 0, false)
    case Completion(cqe) => Decoded(CapsuleResp(cqe), 0, false)
    case ReadData(cid, offset, length, last, success) => Decoded(C2HData(cid, offset, length, last, success), length, false)
    case Ready(cid, ttag, offset, length) => Decoded(R2T(cid, ttag, offset, length), 0, false)
  }

  ghost function Meant(env: Env, pdu: HostPdu): Decoded
    requires Encodable(env, pdu)
  {
    match pdu
    case Cmd(cmd, data, sum) => Decoded(CapsuleCmd(Bytes(cmd)), |data|, sum.Some?)
    case Chunk(cid, ttag, offset, data, last, sum) => Decoded(H2CData(cid, ttag, offset, |data|, last), |data|, sum.Some?)
    case Terminate(fes, fei, data) => Decoded(H2CTerm(fes, fei), |data|, false)
    case Stray(p, _) => MeantStray(p)
  }

  lemma H2CTermRoundTrip(crc: Crc, fes: u16, fei: u32, dataLen: nat, hdrDigest: bool)
    requires dataLen <= 128
    ensures var h := EncodeH2CTerm(fes, fei, dataLen);
            Complete(hdrDigest, h) && Take(crc, hdrDigest, h) == Ok(Decoded(H2CTerm(fes, fei), dataLen, false))
  {
    var h := EncodeH2CTerm(fes, fei, dataLen);
    var body := ToLe16(fes) + ToLe32(fei) + Zeros(10);
    HeaderReadsBack(crc, H2C_TERM, 0, 0, 24 + dataLen, body, false);
    assert h == Common8(H2C_TERM, 0, 24, 0, 24 + dataLen) + body;
    Le16RoundTrip(h[..8], fes, h[10..]);
    assert h == h[..8] + ToLe16(fes) + h[10..];
    Le32RoundTrip(h[..10], fei, h[14..]);
    assert h == h[..10] + ToLe32(fei) + h[14..];
  }

  lemma StrayRoundTrip(env: Env, pdu: Misplaced)
    requires pdu.ReadData? ==> 24 + 4 + pdu.length + 4 <= MAX_PLEN
    ensures var h := EncodeStray(env, pdu);
            Complete(env.hdrDigest, h) && Take(env.crc, env.hdrDigest, h) == Ok(MeantStray(pdu))
  {
    match pdu
    case InitRequest(hd, dd, maxr2t) => IcRoundTrip(env.crc, hd, dd, maxr2t, env.hdrDigest);
    case InitResponse(hd, dd, maxdata) => IcRoundTrip(env.crc, hd, dd, maxdata, env.hdrDigest);
    case Completion(cqe) => CapsuleRespRoundTrip(env.crc, cqe, env.hdrDigest);
    case ReadData(cid, offset, length, last, success) =>
      C2HDataRoundTrip(env.crc, cid, offset, length, last, success, env.hdrDigest, false);
    case Ready(cid, ttag, offset, length) => R2TRoundTrip(env.crc, cid, ttag, offset, length, env.hdrDigest);
  }

  lemma HeaderRoundTrip(env: Env, pdu: HostPdu)
    requires Encodable(env, pdu)
    ensures var h := HeaderOf(env, pdu);
            Complete(env.hdrDigest, h) && Take(env.crc, env.hdrDigest, h) == Ok(Meant(env, pdu))
  {
    match pdu
    case Cmd(cmd, data, sum) => CapsuleCmdRoundTrip(env.crc, Bytes(cmd), env.hdrDigest, |data|, sum.Some?);
    case Chunk(cid, ttag, offset, data, last, sum) =>
      H2CDataRoundTrip(env.crc, cid, ttag, offset, |data|, last, env.hdrDigest, sum.Some?);
    case Terminate(fes, fei, data) => H2CTermRoundTrip(env.crc, fes, fei, |data|, env.hdrDigest);
    case Stray(p, _) => StrayRoundTrip(env, p);
  }

  /** The header, seen complete, is decoded as the host meant it. */
  lemma HeaderDecodes(env: Env, st: St, pdu: HostPdu)
    requires st.phase == Header([]) && Encodable(env, pdu)
    ensures var h := HeaderOf(env, pdu);
            Feed(env, st, h) == HandlePdu(env, st.(seen := st.seen + h), Meant(env, pdu))
  {
    var h := HeaderOf(env, pdu);
    HeaderRoundTrip(env, pdu);
    HeaderActs(env, st, h);
    CompleteIsNoError(env.hdrDigest, h);
  }

  lemma CompleteIsNoError(hd: bool, h: seq<byte>)
    requires Complete(hd, h)
    ensures !(|h| == 8 && HeaderLen(hd, h).Err?)
  {
    if |h| == 8 {
      assert h[..8] == h;
    }
  }

  /** The payload written where it belongs reads back as the payload. */
  lemma WriteReads(store: Store, at: nat, chunk: seq<byte>)
    requires store.Lease? && at + |chunk| <= |store.bytes|
    ensures var w := Write(store, at, chunk);
            w.Lease? && |w.bytes| == |store.bytes| && w.bytes[..at + |chunk|] == store.bytes[..at] + chunk
  {
  }

  /** A PDU acts through its decoded header, then its body. */
  lemma PduActs(env: Env, st: St, pdu: HostPdu)
    requires st.phase == Header([]) && Encodable(env, pdu)
    ensures Feed(env, st, Encode(env, pdu)) ==
            Feed(env, HandlePdu(env, st.(seen := st.seen + HeaderOf(env, pdu)), Meant(env, pdu)), Body(pdu))
  {
    HeaderDecodes(env, st, pdu);
    FeedAppend(env, st, HeaderOf(env, pdu), Body(pdu));
  }

  // ----- commands -----

  lemma BareAgrees(env: Env, st: St, v: View, cmd: Command)
    requires Agrees(st, v) && v.end.None?
    ensures Agrees(HandleCapsule(env, st, Bytes(cmd), 0, false), After(env, v, Cmd(cmd, [], None)))
  {
    CommandReadsBack(cmd);
    assert LeaseLen(cmd.length) >= cmd.length;
  }

  /** The slot of a command with in-capsule data holds that data when it is submitted. */
  lemma CapsulePayload(st: St, data: seq<byte>, sum: Option<u32>)
    requires DataPlaced(st) && |data| == st.phase.remaining && st.phase.base == 0 && st.phase.kind == InCapsule
    requires st.recv[st.phase.tag].dataLen == |data|
    requires st.phase.retained ==> st.recv[st.phase.tag].store == InRing(|st.seen|)
    ensures var d := Delivered(st, data, sum);
            Payload(d.recv[st.phase.tag], d.seen) == data
  {
    var d := Delivered(st, data, sum);
    if st.phase.retained {
      assert d.seen[|st.seen|..|st.seen| + |data|] == data;
    } else {
      WriteReads(st.recv[st.phase.tag].store, 0, data);
      assert d.recv[st.phase.tag].store.bytes[..|data|] == data;
    }
  }

  /** `st1` is `st` with one more command, waiting for its in-capsule data. */
  ghost predicate CapsuleWaits(env: Env, st: St, st1: St, cmd: Command, data: seq<byte>, dd: bool) {
    var tag := env.tags(st.claims);
    && DataPlaced(st1)
    && st1.phase.(retained := false) == Data(tag, 0, |data|, 0, dd, InCapsule, false)
    && tag !in st.recv && st1.recv.Keys == st.recv.Keys + {tag}
    && st1.recv[tag].cmd == Bytes(cmd) && st1.recv[tag].dataLen == |data|
    && (st1.phase.retained ==> st1.recv[tag].store == InRing(|st.seen|))
    && (forall t :: t in st.recv ==> st1.recv[t] == st.recv[t])
    && st1.seen == st.seen && st1.events == st.events && st1.claims == st.claims + 1
  }

  lemma CapsuleWaiting(env: Env, st: St, cmd: Command, data: seq<byte>, dd: bool)
    requires 0 < |data| <= MDTS && env.tags(st.claims) !in st.recv && env.tags(st.claims) < env.nslots
    ensures CapsuleWaits(env, st, HandleCapsule(env, st, Bytes(cmd), |data|, dd), cmd, data, dd)
  {
    assert LeaseLen(|data|) >= |data|;
  }

  lemma CapsuleSpoils(env: Env, st: St, st1: St, v: View, cmd: Command, data: seq<byte>, sum: Option<u32>)
    requires Composes(env.crc) && Agrees(st, v) && v.end.None? && data != [] && Garbled(env, data, sum)
    requires CapsuleWaits(env, st, st1, cmd, data, sum.Some?)
    ensures Agrees(Feed(env, st1, data + Trailer(sum)),
                   v.(claims := v.claims + 1, effects := v.effects + [Spoilt(env.tags(v.claims), cmd.cid)]))
  {
    var tag := env.tags(st.claims);
    var d := Delivered(st1, data, sum);
    assert Feed(env, st1, data + Trailer(sum)) == Failed(d, tag) by {
      PayloadActs(env, st1, data, sum);
    }
    assert v.open - {tag} == v.open;
    SpoilAgrees(d, tag, st, v, cmd, v.(claims := v.claims + 1, effects := v.effects + [Spoilt(tag, cmd.cid)]));
  }

  lemma CapsuleSubmits(env: Env, st: St, st1: St, v: View, cmd: Command, data: seq<byte>, sum: Option<u32>)
    requires Composes(env.crc) && Agrees(st, v) && v.end.None? && data != [] && !Garbled(env, data, sum)
    requires CapsuleWaits(env, st, st1, cmd, data, sum.Some?)
    ensures Agrees(Feed(env, st1, data + Trailer(sum)),
                   v.(claims := v.claims + 1, effects := v.effects + [Run(env.tags(v.claims), cmd, data)]))
  {
    var tag := env.tags(st.claims);
    var d := Delivered(st1, data, sum);
    var piece := PieceOf(st1.recv[tag], st1.phase, st1.seen + data);
    assert Feed(env, st1, data + Trailer(sum)) == FinishPayload(d, tag, InCapsule, piece) by {
      PayloadActs(env, st1, data, sum);
    }
    CapsulePayload(st1, data, sum);
    SubmitAgrees(d, tag, piece, st, v, cmd, data);
  }

  lemma SpoilAgrees(d: St, tag: nat, st: St, v: View, cmd: Command, w: View)
    requires Agrees(st, v) && v.end.None? && tag in d.recv && d.recv[tag].cmd == Bytes(cmd)
    requires d.recv.Keys == st.recv.Keys + {tag}
    requires forall t :: t in st.recv && t != tag ==> d.recv[t] == st.recv[t]
    requires d.events == st.events
    requires w.claims == d.claims && w.open == v.open - {tag} && w.effects == v.effects + [Spoilt(tag, cmd.cid)] && w.end.None?
    ensures Agrees(Failed(d, tag), w)
  {
    CommandReadsBack(cmd);
  }

  lemma SubmitAgrees(d: St, tag: nat, piece: Piece, st: St, v: View, cmd: Command, data: seq<byte>)
    requires Agrees(st, v) && v.end.None? && tag in d.recv && tag !in st.recv
    requires d.recv[tag].cmd == Bytes(cmd) && d.recv[tag].dataLen == |data| && Payload(d.recv[tag], d.seen) == data
    requires d.recv.Keys == st.recv.Keys + {tag}
    requires forall t :: t in st.recv ==> d.recv[t] == st.recv[t]
    requires d.events == st.events && d.claims == st.claims + 1
    ensures Agrees(FinishPayload(d, tag, InCapsule, piece),
                   v.(claims := v.claims + 1, effects := v.effects + [Run(tag, cmd, data)]))
  {
  }

  lemma CmdAgrees(env: Env, st: St, v: View, cmd: Command, data: seq<byte>, sum: Option<u32>)
    requires Composes(env.crc) && Agrees(st, v) && v.end.None? && data != []
    ensures Agrees(Feed(env, HandleCapsule(env, st, Bytes(cmd), |data|, sum.Some?), data + Trailer(sum)),
                   After(env, v, Cmd(cmd, data, sum)))
  {
    var tag := env.tags(v.claims);
    var st1 := HandleCapsule(env, st, Bytes(cmd), |data|, sum.Some?);
    if tag in v.open || tag >= env.nslots || |data| > MDTS {
      FeedEnded(env, st1, data + Trailer(sum));
    } else {
      CapsuleWaiting(env, st, cmd, data, sum.Some?);
      if Garbled(env, data, sum) {
        CapsuleSpoils(env, st, st1, v, cmd, data, sum);
      } else {
        CapsuleSubmits(env, st, st1, v, cmd, data, sum);
      }
    }
  }

  // ----- solicited data -----

  /** `st1` is `st`, expecting `data` as the next stretch of an open transfer. */
  ghost predicate ChunkWaits(st: St, st1: St, ttag: nat, data: seq<byte>, last: bool, dd: bool) {
    && ttag in st.recv && DataPlaced(st1)
    && var slot := st.recv[ttag];
       && st1.phase.(retained := false) ==
            Data(ttag, slot.recvOffset, |data|, 0, dd, H2c(last, |data|), false)
       && st1.recv.Keys == st.recv.Keys
       && st1.recv[ttag].(store := slot.store) == slot
       && (if st1.phase.retained then
             st1.recv[ttag].store == InRing(|st.seen|) && slot.recvOffset == 0 && slot.dataLen == |data|
           else st1.recv[ttag].store == slot.store)
       && (forall t :: t in st.recv && t != ttag ==> st1.recv[t] == st.recv[t])
       && st1.seen == st.seen && st1.events == st.events && st1.claims == st.claims
  }

  lemma ChunkWaiting(env: Env, st: St, v: View, cid: u16, ttag: nat, offset: nat, data: seq<byte>, last: bool, dd: bool)
    requires SlotsAre(st.recv, v.open) && ttag < env.nslots && Continues(v, cid, ttag, offset, data)
    ensures ChunkWaits(st, HandleH2c(env, st, cid, ttag, offset, |data|, last, |data|, dd), ttag, data, last, dd)
  {
    CommandReadsBack(v.open[ttag].cmd);
    assert SlotIs(st.recv[ttag], v.open[ttag]);
  }

  /** After the chunk landed, what the slot holds so far is what the host sent so far. */
  lemma ChunkLands(st: St, st1: St, ttag: nat, data: seq<byte>, last: bool, sum: Option<u32>, t: Transfer)
    requires ChunkWaits(st, st1, ttag, data, last, sum.Some?) && SlotIs(st.recv[ttag], t) && |t.sent| + |data| <= t.cmd.length
    ensures var d := Delivered(st1, data, sum);
            var slot := d.recv[ttag];
            && slot.(store := st.recv[ttag].store) == st.recv[ttag]
            && (|t.sent| + |data| == t.cmd.length ==> Payload(slot, d.seen) == t.sent + data)
            && (|t.sent| + |data| < t.cmd.length ==>
                  SlotIs(slot.(recvOffset := slot.recvOffset + |data|), t.(sent := t.sent + data)))
  {
    var d := Delivered(st1, data, sum);
    if st1.phase.retained {
      assert t.sent == [] && t.sent + data == data;
      assert d.seen[|st.seen|..|st.seen| + |data|] == data;
    } else {
      WriteReads(st.recv[ttag].store, |t.sent|, data);
    }
  }

  lemma DataSpoils(env: Env, st: St, st1: St, v: View, ttag: nat, data: seq<byte>, last: bool, sum: Option<u32>)
    requires Composes(env.crc) && Agrees(st, v) && v.end.None? && ttag in v.open && Garbled(env, data, sum)
    requires ChunkWaits(st, st1, ttag, data, last, sum.Some?)
    ensures Agrees(Feed(env, st1, data + Trailer(sum)), AfterData(env, v, ttag, data, last, sum))
  {
    var d := Delivered(st1, data, sum);
    assert Feed(env, st1, data + Trailer(sum)) == Failed(d, ttag) by {
      PayloadActs(env, st1, data, sum);
    }
    assert SlotIs(st.recv[ttag], v.open[ttag]);
    SpoilAgrees(d, ttag, st, v, v.open[ttag].cmd, AfterData(env, v, ttag, data, last, sum));
  }

  lemma DataLands(env: Env, st: St, st1: St, v: View, ttag: nat, data: seq<byte>, last: bool, sum: Option<u32>)
    requires Composes(env.crc) && Agrees(st, v) && v.end.None? && ttag in v.open && !Garbled(env, data, sum)
    requires |v.open[ttag].sent| + |data| <= v.open[ttag].cmd.length
    requires ChunkWaits(st, st1, ttag, data, last, sum.Some?)
    ensures Agrees(Feed(env, st1, data + Trailer(sum)), AfterData(env, v, ttag, data, last, sum))
  {
    var t := v.open[ttag];
    var d := Delivered(st1, data, sum);
    var piece := PieceOf(st1.recv[ttag], st1.phase, st1.seen + data);
    assert Feed(env, st1, data + Trailer(sum)) == FinishPayload(d, ttag, H2c(last, |data|), piece) by {
      PayloadActs(env, st1, data, sum);
    }
    assert SlotIs(st.recv[ttag], t);
    ChunkLands(st, st1, ttag, data, last, sum, t);
    if |t.sent| + |data| == t.cmd.length {
      FinishWhole(d, ttag, last, piece, st, v, data);
    } else {
      FinishPart(d, ttag, last, piece, st, v, data);
    }
  }

  /** The chunk has landed in the slot `d.recv[ttag]`; nothing else differs from `st`. */
  ghost predicate Landed(d: St, ttag: nat, st: St, v: View, data: seq<byte>) {
    && Agrees(st, v) && v.end.None? && ttag in v.open && ttag in d.recv
    && |v.open[ttag].sent| + |data| <= v.open[ttag].cmd.length
    && d.recv[ttag].(store := st.recv[ttag].store) == st.recv[ttag]
    && d.recv.Keys == st.recv.Keys && d.events == st.events && d.claims == st.claims
    && forall t :: t in st.recv && t != ttag ==> d.recv[t] == st.recv[t]
  }

  /** The last stretch of a transfer submits it. */
  lemma LastSubmits(d: St, tag: nat, last: bool, n: nat, piece: Piece) returns (d1: St)
    requires tag in d.recv && d.recv[tag].recvOffset + n == d.recv[tag].dataLen
    ensures d1 == d.(recv := d1.recv) && d1.recv.Keys == d.recv.Keys && FinishPayload(d, tag, H2c(last, n), piece) == SubmitSlot(d1, tag)
    ensures Payload(d1.recv[tag], d.seen) == Payload(d.recv[tag], d.seen)
    ensures d1.recv[tag].cmd == d.recv[tag].cmd && d1.recv[tag].dataLen == d.recv[tag].dataLen
    ensures forall t :: t in d.recv && t != tag ==> d1.recv[t] == d.recv[t]
  {
    var slot := d.recv[tag];
    d1 := d.(recv := d.recv[tag := slot.(recvOffset := slot.dataLen, pieces := slot.pieces + [piece])]);
  }

  lemma FinishWhole(d: St, ttag: nat, last: bool, piece: Piece, st: St, v: View, data: seq<byte>)
    requires Landed(d, ttag, st, v, data) && |v.open[ttag].sent| + |data| == v.open[ttag].cmd.length
    requires Payload(d.recv[ttag], d.seen) == v.open[ttag].sent + data
    ensures Agrees(FinishPayload(d, ttag, H2c(last, |data|), piece),
                   v.(open := v.open - {ttag}, effects := v.effects + [Run(ttag, v.open[ttag].cmd, v.open[ttag].sent + data)]))
  {
    assert SlotIs(st.recv[ttag], v.open[ttag]);
    var d1 := LastSubmits(d, ttag, last, |data|, piece);
    WholeAgrees(d1, ttag, st, v, v.open[ttag].sent + data);
  }

  lemma FinishPart(d: St, ttag: nat, last: bool, piece: Piece, st: St, v: View, data: seq<byte>)
    requires Landed(d, ttag, st, v, data) && |v.open[ttag].sent| + |data| < v.open[ttag].cmd.length
    requires SlotIs(d.recv[ttag].(recvOffset := d.recv[ttag].recvOffset + |data|),
                    v.open[ttag].(sent := v.open[ttag].sent + data))
    ensures Agrees(FinishPayload(d, ttag, H2c(last, |data|), piece),
                   if last then Ends(v, DATA_OUT_OF_RANGE, 0)
                   else v.(open := v.open[ttag := v.open[ttag].(sent := v.open[ttag].sent + data)]))
  {
    var z := FinishPayload(d, ttag, H2c(last, |data|), piece);
    PartAgrees(z, ttag, st, v, v.open[ttag].(sent := v.open[ttag].sent + data), z.phase);
  }

  lemma PartAgrees(d: St, ttag: nat, st: St, v: View, t: Transfer, phase: Phase)
    requires Agrees(st, v) && v.end.None? && ttag in v.open && ttag in d.recv && d.recv.Keys == st.recv.Keys
    requires SlotIs(d.recv[ttag], t) && (phase.Ended? || phase == Header([]))
    requires forall i :: i in st.recv && i != ttag ==> d.recv[i] == st.recv[i]
    requires d.events == st.events && d.claims == st.claims
    ensures Agrees(d.(phase := phase), if phase.Ended? then v.(end := Some(phase.end)) else v.(open := v.open[ttag := t]))
  {
  }

  lemma WholeAgrees(d: St, ttag: nat, st: St, v: View, sent: seq<byte>)
    requires Agrees(st, v) && v.end.None? && ttag in v.open && ttag in d.recv && d.recv.Keys == st.recv.Keys
    requires d.recv[ttag].cmd == Bytes(v.open[ttag].cmd) && d.recv[ttag].dataLen == |sent| && Payload(d.recv[ttag], d.seen) == sent
    requires forall t :: t in st.recv && t != ttag ==> d.recv[t] == st.recv[t]
    requires d.events == st.events && d.claims == st.claims
    ensures Agrees(SubmitSlot(d, ttag), v.(open := v.open - {ttag}, effects := v.effects + [Run(ttag, v.open[ttag].cmd, sent)]))
  {
  }

  lemma RefusesIff(st: St, v: View, cid: u16, ttag: nat, offset: nat, data: seq<byte>)
    requires SlotsAre(st.recv, v.open)
    ensures ValidH2c(st, cid, ttag, offset, |data|) <==> Continues(v, cid, ttag, offset, data)
  {
    if ttag in v.open {
      CommandReadsBack(v.open[ttag].cmd);
      assert SlotIs(st.recv[ttag], v.open[ttag]);
    }
  }

  lemma ChunkAgrees(env: Env, st: St, v: View, pdu: HostPdu)
    requires Composes(env.crc) && Agrees(st, v) && v.end.None? && pdu.Chunk?
    ensures Agrees(Feed(env, HandleH2c(env, st, pdu.cid, pdu.ttag, pdu.offset, |pdu.data|, pdu.last, |pdu.data|, pdu.sum.Some?),
                        pdu.data + Trailer(pdu.sum)),
                   After(env, v, pdu))
  {
    var st1 := HandleH2c(env, st, pdu.cid, pdu.ttag, pdu.offset, |pdu.data|, pdu.last, |pdu.data|, pdu.sum.Some?);
    RefusesIff(st, v, pdu.cid, pdu.ttag, pdu.offset, pdu.data);
    if pdu.ttag >= env.nslots || !Continues(v, pdu.cid, pdu.ttag, pdu.offset, pdu.data) {
      FeedEnded(env, st1, pdu.data + Trailer(pdu.sum));
    } else {
      ChunkWaiting(env, st, v, pdu.cid, pdu.ttag, pdu.offset, pdu.data, pdu.last, pdu.sum.Some?);
      if Garbled(env, pdu.data, pdu.sum) {
        DataSpoils(env, st, st1, v, pdu.ttag, pdu.data, pdu.last, pdu.sum);
      } else {
        DataLands(env, st, st1, v, pdu.ttag, pdu.data, pdu.last, pdu.sum);
      }
    }
  }

  // ----- any PDU -----

  lemma HandledCmd(env: Env, st: St, v: View, pdu: HostPdu)
    requires Composes(env.crc) && Agrees(st, v) && v.end.None? && Encodable(env, pdu) && pdu.Cmd?
    ensures Agrees(Feed(env, HandlePdu(env, st, Meant(env, pdu)), Body(pdu)), After(env, v, pdu))
  {
    if pdu.data == [] {
      assert Body(pdu) == [];
      BareAgrees(env, st, v, pdu.cmd);
    } else {
      CmdAgrees(env, st, v, pdu.cmd, pdu.data, pdu.sum);
    }
  }

  lemma HandledOther(env: Env, st: St, v: View, pdu: HostPdu)
    requires Agrees(st, v) && v.end.None? && Encodable(env, pdu) && !pdu.Cmd? && !pdu.Chunk?
    ensures Agrees(Feed(env, HandlePdu(env, st, Meant(env, pdu)), Body(pdu)), After(env, v, pdu))
  {
    FeedEnded(env, HandlePdu(env, st, Meant(env, pdu)), Body(pdu));
  }

  lemma PduAgrees(env: Env, st: St, v: View, pdu: HostPdu)
    requires Composes(env.crc) && Agrees(st, v) && v.end.None? && Encodable(env, pdu)
    ensures Agrees(Feed(env, st, Encode(env, pdu)), After(env, v, pdu))
  {
    var st0 := st.(seen := st.seen + HeaderOf(env, pdu));
    PduActs(env, st, pdu);
    assert Agrees(st0, v);
    if pdu.Cmd? {
      HandledCmd(env, st0, v, pdu);
    } else if pdu.Chunk? {
      ChunkAgrees(env, st0, v, pdu);
    } else {
      HandledOther(env, st0, v, pdu);
    }
  }

  // ----- the whole stream -----

  lemma {:induction false} WireAgrees(env: Env, st: St, v: View, pdus: seq<HostPdu>)
    requires Composes(env.crc) && Agrees(st, v) && AllEncodable(env, pdus)
    ensures Agrees(Feed(env, st, Wire(env, pdus)), AfterAll(env, v, pdus))
    decreases |pdus|
  {
    if pdus != [] {
      var wire := Encode(env, pdus[0]);
      if v.end.None? {
        PduAgrees(env, st, v, pdus[0]);
      } else {
        FeedEnded(env, st, wire);
      }
      WireAgrees(env, Feed(env, st, wire), After(env, v, pdus[0]), pdus[1..]);
      FeedAppend(env, st, wire, Wire(env, pdus[1..]));
    }
  }

  /**
    Whatever a host sends: once all of it has been received, or as much as ended
    the connection, the outcome is the one its PDUs call for.
   */
  lemma StreamIsServed(env: Env, seen: seq<byte>, pdus: seq<HostPdu>)
    requires Composes(env.crc) && AllEncodable(env, pdus) && seen <= Wire(env, pdus)
    requires seen == Wire(env, pdus) || Feed(env, Start, seen).phase.Ended?
    ensures var st := Feed(env, Start, seen); Served(st.phase, st.events, AfterAll(env, Fresh, pdus))
  {
    assert Agrees(Start, Fresh);
    WireAgrees(env, Start, Fresh, pdus);
    if seen != Wire(env, pdus) {
      var rest := Wire(env, pdus)[|seen|..];
      assert Wire(env, pdus) == seen + rest;
      FeedAppend(env, Start, seen, rest);
      FeedEnded(env, Feed(env, Start, seen), rest);
    }
  }

  /** The receive path over a stream cut into windows. */
  function FeedAll(env: Env, st: St, windows: seq<seq<byte>>): St
    decreases |windows|
  {
    if windows == [] then st else FeedAll(env, Feed(env, st, windows[0]), windows[1..])
  }

  lemma {:induction false} WindowsDoNotMatter(env: Env, st: St, windows: seq<seq<byte>>)
    ensures FeedAll(env, st, windows) == Feed(env, st, Flatten(windows))
    decreases |windows|
  {
    if windows != [] {
      FeedAppend(env, st, windows[0], Flatten(windows[1..]));
      WindowsDoNotMatter(env, Feed(env, st, windows[0]), windows[1..]);
    }
  }

  /**
    Any PDUs, however their bytes are cut into windows, whichever payloads stay
    in ring memory and whatever stale bytes the leases held: the receive path
    does exactly what they call for, in order, and ends exactly where and why
    they do.
   */
  lemma HostIsServed(env: Env, pdus: seq<HostPdu>, windows: seq<seq<byte>>)
    requires Composes(env.crc) && AllEncodable(env, pdus) && Flatten(windows) == Wire(env, pdus)
    ensures var st := FeedAll(env, Start, windows); Served(st.phase, st.events, AfterAll(env, Fresh, pdus))
  {
    WindowsDoNotMatter(env, Start, windows);
    StreamIsServed(env, Flatten(windows), pdus);
  }

  // ----- which hosts stay connected -----

  /** The host keeps to the protocol, and there is a tag for its command. */
  predicate Conforms(env: Env, v: View, pdu: HostPdu) {
    match pdu
    case Cmd(cmd, data, _) =>
      && env.tags(v.claims) !in v.open && env.tags(v.claims) < env.nslots
      && |data| <= 0x2_0000 && (data == [] && LeftResident(cmd) ==> cmd.length <= 0x2_0000)
    case Chunk(cid, ttag, offset, data, last, sum) =>
      && ttag < env.nslots && Continues(v, cid, ttag, offset, data)
      && (last && !Garbled(env, data, sum) ==> offset + |data| == v.open[ttag].cmd.length)
    case _ => false
  }

  predicate AllConform(env: Env, v: View, pdus: seq<HostPdu>)
    decreases |pdus|
  {
    pdus != [] ==> Conforms(env, v, pdus[0]) && AllConform(env, After(env, v, pdus[0]), pdus[1..])
  }

  lemma {:induction false} EndStays(env: Env, v: View, pdus: seq<HostPdu>)
    requires v.end.Some?
    ensures AfterAll(env, v, pdus) == v
    decreases |pdus|
  {
    if pdus != [] {
      EndStays(env, v, pdus[1..]);
    }
  }

  /** The connection survives the stream exactly if every PDU conforms; a digest mismatch is not a reason to end it. */
  lemma {:induction false} StaysOpenIff(env: Env, v: View, pdus: seq<HostPdu>)
    requires v.end.None?
    ensures AfterAll(env, v, pdus).end.None? <==> AllConform(env, v, pdus)
    decreases |pdus|
  {
    if pdus != [] {
      var v1 := After(env, v, pdus[0]);
      assert v1.end.None? <==> Conforms(env, v, pdus[0]);
      if v1.end.None? {
        StaysOpenIff(env, v1, pdus[1..]);
      } else {
        EndStays(env, v1, pdus[1..]);
      }
    }
  }
}
