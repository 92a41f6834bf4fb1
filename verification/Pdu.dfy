/**
  NVMe/TCP PDU headers: the encoders and the incremental decoder (NVM Express
  TCP Transport Specification 1.0, section 3.6.2).
 */
module Pdu {
  import opened Common
  import opened Digest

  type u16 = x: int | 0 <= x < 0x1_0000

  /** A 64-byte submission queue entry. */
  type Sqe = s: seq<byte> | |s| == 64 witness seq(64, _ => 0)

  /** A 16-byte completion queue entry. */
  type Cqe = s: seq<byte> | |s| == 16 witness seq(16, _ => 0)

  // ----- little-endian fields -----

  function ToLe16(x: u16): seq<byte> {
    [x % 256, x / 256]
  }

  function ToLe32(x: u32): seq<byte> {
    [x % 256, x / 256 % 256, x / 0x1_0000 % 256, x / 0x100_0000]
  }

  function Le16(b: seq<byte>, at: nat): u16
    requires at + 2 <= |b|
  {
    (b[at] as int) + 256 * (b[at + 1] as int)
  }

  function Le32(b: seq<byte>, at: nat): u32
    requires at + 4 <= |b|
  {
    (b[at] as int) + 256 * (b[at + 1] as int) + 0x1_0000 * (b[at + 2] as int) + 0x100_0000 * (b[at + 3] as int)
  }

  lemma Le16RoundTrip(pre: seq<byte>, x: u16, post: seq<byte>)
    ensures Le16(pre + ToLe16(x) + post, |pre|) == x
  {
    var b := pre + ToLe16(x) + post;
    assert b[|pre|] == x % 256 && b[|pre| + 1] == x / 256;
  }

  lemma Le32Digits(x: u32)
    ensures x % 256 + 256 * (x / 256 % 256) + 0x1_0000 * (x / 0x1_0000 % 256) + 0x100_0000 * (x / 0x100_0000) == x
  {
  }

  lemma Le32RoundTrip(pre: seq<byte>, x: u32, post: seq<byte>)
    ensures Le32(pre + ToLe32(x) + post, |pre|) == x
  {
    var b := pre + ToLe32(x) + post;
    assert b[|pre|] == x % 256 && b[|pre| + 1] == x / 256 % 256;
    assert b[|pre| + 2] == x / 0x1_0000 % 256 && b[|pre| + 3] == x / 0x100_0000;
    Le32Digits(x);
  }

  /** The bytes are the only ones that read so. */
  lemma Le32Bytes(b: seq<byte>, at: nat)
    requires at + 4 <= |b|
    ensures ToLe32(Le32(b, at)) == b[at..at + 4]
  {
    Digits(b[at], b[at + 1], b[at + 2], b[at + 3], Le32(b, at));
  }

  lemma LowByte(r: nat, q: nat)
    requires r < 256
    ensures (r + 256 * q) % 256 == r && (r + 256 * q) / 256 == q
  {
  }

  lemma LowHalf(r: nat, q: nat)
    requires r < 0x1_0000
    ensures (r + 0x1_0000 * q) / 0x1_0000 == q
  {
  }

  lemma LowThree(r: nat, q: nat)
    requires r < 0x100_0000
    ensures (r + 0x100_0000 * q) / 0x100_0000 == q
  {
  }

  lemma Digits(a: nat, b: nat, c: nat, d: nat, x: nat)
    requires a < 256 && b < 256 && c < 256 && x == a + 256 * b + 0x1_0000 * c + 0x100_0000 * d
    ensures x % 256 == a && x / 256 % 256 == b && x / 0x1_0000 % 256 == c && x / 0x100_0000 == d
  {
    LowByte(a, b + 256 * c + 0x1_0000 * d);
    LowByte(b, c + 256 * d);
    LowHalf(a + 256 * b, c + 256 * d);
    LowByte(c, d);
    LowThree(a + 256 * b + 0x1_0000 * c, d);
  }

  // ----- constants -----

  const ICREQ: byte := 0
  const ICRESP: byte := 1
  const H2C_TERM: byte := 2
  const C2H_TERM: byte := 3
  const CAPSULE_CMD: byte := 4
  const CAPSULE_RESP: byte := 5
  const H2C_DATA: byte := 6
  const C2H_DATA: byte := 7
  const R2T_PDU: byte := 9

  const HDGST: byte := 1
  const DDGST: byte := 2
  const DATA_LAST: byte := 4
  const DATA_SUCCESS: byte := 8

  const INVALID_PDU_HDR := 1
  const PDU_SEQ_ERR := 2
  const HDR_DIGEST_ERR := 3
  const DATA_OUT_OF_RANGE := 4
  const DATA_LIMIT_EXCEEDED := 5

  /** 32 MiB: the protocol-sanity bound on any PDU. */
  const MAX_PLEN: nat := 0x200_0000

  datatype PduError = PduError(fes: nat, fei: nat)

  function HdrField(offset: nat): PduError {
    PduError(INVALID_PDU_HDR, offset)
  }

  function Flag(flags: byte, mask: byte): bool
    requires mask > 0
  {
    flags / mask % 2 == 1
  }

  function B(p: bool, v: byte): byte {
    if p then v else 0
  }

  // ----- decoding -----

  predicate Digestable(pduType: byte) {
    pduType != ICREQ && pduType != ICRESP && pduType != H2C_TERM && pduType != C2H_TERM
  }

  function ExpectedHlen(pduType: byte): Option<nat> {
    if pduType == ICREQ || pduType == ICRESP then Some(128)
    else if pduType == CAPSULE_CMD then Some(72)
    else if pduType == H2C_TERM || pduType == C2H_TERM || pduType == CAPSULE_RESP
            || pduType == H2C_DATA || pduType == C2H_DATA || pduType == R2T_PDU then Some(24)
    else None
  }

  /** The PDU length a fixed-size PDU must carry. */
  function ExactPlen(pduType: byte, headerWire: nat): Option<nat> {
    if pduType == ICREQ || pduType == ICRESP then Some(128)
    else if pduType == CAPSULE_RESP || pduType == R2T_PDU then Some(headerWire)
    else None
  }

  /** Total header bytes on the wire, from the fields of a common header. */
  function LenFrom(hdrDigest: bool, pduType: byte, flags: byte, hlenField: byte, plen: nat): Result<nat, PduError> {
    match ExpectedHlen(pduType)
    case None => Err(HdrField(0))
    case Some(hlen) =>
      if hlenField != hlen then Err(HdrField(2))
      else
        var hdgst := Digestable(pduType) && hdrDigest;
        if Flag(flags, HDGST) && !hdgst then Err(HdrField(1))
        else
          var wire := hlen + if hdgst then 4 else 0;
          if plen < wire || plen > MAX_PLEN then Err(HdrField(4))
          else if ExactPlen(pduType, wire).Some? && ExactPlen(pduType, wire).value != plen then Err(HdrField(4))
          else if Flag(flags, DDGST) && plen < wire + 5 then Err(HdrField(4))
          else Ok(wire)
  }

  /** Validate the first eight bytes of a header; its total length on the wire. */
  function HeaderLen(hdrDigest: bool, h: seq<byte>): Result<nat, PduError>
    requires |h| >= 8
  {
    LenFrom(hdrDigest, h[0], h[1], h[2], Le32(h, 4))
  }

  datatype PduKind =
    | IcReq(pfv: u16, hpda: byte, digest: byte, maxr2t: u32)
    | IcResp(pfv: u16, cpda: byte, digest: byte, maxdata: u32)
    | H2CTerm(fes: u16, fei: u32)
    | CapsuleCmd(sqe: Sqe)
    | CapsuleResp(cqe: Cqe)
    | H2CData(cid: u16, ttag: u16, offset: u32, length: u32, last: bool)
    | C2HData(cid: u16, offset: u32, length: u32, last: bool, success: bool)
    | R2T(cid: u16, ttag: u16, offset: u32, length: u32)

  /** A decoded header; `dataLen` payload bytes, then 4 digest bytes if `ddgst`, follow. */
  datatype Decoded = Decoded(kind: PduKind, dataLen: nat, ddgst: bool)

  /** All header bytes have arrived. */
  predicate Complete(hdrDigest: bool, h: seq<byte>) {
    |h| >= 8 && HeaderLen(hdrDigest, h) == Ok(|h|)
  }

  /**
    Validate and parse a complete header. That this is well defined is the
    claim that the payload length never underflows, whatever was received.
   */
  function Take(crc: Crc, hdrDigest: bool, h: seq<byte>): Result<Decoded, PduError>
    requires Complete(hdrDigest, h)
  {
    var hlen := h[2];
    var hdgst := Digestable(h[0]) && hdrDigest;
    if hdgst && Le32(h, hlen) != crc(0, h[..hlen]) then Err(PduError(HDR_DIGEST_ERR, 0))
    else
      var ddgst := Digestable(h[0]) && Flag(h[1], DDGST);
      var wire := hlen + if hdgst then 4 else 0;
      var plen := Le32(h, 4);
      var dataLen: nat := plen - wire - if ddgst then 4 else 0;
      if h[3] != 0 && h[3] != wire then Err(HdrField(3))
      else if h[0] == ICREQ then Ok(Decoded(IcReq(Le16(h, 8), h[10], h[11], Le32(h, 12)), dataLen, ddgst))
      else if h[0] == ICRESP then Ok(Decoded(IcResp(Le16(h, 8), h[10], h[11], Le32(h, 12)), dataLen, ddgst))
      else if h[0] == H2C_TERM || h[0] == C2H_TERM then
        if plen > 152 then Err(HdrField(4)) else Ok(Decoded(H2CTerm(Le16(h, 8), Le32(h, 10)), dataLen, ddgst))
      else if h[0] == CAPSULE_CMD then Ok(Decoded(CapsuleCmd(h[8..72]), dataLen, ddgst))
      else if h[0] == CAPSULE_RESP then Ok(Decoded(CapsuleResp(h[8..24]), dataLen, ddgst))
      else if h[0] == H2C_DATA then
        if Le32(h, 16) != dataLen then Err(HdrField(12))
        else Ok(Decoded(H2CData(Le16(h, 8), Le16(h, 10), Le32(h, 12), Le32(h, 16), Flag(h[1], DATA_LAST)), dataLen, ddgst))
      else if h[0] == C2H_DATA then
        Ok(Decoded(C2HData(Le16(h, 8), Le32(h, 12), Le32(h, 16), Flag(h[1], DATA_LAST), Flag(h[1], DATA_SUCCESS)), dataLen, ddgst))
      else Ok(Decoded(R2T(Le16(h, 8), Le16(h, 10), Le32(h, 12), Le32(h, 16)), dataLen, ddgst))
  }

  // ----- encoding -----

  function Common8(pduType: byte, flags: byte, hlen: byte, pdo: byte, plen: u32): seq<byte> {
    [pduType, flags, hlen, pdo] + ToLe32(plen)
  }

  function WithHdgst(crc: Crc, h: seq<byte>, hdgst: bool): seq<byte> {
    if hdgst then h + ToLe32(crc(0, h)) else h
  }

  function HdgstLen(hdgst: bool): nat {
    if hdgst then 4 else 0
  }

  function Zeros(n: nat): (z: seq<byte>)
    ensures |z| == n
  {
    seq(n, _ => 0)
  }

  function DigestBits(hdgst: bool, ddgst: bool): byte {
    B(hdgst, 1) + B(ddgst, 2)
  }

  function EncodeIcReq(hdgst: bool, ddgst: bool, maxr2t: u32): seq<byte> {
    Common8(ICREQ, 0, 128, 0, 128) + ToLe16(0) + [0, DigestBits(hdgst, ddgst)] + ToLe32(maxr2t) + Zeros(112)
  }

  function EncodeIcResp(hdgst: bool, ddgst: bool, maxdata: u32): seq<byte> {
    Common8(ICRESP, 0, 128, 0, 128) + ToLe16(0) + [0, DigestBits(hdgst, ddgst)] + ToLe32(maxdata) + Zeros(112)
  }

  function EncodeCapsuleCmd(crc: Crc, sqe: Sqe, hdgst: bool, dataLen: nat, ddgst: bool): seq<byte>
    requires 72 + 4 + dataLen + 4 <= MAX_PLEN
  {
    var dd := ddgst && dataLen > 0;
    var plen := 72 + HdgstLen(hdgst) + dataLen + if dd then 4 else 0;
    var pdo := if dataLen > 0 then 72 + HdgstLen(hdgst) else 0;
    WithHdgst(crc, Common8(CAPSULE_CMD, B(hdgst, HDGST) + B(dd, DDGST), 72, pdo, plen) + sqe, hdgst)
  }

  function EncodeCapsuleResp(crc: Crc, cqe: Cqe, hdgst: bool): seq<byte>
  {
    WithHdgst(crc, Common8(CAPSULE_RESP, B(hdgst, HDGST), 24, 0, 24 + HdgstLen(hdgst)) + cqe, hdgst)
  }

  function DataFields(cid: u16, ttag: u16, offset: u32, length: u32): seq<byte> {
    ToLe16(cid) + ToLe16(ttag) + ToLe32(offset) + ToLe32(length) + Zeros(4)
  }

  function EncodeDataPdu(crc: Crc, pduType: byte, baseFlags: byte, cid: u16, ttag: u16, offset: u32, length: u32,
                         hdgst: bool, ddgst: bool): seq<byte>
    requires baseFlags <= 12 && baseFlags % 4 == 0
    requires 24 + 4 + length + 4 <= MAX_PLEN
  {
    var plen := 24 + HdgstLen(hdgst) + length + if ddgst then 4 else 0;
    var flags := baseFlags + B(hdgst, HDGST) + B(ddgst, DDGST);
    WithHdgst(crc, Common8(pduType, flags, 24, 24 + HdgstLen(hdgst), plen) + DataFields(cid, ttag, offset, length), hdgst)
  }

  function EncodeC2HData(crc: Crc, cid: u16, offset: u32, length: u32, last: bool, success: bool,
                         hdgst: bool, ddgst: bool): seq<byte>
    requires 24 + 4 + length + 4 <= MAX_PLEN
  {
    EncodeDataPdu(crc, C2H_DATA, B(last, DATA_LAST) + B(success, DATA_SUCCESS), cid, 0, offset, length, hdgst, ddgst)
  }

  function EncodeH2CData(crc: Crc, cid: u16, ttag: u16, offset: u32, length: u32, last: bool,
                         hdgst: bool, ddgst: bool): seq<byte>
    requires 24 + 4 + length + 4 <= MAX_PLEN
  {
    EncodeDataPdu(crc, H2C_DATA, B(last, DATA_LAST), cid, ttag, offset, length, hdgst, ddgst)
  }

  function EncodeR2T(crc: Crc, cid: u16, ttag: u16, offset: u32, length: u32, hdgst: bool): seq<byte> {
    WithHdgst(crc, Common8(R2T_PDU, B(hdgst, HDGST), 24, 0, 24 + HdgstLen(hdgst))
              + DataFields(cid, ttag, offset, length), hdgst)
  }

  function EncodeC2HTerm(error: PduError): seq<byte>
    requires error.fes < 0x1_0000 && error.fei < 0x1_0000_0000
  {
    Common8(C2H_TERM, 0, 24, 0, 24) + ToLe16(error.fes) + ToLe32(error.fei) + Zeros(10)
  }

  // ----- round trips -----

  /** The common header reads back field by field, whatever follows it. */
  lemma CommonReadsBack(pduType: byte, flags: byte, hlen: byte, pdo: byte, plen: u32, rest: seq<byte>)
    ensures var h := Common8(pduType, flags, hlen, pdo, plen) + rest;
            && |h| == 8 + |rest|
            && h[0] == pduType && h[1] == flags && h[2] == hlen && h[3] == pdo && Le32(h, 4) == plen
            && h[8..] == rest
  {
    var h := Common8(pduType, flags, hlen, pdo, plen) + rest;
    Le32RoundTrip([pduType, flags, hlen, pdo], plen, rest);
    assert h == [pduType, flags, hlen, pdo] + ToLe32(plen) + rest;
  }

  /** A header digest appended to a header verifies. */
  lemma HdgstVerifies(crc: Crc, h: seq<byte>, hdgst: bool)
    ensures var w := WithHdgst(crc, h, hdgst);
            && h <= w && |w| == |h| + HdgstLen(hdgst)
            && (hdgst ==> Le32(w, |h|) == crc(0, h))
  {
    if hdgst {
      Le32RoundTrip(h, crc(0, h), []);
      assert WithHdgst(crc, h, true) == h + ToLe32(crc(0, h)) + [];
    }
  }

  lemma DataFieldsReadBack(pre: seq<byte>, cid: u16, ttag: u16, offset: u32, length: u32, post: seq<byte>)
    requires |pre| == 8
    ensures var h := pre + DataFields(cid, ttag, offset, length) + post;
            && |h| == 24 + |post|
            && Le16(h, 8) == cid && Le16(h, 10) == ttag && Le32(h, 12) == offset && Le32(h, 16) == length
  {
    var h := pre + DataFields(cid, ttag, offset, length) + post;
    var tail := Zeros(4) + post;
    Le16RoundTrip(pre, cid, ToLe16(ttag) + ToLe32(offset) + ToLe32(length) + tail);
    assert h == pre + ToLe16(cid) + (ToLe16(ttag) + ToLe32(offset) + ToLe32(length) + tail);
    Le16RoundTrip(pre + ToLe16(cid), ttag, ToLe32(offset) + ToLe32(length) + tail);
    assert h == (pre + ToLe16(cid)) + ToLe16(ttag) + (ToLe32(offset) + ToLe32(length) + tail);
    Le32RoundTrip(pre + ToLe16(cid) + ToLe16(ttag), offset, ToLe32(length) + tail);
    assert h == (pre + ToLe16(cid) + ToLe16(ttag)) + ToLe32(offset) + (ToLe32(length) + tail);
    Le32RoundTrip(pre + ToLe16(cid) + ToLe16(ttag) + ToLe32(offset), length, tail);
    assert h == (pre + ToLe16(cid) + ToLe16(ttag) + ToLe32(offset)) + ToLe32(length) + tail;
  }

  /** Facts shared by every digestable header `Common8(..) + body`, digest appended. */
  lemma HeaderReadsBack(crc: Crc, pduType: byte, flags: byte, pdo: byte, plen: u32, body: seq<byte>, hdgst: bool)
    requires 8 + |body| < 256
    ensures var h := WithHdgst(crc, Common8(pduType, flags, 8 + |body|, pdo, plen) + body, hdgst);
            && |h| == 8 + |body| + HdgstLen(hdgst)
            && h[0] == pduType && h[1] == flags && h[2] == 8 + |body| && h[3] == pdo && Le32(h, 4) == plen
            && h[8..8 + |body|] == body
            && (hdgst ==> Le32(h, 8 + |body|) == crc(0, h[..8 + |body|]))
  {
    var c := Common8(pduType, flags, 8 + |body|, pdo, plen);
    var h := WithHdgst(crc, c + body, hdgst);
    HdgstVerifies(crc, c + body, hdgst);
    assert h[..8 + |body|] == c + body;
    CommonReadsBack(pduType, flags, 8 + |body|, pdo, plen, h[8..]);
    assert h == c + h[8..];
  }

  lemma FlagBits(last: bool, success: bool, hdgst: bool, ddgst: bool)
    ensures var flags := B(last, DATA_LAST) + B(success, DATA_SUCCESS) + B(hdgst, HDGST) + B(ddgst, DDGST);
            && Flag(flags, HDGST) == hdgst && Flag(flags, DDGST) == ddgst
            && Flag(flags, DATA_LAST) == last && Flag(flags, DATA_SUCCESS) == success
  {
  }

  /** A well-formed digestable common header is accepted. */
  lemma LenAccepts(hdgst: bool, h: seq<byte>, hlen: nat)
    requires |h| >= 8 && ExpectedHlen(h[0]) == Some(hlen) && h[2] == hlen && Digestable(h[0])
    requires Flag(h[1], HDGST) == hdgst
    requires var wire := hlen + HdgstLen(hdgst);
             && wire <= Le32(h, 4) <= MAX_PLEN
             && (ExactPlen(h[0], wire) == None || Le32(h, 4) == wire)
             && (Flag(h[1], DDGST) ==> wire + 5 <= Le32(h, 4))
    ensures HeaderLen(hdgst, h) == Ok(hlen + HdgstLen(hdgst))
  {
  }

  /** `h` is an accepted command capsule header. */
  ghost predicate IsCapsuleHeader(crc: Crc, hdgst: bool, h: seq<byte>, sqe: Sqe, dataLen: nat, dd: bool) {
    var wire := 72 + HdgstLen(hdgst);
    && |h| == wire && h[0] == CAPSULE_CMD && h[2] == 72 && h[8..72] == sqe
    && Flag(h[1], HDGST) == hdgst && Flag(h[1], DDGST) == dd
    && h[3] == (if dataLen > 0 then wire else 0) && Le32(h, 4) == wire + dataLen + (if dd then 4 else 0)
    && (hdgst ==> Le32(h, 72) == crc(0, h[..72]))
  }

  lemma CapsuleLayout(crc: Crc, sqe: Sqe, hdgst: bool, dataLen: nat, ddgst: bool)
    requires 72 + 4 + dataLen + 4 <= MAX_PLEN
    ensures IsCapsuleHeader(crc, hdgst, EncodeCapsuleCmd(crc, sqe, hdgst, dataLen, ddgst), sqe, dataLen, ddgst && dataLen > 0)
  {
    var dd := ddgst && dataLen > 0;
    var plen := 72 + HdgstLen(hdgst) + dataLen + if dd then 4 else 0;
    var pdo := if dataLen > 0 then 72 + HdgstLen(hdgst) else 0;
    HeaderReadsBack(crc, CAPSULE_CMD, B(hdgst, HDGST) + B(dd, DDGST), pdo, plen, sqe, hdgst);
    FlagBits(false, false, hdgst, dd);
  }

  lemma CapsuleIsTaken(crc: Crc, hdgst: bool, h: seq<byte>, sqe: Sqe, dataLen: nat, dd: bool)
    requires IsCapsuleHeader(crc, hdgst, h, sqe, dataLen, dd) && 72 + 4 + dataLen + 4 <= MAX_PLEN && (dd ==> dataLen > 0)
    ensures Complete(hdgst, h) && Take(crc, hdgst, h) == Ok(Decoded(CapsuleCmd(sqe), dataLen, dd))
  {
    LenAccepts(hdgst, h, 72);
  }

  lemma CapsuleCmdRoundTrip(crc: Crc, sqe: Sqe, hdgst: bool, dataLen: nat, ddgst: bool)
    requires 72 + 4 + dataLen + 4 <= MAX_PLEN
    ensures var h := EncodeCapsuleCmd(crc, sqe, hdgst, dataLen, ddgst);
            && Complete(hdgst, h)
            && Take(crc, hdgst, h) == Ok(Decoded(CapsuleCmd(sqe), dataLen, ddgst && dataLen > 0))
  {
    CapsuleLayout(crc, sqe, hdgst, dataLen, ddgst);
    CapsuleIsTaken(crc, hdgst, EncodeCapsuleCmd(crc, sqe, hdgst, dataLen, ddgst), sqe, dataLen, ddgst && dataLen > 0);
  }

  lemma CapsuleRespRoundTrip(crc: Crc, cqe: Cqe, hdgst: bool)
    ensures var h := EncodeCapsuleResp(crc, cqe, hdgst);
            Complete(hdgst, h) && Take(crc, hdgst, h) == Ok(Decoded(CapsuleResp(cqe), 0, false))
  {
    HeaderReadsBack(crc, CAPSULE_RESP, B(hdgst, HDGST), 0, 24 + HdgstLen(hdgst), cqe, hdgst);
  }

  /** The 24-byte layout shared by H2CData, C2HData and R2T. */
  lemma DataLayout(crc: Crc, pduType: byte, flags: byte, pdo: byte, plen: u32,
                   cid: u16, ttag: u16, offset: u32, length: u32, hdgst: bool)
    ensures var h := WithHdgst(crc, Common8(pduType, flags, 24, pdo, plen) + DataFields(cid, ttag, offset, length), hdgst);
            && |h| == 24 + HdgstLen(hdgst)
            && h[0] == pduType && h[1] == flags && h[2] == 24 && h[3] == pdo && Le32(h, 4) == plen
            && (hdgst ==> Le32(h, 24) == crc(0, h[..24]))
            && Le16(h, 8) == cid && Le16(h, 10) == ttag && Le32(h, 12) == offset && Le32(h, 16) == length
  {
    var body := DataFields(cid, ttag, offset, length);
    var h := WithHdgst(crc, Common8(pduType, flags, 24, pdo, plen) + body, hdgst);
    HeaderReadsBack(crc, pduType, flags, pdo, plen, body, hdgst);
    DataFieldsReadBack(h[..8], cid, ttag, offset, length, h[24..]);
    assert h == h[..8] + body + h[24..];
  }

  /** `h` carries the fields of an accepted data PDU header. */
  ghost predicate IsDataHeader(crc: Crc, hdgst: bool, h: seq<byte>, ddgst: bool, length: nat) {
    && |h| == 24 + HdgstLen(hdgst) && h[2] == 24 && h[3] == 24 + HdgstLen(hdgst)
    && Flag(h[1], HDGST) == hdgst && Flag(h[1], DDGST) == ddgst
    && Le32(h, 4) == 24 + HdgstLen(hdgst) + length + (if ddgst then 4 else 0) <= MAX_PLEN
    && (ddgst ==> length > 0)
    && (hdgst ==> Le32(h, 24) == crc(0, h[..24]))
  }

  lemma TakesH2CData(crc: Crc, hdgst: bool, h: seq<byte>, ddgst: bool, length: nat)
    requires IsDataHeader(crc, hdgst, h, ddgst, length) && h[0] == H2C_DATA && Le32(h, 16) == length
    ensures Complete(hdgst, h)
    ensures Take(crc, hdgst, h) ==
      Ok(Decoded(H2CData(Le16(h, 8), Le16(h, 10), Le32(h, 12), length, Flag(h[1], DATA_LAST)), length, ddgst))
  {
    LenAccepts(hdgst, h, 24);
  }

  lemma TakesC2HData(crc: Crc, hdgst: bool, h: seq<byte>, ddgst: bool, length: nat)
    requires IsDataHeader(crc, hdgst, h, ddgst, length) && h[0] == C2H_DATA && Le32(h, 16) == length
    ensures Complete(hdgst, h)
    ensures Take(crc, hdgst, h) ==
      Ok(Decoded(C2HData(Le16(h, 8), Le32(h, 12), length, Flag(h[1], DATA_LAST), Flag(h[1], DATA_SUCCESS)), length, ddgst))
  {
    LenAccepts(hdgst, h, 24);
  }

  /** A data digest is only ever announced for a non-empty payload. */
  lemma DataHeaderEncodes(crc: Crc, pduType: byte, last: bool, success: bool, cid: u16, ttag: u16,
                          offset: u32, length: u32, hdgst: bool, ddgst: bool)
    requires 24 + 4 + length + 4 <= MAX_PLEN && (ddgst ==> length > 0)
    ensures var base := B(last, DATA_LAST) + B(success, DATA_SUCCESS);
            var h := EncodeDataPdu(crc, pduType, base, cid, ttag, offset, length, hdgst, ddgst);
            && IsDataHeader(crc, hdgst, h, ddgst, length) && h[0] == pduType
            && Flag(h[1], DATA_LAST) == last && Flag(h[1], DATA_SUCCESS) == success
            && Le16(h, 8) == cid && Le16(h, 10) == ttag && Le32(h, 12) == offset && Le32(h, 16) == length
  {
    var flags := B(last, DATA_LAST) + B(success, DATA_SUCCESS) + B(hdgst, HDGST) + B(ddgst, DDGST);
    DataLayout(crc, pduType, flags, 24 + HdgstLen(hdgst),
               24 + HdgstLen(hdgst) + length + if ddgst then 4 else 0, cid, ttag, offset, length, hdgst);
    FlagBits(last, success, hdgst, ddgst);
  }

  lemma H2CDataRoundTrip(crc: Crc, cid: u16, ttag: u16, offset: u32, length: u32, last: bool, hdgst: bool, ddgst: bool)
    requires 24 + 4 + length + 4 <= MAX_PLEN && (ddgst ==> length > 0)
    ensures var h := EncodeH2CData(crc, cid, ttag, offset, length, last, hdgst, ddgst);
            && Complete(hdgst, h)
            && Take(crc, hdgst, h) == Ok(Decoded(H2CData(cid, ttag, offset, length, last), length, ddgst))
  {
    DataHeaderEncodes(crc, H2C_DATA, last, false, cid, ttag, offset, length, hdgst, ddgst);
    TakesH2CData(crc, hdgst, EncodeH2CData(crc, cid, ttag, offset, length, last, hdgst, ddgst), ddgst, length);
  }

  lemma C2HDataRoundTrip(crc: Crc, cid: u16, offset: u32, length: u32, last: bool, success: bool, hdgst: bool, ddgst: bool)
    requires 24 + 4 + length + 4 <= MAX_PLEN && (ddgst ==> length > 0)
    ensures var h := EncodeC2HData(crc, cid, offset, length, last, success, hdgst, ddgst);
            && Complete(hdgst, h)
            && Take(crc, hdgst, h) == Ok(Decoded(C2HData(cid, offset, length, last, success), length, ddgst))
  {
    DataHeaderEncodes(crc, C2H_DATA, last, success, cid, 0, offset, length, hdgst, ddgst);
    TakesC2HData(crc, hdgst, EncodeC2HData(crc, cid, offset, length, last, success, hdgst, ddgst), ddgst, length);
  }

  lemma R2TRoundTrip(crc: Crc, cid: u16, ttag: u16, offset: u32, length: u32, hdgst: bool)
    ensures var h := EncodeR2T(crc, cid, ttag, offset, length, hdgst);
            Complete(hdgst, h) && Take(crc, hdgst, h) == Ok(Decoded(R2T(cid, ttag, offset, length), 0, false))
  {
    DataLayout(crc, R2T_PDU, B(hdgst, HDGST), 0, 24 + HdgstLen(hdgst), cid, ttag, offset, length, hdgst);
  }

  lemma C2HTermRoundTrip(crc: Crc, error: PduError, hdrDigest: bool)
    requires error.fes < 0x1_0000 && error.fei < 0x1_0000_0000
    ensures var h := EncodeC2HTerm(error);
            Complete(hdrDigest, h) && Take(crc, hdrDigest, h) == Ok(Decoded(H2CTerm(error.fes, error.fei), 0, false))
  {
    var h := EncodeC2HTerm(error);
    var body := ToLe16(error.fes) + ToLe32(error.fei) + Zeros(10);
    HeaderReadsBack(crc, C2H_TERM, 0, 0, 24, body, false);
    assert h == Common8(C2H_TERM, 0, 24, 0, 24) + body;
    Le16RoundTrip(h[..8], error.fes, h[10..]);
    assert h == h[..8] + ToLe16(error.fes) + h[10..];
    Le32RoundTrip(h[..10], error.fei, h[14..]);
    assert h == h[..10] + ToLe32(error.fei) + h[14..];
  }

  /** The connection-initialisation pair share one 128-byte layout. */
  lemma IcLayout(pduType: byte, digest: byte, word: u32)
    requires pduType == ICREQ || pduType == ICRESP
    ensures var h := Common8(pduType, 0, 128, 0, 128) + ToLe16(0) + [0, digest] + ToLe32(word) + Zeros(112);
            && |h| == 128 && h[0] == pduType && h[1] == 0 && h[2] == 128 && h[3] == 0 && Le32(h, 4) == 128
            && Le16(h, 8) == 0 && h[10] == 0 && h[11] == digest && Le32(h, 12) == word
  {
    var c := Common8(pduType, 0, 128, 0, 128);
    var h := c + ToLe16(0) + [0, digest] + ToLe32(word) + Zeros(112);
    CommonReadsBack(pduType, 0, 128, 0, 128, h[8..]);
    assert h == c + h[8..];
    Le32RoundTrip(c + ToLe16(0) + [0, digest], word, Zeros(112));
  }

  lemma IcRoundTrip(crc: Crc, hdgst: bool, ddgst: bool, word: u32, hdrDigest: bool)
    ensures var h := EncodeIcReq(hdgst, ddgst, word);
            && Complete(hdrDigest, h)
            && Take(crc, hdrDigest, h) == Ok(Decoded(IcReq(0, 0, DigestBits(hdgst, ddgst), word), 0, false))
    ensures var h := EncodeIcResp(hdgst, ddgst, word);
            && Complete(hdrDigest, h)
            && Take(crc, hdrDigest, h) == Ok(Decoded(IcResp(0, 0, DigestBits(hdgst, ddgst), word), 0, false))
  {
    IcLayout(ICREQ, DigestBits(hdgst, ddgst), word);
    IcLayout(ICRESP, DigestBits(hdgst, ddgst), word);
  }
}
