/**
  Which headers are accepted, field by field, and what an accepted one says:
  the NVMe/TCP header rules stated on the bytes, with the decoder's verdict
  proved to follow them both ways (NVM Express TCP Transport Specification 1.0,
  section 3.6.2).
 */
module PduRules {
  import opened Common
  import opened Digest
  import opened Pdu
  import opened PduDecoders
  import opened RecvMachine
  import opened RecvChunks
  import opened HostStream

  // ----- the first eight bytes -----

  /** PDU type and header length. */
  predicate Sized(t: byte, len: nat) {
    || (t <= 1 && len == 128)
    || (t == 4 && len == 72)
    || ((t == 2 || t == 3 || (5 <= t <= 7) || t == 9) && len == 24)
  }

  function Word(h: seq<byte>, at: nat): nat
    requires at + 4 <= |h|
  {
    (h[at] as int) + 256 * ((h[at + 1] as int) + 256 * ((h[at + 2] as int) + 256 * (h[at + 3] as int)))
  }

  function Half(h: seq<byte>, at: nat): nat
    requires at + 2 <= |h|
  {
    (h[at] as int) + 256 * (h[at + 1] as int)
  }

  /** Header digests were negotiated, and this PDU, not being an initialisation or a termination, carries one. */
  predicate Signed(hd: bool, h: seq<byte>)
    requires h != []
  {
    hd && h[0] >= 4
  }

  /** Bit 0 of the flags announces a header digest, bit 1 a data digest. */
  predicate SaysHeaderDigest(h: seq<byte>)
    requires |h| >= 2
  {
    h[1] % 2 == 1
  }

  predicate SaysDataDigest(h: seq<byte>)
    requires |h| >= 2
  {
    h[1] / 2 % 2 == 1
  }

  /** The eight bytes begin a header of `n` bytes, digest included. */
  ghost predicate Begins(hd: bool, h: seq<byte>, n: nat)
    requires |h| >= 8
  {
    && Sized(h[0], h[2]) && n == h[2] + (if Signed(hd, h) then 4 else 0)
    && (SaysHeaderDigest(h) ==> Signed(hd, h))
    && n <= Word(h, 4) <= 32 * 1024 * 1024
    && (h[0] <= 1 || h[0] == 5 || h[0] == 9 ==> Word(h, 4) == n)
    && (SaysDataDigest(h) ==> n + 5 <= Word(h, 4))
  }

  /** The field to blame: the type, the header length, the flags, or the PDU length. */
  ghost function Blamed(hd: bool, h: seq<byte>): nat
    requires |h| >= 8
  {
    if !(h[0] <= 7 || h[0] == 9) then 0
    else if !Sized(h[0], h[2]) then 2
    else if SaysHeaderDigest(h) && !Signed(hd, h) then 1
    else 4
  }

  lemma BeginsIff(hd: bool, h: seq<byte>, n: nat)
    requires |h| >= 8
    ensures HeaderLen(hd, h) == Ok(n) <==> Begins(hd, h, n)
    ensures HeaderLen(hd, h).Err? ==> HeaderLen(hd, h).error == PduError(1, Blamed(hd, h))
  {
    assert Le32(h, 4) == Word(h, 4);
  }

  // ----- the whole header -----

  /** The digest that follows the header is the header's. */
  ghost predicate DigestChecks(crc: Crc, hd: bool, h: seq<byte>)
    requires |h| >= 8 && Begins(hd, h, |h|)
  {
    Signed(hd, h) ==> Word(h, h[2]) == crc(0, h[..h[2]])
  }

  /** Payload bytes after the header: what the PDU length leaves, without the data digest. */
  ghost function PayloadLen(hd: bool, h: seq<byte>): int
    requires |h| >= 8
  {
    Word(h, 4) - |h| - if h[0] >= 4 && SaysDataDigest(h) then 4 else 0
  }

  /** What is wrong with a complete header, if anything. */
  ghost function Fault(crc: Crc, hd: bool, h: seq<byte>): Option<PduError>
    requires |h| >= 8 && Begins(hd, h, |h|)
  {
    if !DigestChecks(crc, hd, h) then Some(PduError(3, 0))
    else if h[3] != 0 && h[3] != |h| then Some(PduError(1, 3))
    else if (h[0] == 2 || h[0] == 3) && Word(h, 4) > 152 then Some(PduError(1, 4))
    else if h[0] == 6 && Word(h, 16) != PayloadLen(hd, h) then Some(PduError(1, 12))
    else None
  }

  /** `kind` is what the bytes say. */
  ghost predicate Says(h: seq<byte>, kind: PduKind)
    requires |h| >= 24
  {
    match kind
    case IcReq(pfv, hpda, digest, maxr2t) =>
      h[0] == 0 && pfv == Half(h, 8) && hpda == h[10] && digest == h[11] && maxr2t == Word(h, 12)
    case IcResp(pfv, cpda, digest, maxdata) =>
      h[0] == 1 && pfv == Half(h, 8) && cpda == h[10] && digest == h[11] && maxdata == Word(h, 12)
    case H2CTerm(fes, fei) => (h[0] == 2 || h[0] == 3) && fes == Half(h, 8) && fei == Word(h, 10)
    case CapsuleCmd(sqe) => h[0] == 4 && |h| >= 72 && sqe == h[8..72]
    case CapsuleResp(cqe) => h[0] == 5 && cqe == h[8..24]
    case H2CData(cid, ttag, offset, length, last) =>
      && h[0] == 6 && cid == Half(h, 8) && ttag == Half(h, 10) && offset == Word(h, 12) && length == Word(h, 16)
      && (last <==> h[1] / 4 % 2 == 1)
    case C2HData(cid, offset, length, last, success) =>
      && h[0] == 7 && cid == Half(h, 8) && offset == Word(h, 12) && length == Word(h, 16)
      && (last <==> h[1] / 4 % 2 == 1) && (success <==> h[1] / 8 % 2 == 1)
    case R2T(cid, ttag, offset, length) =>
      h[0] == 9 && cid == Half(h, 8) && ttag == Half(h, 10) && offset == Word(h, 12) && length == Word(h, 16)
  }

  /** A complete header is taken exactly if nothing is wrong with it, and then it is what its bytes say. */
  lemma TakenIff(crc: Crc, hd: bool, h: seq<byte>)
    requires Complete(hd, h)
    ensures Begins(hd, h, |h|)
    ensures match Take(crc, hd, h)
            case Err(e) => Fault(crc, hd, h) == Some(e)
            case Ok(d) =>
              && Fault(crc, hd, h).None? && d.dataLen == PayloadLen(hd, h)
              && (d.ddgst <==> h[0] >= 4 && SaysDataDigest(h)) && Says(h, d.kind)
  {
    BeginsIff(hd, h, |h|);
    assert forall at: nat {:trigger Word(h, at)} :: at + 4 <= |h| ==> Le32(h, at) == Word(h, at);
    assert forall at: nat {:trigger Half(h, at)} :: at + 2 <= |h| ==> Le16(h, at) == Half(h, at);
  }

  // ----- on a connection -----

  /**
    Between PDUs, a complete header with a fault ends the connection with that
    fault, whatever else it says; in particular one whose digest is not its own.
   */
  lemma FaultEnds(env: Env, st: St, h: seq<byte>)
    requires st.phase == Header([]) && Complete(env.hdrDigest, h)
    ensures Begins(env.hdrDigest, h, |h|)
    ensures Fault(env.crc, env.hdrDigest, h).Some? ==>
            Feed(env, st, h) == st.(seen := st.seen + h, phase := Ended(Term(Fault(env.crc, env.hdrDigest, h).value)))
  {
    TakenIff(env.crc, env.hdrDigest, h);
    HeaderActs(env, st, h);
    CompleteIsNoError(env.hdrDigest, h);
  }

  lemma {:induction false} FewAreQuiet(hd: bool, got: seq<byte>, a: seq<byte>)
    requires |got| + |a| < 8
    ensures QuietThrough(FramingOf(hd), got, a)
    decreases |a|
  {
    if a != [] {
      FewAreQuiet(hd, got + [a[0]], a[1..]);
    }
  }

  /** Eight bytes that begin no header end the connection, naming the field. */
  lemma MisfitEnds(env: Env, st: St, h: seq<byte>)
    requires st.phase == Header([]) && |h| == 8 && (forall n: nat :: !Begins(env.hdrDigest, h, n))
    ensures Feed(env, st, h) == st.(seen := st.seen + h, phase := Ended(Term(PduError(1, Blamed(env.hdrDigest, h)))))
  {
    FewAreQuiet(env.hdrDigest, [], h[..7]);
    HeaderEnds(env, st, h);
    assert [] + h == h;
    var r := HeaderLen(env.hdrDigest, h);
    BeginsIff(env.hdrDigest, h, if r.Ok? then r.value else 0);
  }

  /** After PDUs that left the connection open, a faulty header ends it, and has no other effect. */
  lemma FaultAfterPdus(env: Env, pdus: seq<HostPdu>, h: seq<byte>)
    requires Composes(env.crc) && AllEncodable(env, pdus) && AllConform(env, Fresh, pdus)
    requires Complete(env.hdrDigest, h) && Begins(env.hdrDigest, h, |h|) && Fault(env.crc, env.hdrDigest, h).Some?
    ensures var st := Feed(env, Start, Wire(env, pdus) + h);
            && st.phase == Ended(Term(Fault(env.crc, env.hdrDigest, h).value))
            && EffectsAre(st.events, AfterAll(env, Fresh, pdus).effects)
  {
    StreamIsServed(env, Wire(env, pdus), pdus);
    StaysOpenIff(env, Fresh, pdus);
    FeedAppend(env, Start, Wire(env, pdus), h);
    FaultEnds(env, Feed(env, Start, Wire(env, pdus)), h);
  }
}
