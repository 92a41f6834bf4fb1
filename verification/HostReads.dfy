/**
  The other end of the send path: a host that decodes the wire finds exactly
  the responses, the read data and the R2Ts that were pushed, in push order.
 */
module HostReads {
  import opened Common
  import opened Digest
  import opened Pdu
  import opened PduDecoders
  import opened SendItems
  import opened Sender
  import SendSystem

  /** What a host makes of one PDU from the target. */
  datatype Seen =
    | SeenR2t(cid: u16, ttag: u16, offset: u32, length: u32)
    | SeenData(cid: u16, offset: u32, data: seq<byte>, last: bool, success: bool)
    | SeenResp(cqe: Cqe)

  datatype Next<T> = Next(value: T, rest: seq<byte>)

  // ----- decoding the wire -----

  ghost function NextHeader(cfg: Config, bytes: seq<byte>): Option<Next<Decoded>> {
    match Fed(FramingOf(cfg.hdrDigest), [], bytes)
    case Err(_) => None
    case Ok(p) =>
      if !Complete(cfg.hdrDigest, p.got) || p.used > |bytes| then None
      else
        match Take(cfg.crc, cfg.hdrDigest, p.got)
        case Err(_) => None
        case Ok(d) => Some(Next(d, bytes[p.used..]))
  }

  /** The payload behind a data header, with its digest checked if it has one. */
  ghost function Payload(cfg: Config, d: Decoded, rest: seq<byte>): Option<Next<seq<byte>>> {
    var trailer := if d.ddgst then 4 else 0;
    if |rest| < d.dataLen + trailer then None
    else if d.ddgst && Le32(rest, d.dataLen) != cfg.crc(0, rest[..d.dataLen]) then None
    else Some(Next(rest[..d.dataLen], rest[d.dataLen + trailer..]))
  }

  ghost function Body(cfg: Config, d: Decoded, rest: seq<byte>): Option<Next<Seen>> {
    match d.kind
    case R2T(cid, ttag, offset, length) => Some(Next(SeenR2t(cid, ttag, offset, length), rest))
    case CapsuleResp(cqe) => Some(Next(SeenResp(cqe), rest))
    case C2HData(cid, offset, length, last, success) =>
      (match Payload(cfg, d, rest)
       case None => None
       case Some(p) => Some(Next(SeenData(cid, offset, p.value, last, success), p.rest)))
    case _ => None
  }

  ghost function NextPdu(cfg: Config, bytes: seq<byte>): Option<Next<Seen>> {
    match NextHeader(cfg, bytes)
    case None => None
    case Some(h) => Body(cfg, h.value, h.rest)
  }

  /** Everything on the wire, or nothing if any of it does not decode. */
  ghost function Pdus(next: seq<byte> -> Option<Next<Seen>>, bytes: seq<byte>): Option<seq<Seen>>
    decreases |bytes|
  {
    if bytes == [] then Some([])
    else
      match next(bytes)
      case None => None
      case Some(n) =>
        if |n.rest| >= |bytes| then None
        else
          match Pdus(next, n.rest)
          case None => None
          case Some(more) => Some([n.value] + more)
  }

  ghost function Decoder(cfg: Config): seq<byte> -> Option<Next<Seen>> {
    (bytes: seq<byte>) => NextPdu(cfg, bytes)
  }

  // ----- what was pushed -----

  function FirstSeen(cfg: Config, w: Work): seq<Seen>
    requires w.Response?
  {
    if w.data == [] then [] else [SeenData(CqeCid(w.cqe), 0, w.data, true, Elides(cfg, w))]
  }

  function LastSeen(cfg: Config, w: Work): seq<Seen>
    requires w.Response?
  {
    if Elides(cfg, w) then [] else [SeenResp(w.cqe)]
  }

  /** An R2T; or the read data, then the completion unless the data carries it. */
  function SeenOf(cfg: Config, w: Work): seq<Seen>
    requires Sendable(w)
  {
    match w
    case R2t(tag, cid, offset, length) => [SeenR2t(cid, tag, offset, length)]
    case Response(_, _, _) => FirstSeen(cfg, w) + LastSeen(cfg, w)
  }

  function SeenAll(cfg: Config, works: seq<Work>): seq<Seen>
    requires forall i :: 0 <= i < |works| ==> Sendable(works[i])
  {
    if works == [] then [] else SeenOf(cfg, works[0]) + SeenAll(cfg, works[1..])
  }

  // ----- one PDU -----

  lemma HeaderReads(cfg: Config, h: seq<byte>, d: Decoded, rest: seq<byte>)
    requires Complete(cfg.hdrDigest, h) && Take(cfg.crc, cfg.hdrDigest, h) == Ok(d)
    ensures NextHeader(cfg, h + rest) == Some(Next(d, rest))
  {
    FedHeader(cfg.hdrDigest, h, rest);
    assert (h + rest)[|h|..] == rest;
  }

  lemma R2tReads(cfg: Config, w: Work, rest: seq<byte>)
    requires Sendable(w) && w.R2t?
    ensures NextPdu(cfg, Encode(cfg, w) + rest) == Some(Next(SeenR2t(w.cid, w.tag, w.offset, w.length), rest))
  {
    R2TRoundTrip(cfg.crc, w.cid, w.tag, w.offset, w.length, cfg.hdrDigest);
    HeaderReads(cfg, Encode(cfg, w), Decoded(R2T(w.cid, w.tag, w.offset, w.length), 0, false), rest);
  }

  lemma RespReads(cfg: Config, cqe: Cqe, rest: seq<byte>)
    ensures NextPdu(cfg, EncodeCapsuleResp(cfg.crc, cqe, cfg.hdrDigest) + rest) == Some(Next(SeenResp(cqe), rest))
  {
    CapsuleRespRoundTrip(cfg.crc, cqe, cfg.hdrDigest);
    HeaderReads(cfg, EncodeCapsuleResp(cfg.crc, cqe, cfg.hdrDigest), Decoded(CapsuleResp(cqe), 0, false), rest);
  }

  lemma PayloadReads(cfg: Config, d: Decoded, data: seq<byte>, rest: seq<byte>)
    requires d.dataLen == |data|
    ensures var trailer := if d.ddgst then ToLe32(cfg.crc(0, data)) else [];
            Payload(cfg, d, data + trailer + rest) == Some(Next(data, rest))
  {
    if d.ddgst {
      var all := data + ToLe32(cfg.crc(0, data)) + rest;
      Le32RoundTrip(data, cfg.crc(0, data), rest);
      assert all[..|data|] == data && all[|data| + 4..] == rest;
    } else {
      assert data + [] + rest == data + rest;
      assert (data + rest)[..|data|] == data && (data + rest)[|data|..] == rest;
    }
  }

  lemma BodyReads(cfg: Config, h: seq<byte>, d: Decoded, data: seq<byte>, rest: seq<byte>)
    requires Complete(cfg.hdrDigest, h) && Take(cfg.crc, cfg.hdrDigest, h) == Ok(d)
    requires d.kind.C2HData? && d.dataLen == |data|
    ensures var trailer := if d.ddgst then ToLe32(cfg.crc(0, data)) else [];
            NextPdu(cfg, h + (data + trailer + rest)) ==
              Some(Next(SeenData(d.kind.cid, d.kind.offset, data, d.kind.last, d.kind.success), rest))
  {
    var trailer := if d.ddgst then ToLe32(cfg.crc(0, data)) else [];
    HeaderReads(cfg, h, d, data + trailer + rest);
    PayloadReads(cfg, d, data, rest);
  }

  lemma Regroup(h: seq<byte>, data: seq<byte>, trailer: seq<byte>, rest: seq<byte>)
    ensures h + data + trailer + rest == h + (data + trailer + rest)
  {
  }

  lemma DataReads(cfg: Config, w: Work, rest: seq<byte>)
    requires Sendable(w) && w.Response? && w.data != []
    ensures NextPdu(cfg, DataPdu(cfg, w) + rest) ==
            Some(Next(SeenData(CqeCid(w.cqe), 0, w.data, true, Elides(cfg, w)), rest))
  {
    var success := Elides(cfg, w);
    var h := EncodeC2HData(cfg.crc, CqeCid(w.cqe), 0, |w.data|, true, success, cfg.hdrDigest, cfg.dataDigest);
    C2HDataRoundTrip(cfg.crc, CqeCid(w.cqe), 0, |w.data|, true, success, cfg.hdrDigest, cfg.dataDigest);
    BodyReads(cfg, h, Decoded(C2HData(CqeCid(w.cqe), 0, |w.data|, true, success), |w.data|, cfg.dataDigest), w.data, rest);
    Regroup(h, w.data, if cfg.dataDigest then ToLe32(cfg.crc(0, w.data)) else [], rest);
  }

  // ----- a whole wire -----

  /** One decoded PDU in front of the rest. */
  lemma OneMore(next: seq<byte> -> Option<Next<Seen>>, a: seq<byte>, s: Seen, rest: seq<byte>, more: seq<Seen>)
    requires a != [] && next(a + rest) == Some(Next(s, rest)) && Pdus(next, rest) == Some(more)
    ensures Pdus(next, a + rest) == Some([s] + more)
  {
  }

  lemma RespMore(cfg: Config, cqe: Cqe, rest: seq<byte>, more: seq<Seen>)
    requires Pdus(Decoder(cfg), rest) == Some(more)
    ensures Pdus(Decoder(cfg), EncodeCapsuleResp(cfg.crc, cqe, cfg.hdrDigest) + rest) == Some([SeenResp(cqe)] + more)
  {
    RespReads(cfg, cqe, rest);
    OneMore(Decoder(cfg), EncodeCapsuleResp(cfg.crc, cqe, cfg.hdrDigest), SeenResp(cqe), rest, more);
  }

  lemma DataMore(cfg: Config, w: Work, rest: seq<byte>, more: seq<Seen>)
    requires Sendable(w) && w.Response? && Pdus(Decoder(cfg), rest) == Some(more)
    ensures Pdus(Decoder(cfg), DataPdu(cfg, w) + rest) == Some(FirstSeen(cfg, w) + more)
  {
    if w.data == [] {
      assert [] + rest == rest && [] + more == more;
    } else {
      DataReads(cfg, w, rest);
      OneMore(Decoder(cfg), DataPdu(cfg, w), FirstSeen(cfg, w)[0], rest, more);
    }
  }

  lemma R2tMore(cfg: Config, w: Work, rest: seq<byte>, more: seq<Seen>)
    requires Sendable(w) && w.R2t? && Pdus(Decoder(cfg), rest) == Some(more)
    ensures Pdus(Decoder(cfg), Encode(cfg, w) + rest) == Some(SeenOf(cfg, w) + more)
  {
    R2tReads(cfg, w, rest);
    EncodesSomething(cfg, w);
    OneMore(Decoder(cfg), Encode(cfg, w), SeenR2t(w.cid, w.tag, w.offset, w.length), rest, more);
  }

  function Completion(cfg: Config, w: Work): seq<byte>
    requires w.Response?
  {
    if Elides(cfg, w) then [] else EncodeCapsuleResp(cfg.crc, w.cqe, cfg.hdrDigest)
  }

  lemma CompletionMore(cfg: Config, w: Work, rest: seq<byte>, more: seq<Seen>)
    requires Sendable(w) && w.Response? && Pdus(Decoder(cfg), rest) == Some(more)
    ensures Pdus(Decoder(cfg), Completion(cfg, w) + rest) == Some(LastSeen(cfg, w) + more)
  {
    if Elides(cfg, w) {
      assert [] + rest == rest && [] + more == more;
    } else {
      RespMore(cfg, w.cqe, rest, more);
    }
  }

  lemma ItemSplits(cfg: Config, w: Work, rest: seq<byte>, more: seq<Seen>)
    requires Sendable(w) && w.Response?
    ensures Encode(cfg, w) + rest == DataPdu(cfg, w) + (Completion(cfg, w) + rest)
    ensures SeenOf(cfg, w) + more == FirstSeen(cfg, w) + (LastSeen(cfg, w) + more)
  {
    Shift(DataPdu(cfg, w), Completion(cfg, w), rest);
    Shift(FirstSeen(cfg, w), LastSeen(cfg, w), more);
  }

  lemma Shift<T>(a: seq<T>, b: seq<T>, c: seq<T>)
    ensures a + b + c == a + (b + c)
  {
  }

  lemma ResponseMore(cfg: Config, w: Work, rest: seq<byte>, more: seq<Seen>)
    requires Sendable(w) && w.Response? && Pdus(Decoder(cfg), rest) == Some(more)
    ensures Pdus(Decoder(cfg), Encode(cfg, w) + rest) == Some(SeenOf(cfg, w) + more)
  {
    CompletionMore(cfg, w, rest, more);
    DataMore(cfg, w, Completion(cfg, w) + rest, LastSeen(cfg, w) + more);
    ItemSplits(cfg, w, rest, more);
  }

  /** An item decodes to what it means, and leaves what follows it alone. */
  lemma ItemReads(cfg: Config, w: Work, rest: seq<byte>, more: seq<Seen>)
    requires Sendable(w) && Pdus(Decoder(cfg), rest) == Some(more)
    ensures Pdus(Decoder(cfg), Encode(cfg, w) + rest) == Some(SeenOf(cfg, w) + more)
  {
    if w.R2t? {
      R2tMore(cfg, w, rest, more);
    } else {
      ResponseMore(cfg, w, rest, more);
    }
  }

  /** The encodings of any items, one after the other, decode to what the items mean. */
  lemma {:induction false} WireReads(cfg: Config, env: Env, works: seq<Work>)
    requires forall i :: 0 <= i < |works| ==> Sendable(works[i]) && env.enc(works[i]) == Encode(cfg, works[i])
    ensures Pdus(Decoder(cfg), EncAll(env, works)) == Some(SeenAll(cfg, works))
    decreases |works|
  {
    if works != [] {
      WireReads(cfg, env, works[1..]);
      ItemReads(cfg, works[0], EncAll(env, works[1..]), SeenAll(cfg, works[1..]));
    }
  }

  /**
    Send, end to end: whenever the sender has nothing left to do, whatever the
    kernel did with each send, the host decodes the wire to exactly the pushed
    responses, read data and R2Ts in push order.
   */
  lemma HostSeesPushedWork(cfg: Config, env: Env, c: SendSystem.Conn, steps: seq<SendSystem.Step>, z: SendSystem.Conn)
    requires SendSystem.Init(c) && SendSystem.Run(env, c, steps, z) && !z.failed && z.pc == SendSystem.Idle && z.queue == []
    requires forall i :: 0 <= i < |z.pushed| ==> Sendable(z.pushed[i]) && env.enc(z.pushed[i]) == Encode(cfg, z.pushed[i])
    ensures Pdus(Decoder(cfg), z.wire) == Some(SeenAll(cfg, z.pushed))
  {
    SendSystem.WireIsPushedWork(env, c, steps, z);
    WireReads(cfg, env, z.pushed);
  }

  // ----- completion entries by field -----

  /** A completion queue entry: its first twelve bytes, the command it answers, and the status. */
  function Entry(head: seq<byte>, cid: u16, status: u16): Cqe
    requires |head| == 12
  {
    head + ToLe16(cid) + ToLe16(status)
  }

  lemma EntryReadsBack(head: seq<byte>, cid: u16, status: u16)
    requires |head| == 12
    ensures CqeCid(Entry(head, cid, status)) == cid && CqeStatus(Entry(head, cid, status)) == status
  {
    Le16RoundTrip(head, cid, ToLe16(status));
    Le16RoundTrip(head + ToLe16(cid), status, []);
    assert Entry(head, cid, status) == head + ToLe16(cid) + ToLe16(status) + [];
  }

  lemma EveryEntry(cqe: Cqe) returns (head: seq<byte>, cid: u16, status: u16)
    ensures |head| == 12 && cqe == Entry(head, cid, status)
  {
    head, cid, status := cqe[..12], Le16(cqe, 12), Le16(cqe, 14);
    assert ToLe16(cid) == cqe[12..14] && ToLe16(status) == cqe[14..16];
  }

  /**
    What the host sees of a completed command: its data, if any, under its own
    command id, and its completion entry, which only a successful read leaves to
    the data PDU, and only if the host does without queue head pointers.
   */
  lemma CompletionIsSeen(cfg: Config, tag: nat, head: seq<byte>, cid: u16, status: u16, data: seq<byte>)
    requires |head| == 12 && Sendable(Response(tag, Entry(head, cid, status), data))
    ensures var w := Response(tag, Entry(head, cid, status), data);
            SeenOf(cfg, w) ==
              if data == [] then [SeenResp(w.cqe)]
              else if cfg.sqhdDisabled && status == 0 then [SeenData(cid, 0, data, true, true)]
              else [SeenData(cid, 0, data, true, false), SeenResp(w.cqe)]
  {
    EntryReadsBack(head, cid, status);
  }
}
