/** One unit of work for the send path and the bytes it becomes on the wire. */
module SendItems {
  import opened Common
  import opened Digest
  import opened Pdu
  import opened Segments

  /** A completed command with the read data in its slot, or an R2T. */
  datatype Work =
    | Response(tag: nat, cqe: Cqe, data: seq<byte>)
    | R2t(tag: nat, cid: u16, offset: u32, length: u32)

  datatype Config = Config(crc: Crc, hdrDigest: bool, dataDigest: bool, sqhdDisabled: bool)

  function CqeCid(cqe: Cqe): u16 {
    Le16(cqe, 12)
  }

  function CqeStatus(cqe: Cqe): u16 {
    Le16(cqe, 14)
  }

  predicate Sendable(w: Work) {
    match w
    case Response(_, _, data) => 24 + 4 + |data| + 4 <= MAX_PLEN
    case R2t(tag, _, _, _) => tag < 0x1_0000
  }

  /** The response capsule is left out when the data PDU itself carries success. */
  predicate Elides(cfg: Config, w: Work) {
    w.Response? && w.data != [] && cfg.sqhdDisabled && CqeStatus(w.cqe) == 0
  }

  function DataPdu(cfg: Config, w: Work): seq<byte>
    requires Sendable(w) && w.Response?
  {
    if w.data == [] then []
    else
      EncodeC2HData(cfg.crc, CqeCid(w.cqe), 0, |w.data|, true, Elides(cfg, w), cfg.hdrDigest, cfg.dataDigest)
      + w.data + if cfg.dataDigest then ToLe32(cfg.crc(0, w.data)) else []
  }

  function Encode(cfg: Config, w: Work): seq<byte>
    requires Sendable(w)
  {
    match w
    case R2t(tag, cid, offset, length) => EncodeR2T(cfg.crc, cid, tag, offset, length, cfg.hdrDigest)
    case Response(_, cqe, _) =>
      DataPdu(cfg, w) + if Elides(cfg, w) then [] else EncodeCapsuleResp(cfg.crc, cqe, cfg.hdrDigest)
  }

  /** Every item puts at least one byte on the wire. */
  lemma EncodesSomething(cfg: Config, w: Work)
    requires Sendable(w)
    ensures Encode(cfg, w) != []
  {
    match w {
      case R2t(tag, cid, offset, length) =>
        R2TRoundTrip(cfg.crc, cid, tag, offset, length, cfg.hdrDigest);
      case Response(_, cqe, data) =>
        CapsuleRespRoundTrip(cfg.crc, cqe, cfg.hdrDigest);
        if data != [] {
          C2HDataRoundTrip(cfg.crc, CqeCid(cqe), 0, |data|, true, Elides(cfg, w), cfg.hdrDigest, cfg.dataDigest);
        }
    }
  }

  /**
    The host finds, in order: the data PDU of this command with exactly the
    slot's data behind it and its digest, and the response capsule unless the
    data PDU was flagged as the success.
   */
  lemma ResponseReadsBack(cfg: Config, w: Work)
    requires Sendable(w) && w.Response?
    ensures w.data != [] ==>
      var h := EncodeC2HData(cfg.crc, CqeCid(w.cqe), 0, |w.data|, true, Elides(cfg, w), cfg.hdrDigest, cfg.dataDigest);
      && h + w.data <= Encode(cfg, w) && Complete(cfg.hdrDigest, h)
      && Take(cfg.crc, cfg.hdrDigest, h) ==
           Ok(Decoded(C2HData(CqeCid(w.cqe), 0, |w.data|, true, Elides(cfg, w)), |w.data|, cfg.dataDigest))
      && (cfg.dataDigest ==>
            |Encode(cfg, w)| >= |h + w.data| + 4 && Le32(Encode(cfg, w), |h + w.data|) == cfg.crc(0, w.data))
    ensures !Elides(cfg, w) ==>
      && DataPdu(cfg, w) <= Encode(cfg, w)
      && var c := Encode(cfg, w)[|DataPdu(cfg, w)|..];
         Complete(cfg.hdrDigest, c) && Take(cfg.crc, cfg.hdrDigest, c) == Ok(Decoded(CapsuleResp(w.cqe), 0, false))
  {
    CapsuleRespRoundTrip(cfg.crc, w.cqe, cfg.hdrDigest);
    var tail := if Elides(cfg, w) then [] else EncodeCapsuleResp(cfg.crc, w.cqe, cfg.hdrDigest);
    assert Encode(cfg, w) == DataPdu(cfg, w) + tail;
    if w.data != [] {
      C2HDataRoundTrip(cfg.crc, CqeCid(w.cqe), 0, |w.data|, true, Elides(cfg, w), cfg.hdrDigest, cfg.dataDigest);
      var h := EncodeC2HData(cfg.crc, CqeCid(w.cqe), 0, |w.data|, true, Elides(cfg, w), cfg.hdrDigest, cfg.dataDigest);
      if cfg.dataDigest {
        Le32RoundTrip(h + w.data, cfg.crc(0, w.data), tail);
      }
    }
  }

  lemma FrontAcross(a: seq<byte>, b: seq<byte>, n: nat)
    requires n <= |a| + |b|
    ensures (a + b)[..n] == a[..Min(n, |a|)] + b[..n - Min(n, |a|)]
  {
  }

  /** Reference the first `len` bytes of the slot's segments, in order. */
  method PushPayload(m: seq<byte>, segs: seq<Seg>, len: nat) returns (pushed: seq<byte>)
    requires InArena(|m|, segs) && len <= Size(segs)
    ensures pushed == Gather(m, segs)[..len]
  {
    pushed := [];
    var rest, remaining: nat := segs, len;
    while rest != [] && remaining > 0
      invariant InArena(|m|, rest) && remaining <= Size(rest)
      invariant pushed + Gather(m, rest)[..remaining] == Gather(m, segs)[..len]
      decreases |rest|
    {
      var s := rest[0];
      var take := Min(remaining, s.len);
      ghost var tail := Gather(m, rest[1..]);
      FrontAcross(m[s.ptr..s.ptr + s.len], tail, remaining);
      assert m[s.ptr..s.ptr + s.len][..take] == m[s.ptr..s.ptr + take];
      assert pushed + (m[s.ptr..s.ptr + take] + tail[..remaining - take]) ==
             pushed + m[s.ptr..s.ptr + take] + tail[..remaining - take];
      pushed := pushed + m[s.ptr..s.ptr + take];
      remaining := remaining - take;
      rest := rest[1..];
    }
  }

  lemma Assoc(a: seq<byte>, b: seq<byte>, c: seq<byte>)
    ensures a + b + c == a + (b + c)
  {
  }

  /** The data PDU of a response: header, payload in place, digest. */
  method StageData(cfg: Config, gather: seq<byte>, w: Work, m: seq<byte>, segs: seq<Seg>) returns (gather': seq<byte>)
    requires Sendable(w) && w.Response? && w.data != [] && InArena(|m|, segs)
    requires |w.data| <= Size(segs) && w.data == Gather(m, segs)[..|w.data|]
    ensures gather' == gather + DataPdu(cfg, w)
  {
    var h := EncodeC2HData(cfg.crc, CqeCid(w.cqe), 0, |w.data|, true, Elides(cfg, w), cfg.hdrDigest, cfg.dataDigest);
    var payload := PushPayload(m, segs, |w.data|);
    gather' := gather + h + payload;
    Assoc(gather, h, payload);
    if cfg.dataDigest {
      var t := ToLe32(cfg.crc(0, payload));
      Assoc(gather, h + payload, t);
      gather' := gather' + t;
    } else {
      assert h + payload + [] == h + payload;
    }
  }

  /** `stage_send_work`: append one item to the gather list, its payload taken from the slot's segments. */
  method Stage(cfg: Config, gather: seq<byte>, w: Work, m: seq<byte>, segs: seq<Seg>) returns (gather': seq<byte>)
    requires Sendable(w) && InArena(|m|, segs)
    requires w.Response? ==> |w.data| <= Size(segs) && w.data == Gather(m, segs)[..|w.data|]
    ensures gather' == gather + Encode(cfg, w)
  {
    if w.R2t? {
      gather' := gather + EncodeR2T(cfg.crc, w.cid, w.tag, w.offset, w.length, cfg.hdrDigest);
      return;
    }
    gather' := gather;
    if w.data != [] {
      gather' := StageData(cfg, gather, w, m, segs);
    }
    assert gather' == gather + DataPdu(cfg, w);
    if !Elides(cfg, w) {
      var c := EncodeCapsuleResp(cfg.crc, w.cqe, cfg.hdrDigest);
      Assoc(gather, DataPdu(cfg, w), c);
      gather' := gather' + c;
    } else {
      assert DataPdu(cfg, w) + [] == DataPdu(cfg, w);
    }
  }
}
