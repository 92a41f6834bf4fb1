/**
  Where commands come from: against arbitrary input, every command the receive
  path starts, asks data for or fails is one whose capsule header stands in the
  stream where a PDU starts, with its own digest behind it if digests were
  negotiated.
 */
module RecvOrigin {
  import opened Common
  import opened Digest
  import opened Pdu
  import opened PduRules
  import opened RecvMachine
  import opened RecvFraming
  import opened RecvSafety

  /** The capsule of `cmd` starts at `h`. */
  ghost predicate CapsuleAt(env: Env, seen: seq<byte>, h: nat, cmd: Sqe) {
    && Bound(env, seen, h) && h + 72 + Trailer(env.hdrDigest) <= |seen|
    && seen[h] == 4 && seen[h + 8..h + 72] == cmd
    && (env.hdrDigest ==> Word(seen, h + 72) == env.crc(0, seen[h..h + 72]))
  }

  ghost predicate Sent(env: Env, seen: seq<byte>, cmd: Sqe) {
    exists h: nat :: CapsuleAt(env, seen, h, cmd)
  }

  lemma SentGrows(env: Env, seen: seq<byte>, more: seq<byte>, cmd: Sqe)
    requires Sent(env, seen, cmd)
    ensures Sent(env, seen + more, cmd)
  {
    var h: nat :| CapsuleAt(env, seen, h, cmd);
    BoundGrows(env, seen, more, h);
    assert (seen + more)[h + 8..h + 72] == seen[h + 8..h + 72] && (seen + more)[h..h + 72] == seen[h..h + 72];
    assert CapsuleAt(env, seen + more, h, cmd);
  }

  // ----- events, for any notion of origin -----

  type Origin = Sqe -> bool

  ghost predicate EventFrom(ok: Origin, e: Event) {
    match e
    case Submit(_, cmd, _, _, _) => ok(cmd)
    case Solicit(_, cid, length) => exists cmd: Sqe :: ok(cmd) && Half(cmd, 2) == cid && Word(cmd, 32) == length
    case Fail(_, cid) => exists cmd: Sqe :: ok(cmd) && Half(cmd, 2) == cid
  }

  ghost predicate AllFrom(ok: Origin, st: St) {
    && (forall t :: t in st.recv ==> ok(st.recv[t].cmd))
    && (forall i :: 0 <= i < |st.events| ==> EventFrom(ok, st.events[i]))
  }

  lemma FinishFrom(ok: Origin, st: St, tag: nat, kind: PayloadKind, piece: Piece)
    requires AllFrom(ok, st) && tag in st.recv
    ensures AllFrom(ok, FinishPayload(st, tag, kind, piece))
  {
  }

  lemma CapsuleFrom(ok: Origin, env: Env, st: St, sqe: Sqe, dataLen: nat, ddgst: bool)
    requires AllFrom(ok, st) && ok(sqe)
    ensures AllFrom(ok, HandleCapsule(env, st, sqe, dataLen, ddgst))
  {
    assert Cid(sqe) == Half(sqe, 2) && SglLength(sqe) == Word(sqe, 32);
  }

  lemma PduFrom(ok: Origin, env: Env, st: St, d: Decoded)
    requires AllFrom(ok, st) && (d.kind.CapsuleCmd? ==> ok(d.kind.sqe))
    ensures AllFrom(ok, HandlePdu(env, st, d))
  {
    if d.kind.CapsuleCmd? {
      CapsuleFrom(ok, env, st, d.kind.sqe, d.dataLen, d.ddgst && env.dataDigest);
    }
  }

  /** The header bytes are a whole command capsule header, and accepted. */
  ghost predicate Takes(env: Env, g: seq<byte>) {
    && Complete(env.hdrDigest, g) && Take(env.crc, env.hdrDigest, g).Ok?
    && Take(env.crc, env.hdrDigest, g).value.kind.CapsuleCmd?
  }

  lemma TakingFrom(ok: Origin, env: Env, st: St, g: seq<byte>)
    requires AllFrom(ok, st) && (Takes(env, g) ==> ok(Take(env.crc, env.hdrDigest, g).value.kind.sqe))
    ensures AllFrom(ok, AfterHeader(env, st, g))
  {
    if Complete(env.hdrDigest, g) && Take(env.crc, env.hdrDigest, g).Ok? {
      PduFrom(ok, env, st, Take(env.crc, env.hdrDigest, g).value);
    }
  }

  lemma DataFrom(ok: Origin, env: Env, st: St, b: byte)
    requires AllFrom(ok, st) && (st.phase.Data? || st.phase.Ddgst?)
    ensures AllFrom(ok, StepByte(env, st, b))
  {
    var p := st.phase;
    if p.tag in st.recv {
      if p.Data? && p.remaining > 0 {
        var st1 := Land(env, st, [b]);
        FinishFrom(ok, st1, p.tag, p.kind, PieceOf(st1.recv[p.tag], st1.phase, st1.seen));
      } else if p.Ddgst? && |p.have| < 4 {
        FinishFrom(ok, st.(seen := st.seen + [b], phase := p.(have := p.have + [b])), p.tag, p.kind, p.piece);
        assert Cid(st.recv[p.tag].cmd) == Half(st.recv[p.tag].cmd, 2);
      }
    }
  }

  // ----- every byte -----

  ghost function SentIn(env: Env, seen: seq<byte>): Origin {
    (cmd: Sqe) => Sent(env, seen, cmd)
  }

  lemma FromGrows(env: Env, st: St, more: seq<byte>)
    requires AllFrom(SentIn(env, st.seen), st)
    ensures AllFrom(SentIn(env, st.seen + more), st)
  {
    forall cmd: Sqe | Sent(env, st.seen, cmd) ensures Sent(env, st.seen + more, cmd) {
      SentGrows(env, st.seen, more, cmd);
    }
  }

  /** A capsule header that was just taken stands at the end of the stream. */
  lemma TakenWasSent(env: Env, seen: seq<byte>, g: seq<byte>)
    requires Takes(env, g) && |g| <= |seen| && g == seen[|seen| - |g|..] && Bound(env, seen, |seen| - |g|)
    ensures Sent(env, seen, Take(env.crc, env.hdrDigest, g).value.kind.sqe)
  {
    var h := |seen| - |g|;
    TakenIff(env.crc, env.hdrDigest, g);
    assert seen[h..h + 72] == g[..72] && seen[h + 8..h + 72] == g[8..72];
    assert CapsuleAt(env, seen, h, g[8..72]);
  }

  lemma HeaderFrom(env: Env, st: St, b: byte)
    requires st.phase.Header? && AllFrom(SentIn(env, st.seen), st) && Collecting(LawsOf(env), st.seen, st.phase.got)
    ensures AllFrom(SentIn(env, st.seen + [b]), StepByte(env, st, b))
  {
    var seen, g := st.seen + [b], st.phase.got + [b];
    var st0 := st.(seen := seen, phase := Header([]));
    FromGrows(env, st, [b]);
    BoundGrows(env, st.seen, [b], |st.seen| - |st.phase.got|);
    assert g == seen[|seen| - |g|..];
    if Takes(env, g) {
      TakenWasSent(env, seen, g);
    }
    TakingFrom(SentIn(env, seen), env, st0, g);
  }

  lemma ByteFrom(env: Env, st: St, b: byte)
    requires RecvInv(LawsOf(env), st) && AllFrom(SentIn(env, st.seen), st)
    ensures AllFrom(SentIn(env, StepByte(env, st, b).seen), StepByte(env, st, b))
  {
    match st.phase
    case Ended(_) =>
    case Header(_) =>
      HeaderFrom(env, st, b);
      HeaderSees(env, st, b);
    case _ =>
      FromGrows(env, st, [b]);
      DataFrom(SentIn(env, st.seen + [b]), env, st, b);
      DataSees(env, st, b);
  }

  /** A payload or digest byte is counted. */
  lemma DataSees(env: Env, st: St, b: byte)
    requires st.phase.Data? || st.phase.Ddgst?
    requires st.phase.tag in st.recv && (st.phase.Data? ==> st.phase.remaining > 0) && (st.phase.Ddgst? ==> |st.phase.have| < 4)
    ensures StepByte(env, st, b).seen == st.seen + [b]
  {
  }

  lemma HeaderSees(env: Env, st: St, b: byte)
    requires st.phase.Header?
    ensures StepByte(env, st, b).seen == st.seen + [b]
  {
  }

  lemma {:induction false} FeedFrom(env: Env, st: St, bytes: seq<byte>)
    requires Composes(env.crc) && RecvInv(LawsOf(env), st) && AllFrom(SentIn(env, st.seen), st)
    ensures AllFrom(SentIn(env, Feed(env, st, bytes).seen), Feed(env, st, bytes))
    decreases |bytes|
  {
    if bytes != [] {
      ByteFrom(env, st, bytes[0]);
      StepSafe(env, st, bytes[0]);
      FeedFrom(env, StepByte(env, st, bytes[0]), bytes[1..]);
    }
  }

  /** Whatever the bytes, nothing happens that no capsule in them called for. */
  lemma EveryCommandWasSent(env: Env, bytes: seq<byte>)
    requires Composes(env.crc)
    ensures var st := Feed(env, Start, bytes);
            forall i :: 0 <= i < |st.events| ==> EventFrom(SentIn(env, st.seen), st.events[i])
  {
    assert RecvInv(LawsOf(env), Start);
    FeedFrom(env, Start, bytes);
  }
}
