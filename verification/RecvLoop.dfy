/**
  The receive loop as the program runs it: each window handed out by the
  reader is worked through in stretches, by phase. Every method is proved
  against the byte machine, so how the stream was cut into windows, and whether
  a payload tail was received straight into the slot, makes no difference.
 */
module RecvLoops {
  import opened Common
  import opened Digest
  import opened Pdu
  import opened PduDecoders
  import opened RecvMachine
  import opened RecvChunks
  import opened RecvSafety

  lemma BadIsEight(hdrDigest: bool, g: seq<byte>)
    ensures FramingOf(hdrDigest).bad(g).Some? ==> |g| == 8
  {
  }

  class RecvLoop {
    const env: Env
    const decoder: PduDecoder
    var phase: Phase
    var recv: map<nat, RSlot>
    var claims: nat
    var payloads: nat
    /** Every byte worked through, and every effect on the queue, in order. */
    var seen: seq<byte>
    var events: seq<Event>

    ghost function View(): St
      reads this, decoder
    {
      St(if phase.Header? then Header(decoder.got) else phase, recv, seen, events, claims, payloads)
    }

    /** The decoder is between bytes, and holds some only while a header is being read. */
    ghost predicate Wired()
      reads this, decoder, decoder.buf
    {
      && Composes(env.crc) && decoder.hdrDigest == env.hdrDigest
      && (!phase.Ended? ==> decoder.Valid() && decoder.state != CompleteHdr)
      && (!phase.Header? && !phase.Ended? ==> decoder.got == [])
    }

    ghost predicate Valid()
      reads this, decoder, decoder.buf
    {
      Wired() && RecvInv(LawsOf(env), View())
    }

    constructor (env: Env)
      requires Composes(env.crc)
      ensures Valid() && View() == Start && this.env == env && fresh(decoder) && fresh(decoder.buf)
    {
      this.env := env;
      decoder := new PduDecoder(env.hdrDigest);
      phase, recv, claims, payloads := Header([]), map[], 0, 0;
      seen, events := [], [];
    }

    // ----- slot engine calls -----

    method Submit(tag: nat)
      requires tag in recv && !phase.Header?
      modifies this
      ensures View() == SubmitSlot(old(View()), tag).(phase := Header(decoder.got))
    {
      events := events + [Event.Submit(tag, recv[tag].cmd, recv[tag].dataLen, Payload(recv[tag], seen), recv[tag].pieces)];
      recv := recv - {tag};
      phase := Header([]);
    }

    method Finish(tag: nat, kind: PayloadKind, piece: Piece)
      requires tag in recv && !phase.Header? && decoder.got == []
      modifies this
      ensures View() == FinishPayload(old(View()), tag, kind, piece)
    {
      var slot := recv[tag];
      match kind {
        case InCapsule =>
          recv := recv[tag := slot.(pieces := slot.pieces + [piece])];
          Submit(tag);
        case H2c(last, length) =>
          var done := slot.recvOffset + length;
          recv := recv[tag := slot.(recvOffset := done, pieces := slot.pieces + [piece])];
          if done == slot.dataLen {
            Submit(tag);
          } else if last {
            phase := Ended(Term(PduError(DATA_OUT_OF_RANGE, 0)));
          } else {
            phase := Header([]);
          }
      }
    }

    // ----- payload and digest phases -----

    /** The next stretch of the payload; what is left of the window. */
    method AdvanceData(slice: seq<byte>) returns (rest: seq<byte>)
      requires Wired() && phase.Data? && phase.tag in recv && slice != []
      modifies this
      ensures var take := Min(old(phase.remaining), |slice|);
              rest == slice[take..] && View() == RecvMachine.AdvanceData(env, old(View()), slice[..take])
      ensures Wired()
    {
      var p := phase;
      var take := Min(p.remaining, |slice|);
      var slot := recv[p.tag];
      if !p.retained {
        var dest := p.base + (Total(slot, p.kind) - p.remaining);
        slot := slot.(store := Write(slot.store, dest, slice[..take]));
      }
      recv := recv[p.tag := slot];
      seen := seen + slice[..take];
      phase := LandPhase(env.crc, p, slice[..take]);
      rest := slice[take..];
      if phase.remaining == 0 {
        var piece := PieceOf(slot, phase, seen);
        if p.ddgst {
          phase := Ddgst(p.tag, phase.sum, [], p.kind, piece);
        } else {
          Finish(p.tag, p.kind, piece);
        }
      }
    }

    /** The next digest bytes; on the fourth, verify and finish, or fail the command. */
    method AdvanceDdgst(slice: seq<byte>) returns (rest: seq<byte>)
      requires Wired() && phase.Ddgst? && phase.tag in recv && |phase.have| < 4 && slice != []
      modifies this
      ensures var take := Min(4 - |old(phase.have)|, |slice|);
              rest == slice[take..] && View() == RecvMachine.AdvanceDdgst(old(View()), slice[..take])
      ensures Wired()
    {
      var p := phase;
      var take := Min(4 - |p.have|, |slice|);
      var have := p.have + slice[..take];
      seen := seen + slice[..take];
      phase := p.(have := have);
      rest := slice[take..];
      if |have| == 4 {
        if Le32(have, 0) != p.expected {
          events := events + [Fail(p.tag, Cid(recv[p.tag].cmd))];
          recv := recv - {p.tag};
          phase := Header([]);
        } else {
          Finish(p.tag, p.kind, p.piece);
        }
      }
    }

    // ----- header phase -----

    method HandleCapsuleCmd(sqe: Sqe, dataLen: nat, ddgst: bool)
      requires phase.Header? && decoder.got == []
      modifies this
      ensures View() == HandleCapsule(env, old(View()), sqe, dataLen, ddgst)
    {
      var tag := env.tags(claims);
      if tag in recv || tag >= env.nslots {
        phase := Ended(NoTag);
        return;
      }
      var claim := claims;
      claims := claims + 1;
      if dataLen > 0 {
        if dataLen > MDTS {
          phase := Ended(Term(PduError(DATA_LIMIT_EXCEEDED, 0)));
          return;
        }
        var retained := env.keep(payloads);
        payloads := payloads + 1;
        var store := if retained then InRing(|seen|) else StaleLease(env, claim, dataLen);
        recv := recv[tag := RSlot(sqe, dataLen, 0, store, [])];
        phase := Data(tag, 0, dataLen, 0, ddgst, InCapsule, retained);
      } else if NeedsR2t(sqe) {
        var length := SglLength(sqe);
        if length > MDTS {
          phase := Ended(Term(PduError(DATA_LIMIT_EXCEEDED, 0)));
          return;
        }
        recv := recv[tag := RSlot(sqe, length, 0, StaleLease(env, claim, length), [])];
        events := events + [Solicit(tag, Cid(sqe), length)];
      } else {
        events := events + [Event.Submit(tag, sqe, 0, [], [])];
      }
    }

    method HandleH2cData(cid: u16, ttag: nat, offset: nat, length: nat, last: bool, dataLen: nat, ddgst: bool)
      requires phase.Header? && decoder.got == []
      modifies this
      ensures View() == HandleH2c(env, old(View()), cid, ttag, offset, length, last, dataLen, ddgst)
    {
      if ttag >= env.nslots {
        phase := Ended(Term(PduError(INVALID_PDU_HDR, 10)));
        return;
      }
      var valid := ttag in recv && Cid(recv[ttag].cmd) == cid && offset == recv[ttag].recvOffset
                   && offset + length <= recv[ttag].dataLen && length > 0;
      if !valid {
        phase := Ended(Term(PduError(DATA_OUT_OF_RANGE, 0)));
        return;
      }
      if dataLen != length {
        phase := Ended(Term(PduError(INVALID_PDU_HDR, 16)));
        return;
      }
      var retained := offset == 0 && length == recv[ttag].dataLen && env.keep(payloads);
      payloads := payloads + 1;
      if retained {
        recv := recv[ttag := recv[ttag].(store := InRing(|seen|))];
      }
      phase := Data(ttag, offset, length, 0, ddgst, H2c(last, length), retained);
    }

    method HandlePduHeader(d: Decoded)
      requires phase.Header? && decoder.got == []
      modifies this
      ensures View() == HandlePdu(env, old(View()), d)
    {
      var ddgst := d.ddgst && env.dataDigest;
      match d.kind {
        case CapsuleCmd(sqe) => HandleCapsuleCmd(sqe, d.dataLen, ddgst);
        case H2CData(cid, ttag, offset, length, last) =>
          HandleH2cData(cid, ttag, offset, length, last, d.dataLen, ddgst);
        case H2CTerm(fes, fei) => phase := Ended(HostTerm(fes, fei));
        case _ => phase := Ended(Term(PduError(PDU_SEQ_ERR, 0)));
      }
    }

    /** A complete header: parse it, reset the decoder, act on the PDU. */
    method RouteHeader()
      requires Composes(env.crc) && decoder.hdrDigest == env.hdrDigest
      requires phase.Header? && decoder.Valid() && decoder.state == CompleteHdr
      modifies this, decoder
      ensures Wired()
      ensures View() == AfterHeader(env, old(View()).(phase := Header([])), old(decoder.got))
    {
      HeaderLenPrefix(env.hdrDigest, decoder.got, []);
      var d := decoder.TakeHeader(env.crc);
      match d {
        case Err(e) => phase := Ended(Term(e));
        case Ok(pdu) => HandlePduHeader(pdu);
      }
    }

    /** Hand the decoder what it wants of the slice, and count it as seen. */
    method FeedDecoder(slice: seq<byte>) returns (fed: Result<nat, PduError>, ghost used: nat)
      requires Wired() && phase.Header? && slice != []
      modifies this`seen, decoder, decoder.buf
      ensures 0 < used <= |slice| && seen == old(seen) + slice[..used]
      ensures QuietThrough(FramingOf(env.hdrDigest), old(decoder.got), slice[..used][..used - 1])
      ensures match fed
              case Err(e) => FramingOf(env.hdrDigest).bad(old(decoder.got) + slice[..used]) == Some(e)
              case Ok(n) =>
                && n == used && decoder.Valid() && decoder.got == old(decoder.got) + slice[..used]
                && (decoder.state != CompleteHdr ==>
                      slice[..used] == slice && QuietThrough(FramingOf(env.hdrDigest), old(decoder.got), slice))
    {
      ghost var f := FramingOf(env.hdrDigest);
      used := Looked(f, decoder.got, slice);
      BadIsEight(env.hdrDigest, decoder.got + slice[..used]);
      assert used > 0 ==> slice[..used][..used - 1] == slice[..used - 1];
      StageDone(decoder.hdrDigest, decoder.got, decoder.need, decoder.state);
      FedShape(f, decoder.got, slice);
      var have := decoder.have;
      fed := decoder.Feed(slice);
      seen := seen + if fed.Err? then slice[..8 - have] else slice[..fed.value];
      if fed.Ok? {
        StageDone(decoder.hdrDigest, decoder.got, decoder.need, decoder.state);
      }
    }

    /** Feed the decoder; once a header is complete, route the PDU. */
    method FeedHeader(slice: seq<byte>) returns (rest: seq<byte>, ghost used: nat)
      requires Wired() && phase.Header? && slice != []
      modifies this, decoder, decoder.buf
      ensures Wired() && 0 < used <= |slice| && (!phase.Ended? ==> rest == slice[used..])
      ensures View() == Feed(env, old(View()), slice[..used])
    {
      ghost var st := View();
      var fed;
      fed, used := FeedDecoder(slice);
      rest := [];
      HeaderEnds(env, st, slice[..used]);
      if fed.Err? {
        phase := Ended(Term(fed.error));
      } else {
        rest := slice[fed.value..];
        if decoder.state == CompleteHdr {
          RouteHeader();
        } else {
          Accumulates(env, st, slice);
        }
      }
    }

    // ----- windows -----

    lemma DataIsPlaced(st: St)
      requires RecvInv(LawsOf(env), st) && st.phase.Data?
      ensures DataPlaced(st)
    {
    }

    /** After `used` bytes of `slice` the rest is still to come. */
    lemma Onward(st: St, slice: seq<byte>, used: nat, st1: St, rest: seq<byte>)
      requires Composes(env.crc) && RecvInv(LawsOf(env), st) && used <= |slice|
      requires st1 == Feed(env, st, slice[..used]) && (!st1.phase.Ended? ==> rest == slice[used..])
      ensures RecvInv(LawsOf(env), st1) && Feed(env, st, slice) == Feed(env, st1, rest)
    {
      FeedSafe(env, st, slice[..used]);
      FeedAppend(env, st, slice[..used], slice[used..]);
      assert slice == slice[..used] + slice[used..];
      if st1.phase.Ended? {
        FeedEnded(env, st1, slice[used..]);
        FeedEnded(env, st1, rest);
      }
    }

    /** The next stretch of a window, by phase. */
    method Step(slice: seq<byte>) returns (rest: seq<byte>)
      requires Valid() && slice != [] && !phase.Ended?
      modifies this, decoder, decoder.buf
      ensures Valid() && (!phase.Ended? ==> |rest| < |slice|)
      ensures Feed(env, old(View()), slice) == Feed(env, View(), rest)
    {
      ghost var st := View();
      ghost var used: nat;
      match phase {
        case Header(_) =>
          rest, used := FeedHeader(slice);
        case Data(_, _, remaining, _, _, _, _) =>
          used := Min(remaining, |slice|);
          DataIsPlaced(st);
          DataFeeds(env, st, slice[..used]);
          rest := AdvanceData(slice);
        case Ddgst(_, _, have, _, _) =>
          used := Min(4 - |have|, |slice|);
          DdgstFeeds(env, st, slice[..used]);
          rest := AdvanceDdgst(slice);
      }
      Onward(st, slice, used, View(), rest);
    }

    /** Work one window through the phases. */
    method Drive(window: seq<byte>)
      requires Valid()
      modifies this, decoder, decoder.buf
      ensures Valid() && View() == Feed(env, old(View()), window)
    {
      var slice := window;
      while slice != [] && !phase.Ended?
        invariant Valid()
        invariant Feed(env, old(View()), window) == Feed(env, View(), slice)
        decreases if phase.Ended? then 0 else |slice|
      {
        slice := Step(slice);
      }
      if phase.Ended? {
        FeedEnded(env, View(), slice);
      }
    }

    /** Pieces of any size land one after the other, resumed until no more arrive. */
    static method Scatter(store: Store, dest: nat, arrivals: seq<seq<byte>>) returns (r: Store, landed: seq<byte>)
      requires store.Lease? && dest + |Flatten(arrivals)| <= |store.bytes|
      ensures landed == Flatten(arrivals) && r == Write(store, dest, landed)
    {
      landed, r := [], store;
      assert store.bytes[..dest] + [] + store.bytes[dest..] == store.bytes;
      for i := 0 to |arrivals|
        invariant landed == Flatten(arrivals[..i]) && dest + |landed| <= |store.bytes|
        invariant r == Write(store, dest, landed)
      {
        ArrivalFits(arrivals, i);
        WriteCompose(store, dest, landed, arrivals[i]);
        r := Write(r, dest + |landed|, arrivals[i]);
        landed := landed + arrivals[i];
      }
      assert arrivals[..|arrivals|] == arrivals;
    }

    /** The slot with the pieces landed behind what it holds. */
    static method FillTail(slot: RSlot, p: Phase, arrivals: seq<seq<byte>>) returns (filled: RSlot, landed: seq<byte>)
      requires p.Data? && !p.retained && |Flatten(arrivals)| <= p.remaining <= Total(slot, p.kind)
      requires slot.store.Lease? && p.base + Total(slot, p.kind) <= |slot.store.bytes|
      ensures landed == Flatten(arrivals) && filled == LandSlot(slot, p, landed)
    {
      var store;
      store, landed := Scatter(slot.store, p.base + (Total(slot, p.kind) - p.remaining), arrivals);
      filled := slot.(store := store);
    }

    /** A payload that has landed in full moves on to its digest, or finishes. */
    method Landed(slot: RSlot, landed: seq<byte>)
      requires Wired() && phase.Data? && phase.tag in recv && |landed| == phase.remaining
      requires slot == LandSlot(recv[phase.tag], phase, landed)
      modifies this
      ensures Wired() && View() == RecvMachine.AdvanceData(env, old(View()), landed)
    {
      var p := phase;
      recv := recv[p.tag := slot];
      seen := seen + landed;
      phase := LandPhase(env.crc, p, landed);
      var piece := PieceOf(slot, phase, seen);
      if p.ddgst {
        phase := Ddgst(p.tag, phase.sum, [], p.kind, piece);
      } else {
        Finish(p.tag, p.kind, piece);
      }
    }

    lemma TailFits(st: St)
      requires RecvInv(LawsOf(env), st) && st.phase.Data? && !st.phase.retained
      ensures st.phase.tag in st.recv
      ensures var slot := st.recv[st.phase.tag];
              && st.phase.remaining <= Total(slot, st.phase.kind)
              && slot.store.Lease? && st.phase.base + Total(slot, st.phase.kind) <= |slot.store.bytes|
    {
      DataIsPlaced(st);
    }

    lemma TailFeeds(st: St, landed: seq<byte>)
      requires Composes(env.crc) && RecvInv(LawsOf(env), st) && st.phase.Data? && |landed| == st.phase.remaining
      ensures Feed(env, st, landed) == RecvMachine.AdvanceData(env, st, landed)
      ensures RecvInv(LawsOf(env), Feed(env, st, landed))
    {
      DataIsPlaced(st);
      DataFeeds(env, st, landed);
      FeedSafe(env, st, landed);
    }

    /** The whole tail landed in the slot. */
    method LandTail(slot: RSlot, landed: seq<byte>)
      requires Valid() && phase.Data? && phase.tag in recv && |landed| == phase.remaining
      requires slot == LandSlot(recv[phase.tag], phase, landed)
      modifies this
      ensures Valid() && View() == Feed(env, old(View()), landed)
    {
      TailFeeds(View(), landed);
      Landed(slot, landed);
    }

    /**
      Receive the tail of a solicited payload straight into the slot: the
      socket delivers it in pieces of any size until it is complete or the
      host closes.
     */
    method TailDirect(arrivals: seq<seq<byte>>) returns (closed: bool)
      requires Valid() && phase.Data? && phase.kind.H2c? && !phase.retained
      requires |Flatten(arrivals)| <= phase.remaining
      modifies this
      ensures closed <==> |Flatten(arrivals)| < old(phase.remaining)
      ensures !closed ==> Valid() && View() == Feed(env, old(View()), Flatten(arrivals))
    {
      TailFits(View());
      var slot, landed := FillTail(recv[phase.tag], phase, arrivals);
      closed := |landed| < phase.remaining;
      if !closed {
        LandTail(slot, landed);
      }
    }

    static lemma ArrivalFits(arrivals: seq<seq<byte>>, i: nat)
      requires i < |arrivals|
      ensures Flatten(arrivals[..i + 1]) == Flatten(arrivals[..i]) + arrivals[i]
      ensures |Flatten(arrivals[..i + 1])| <= |Flatten(arrivals)|
    {
      assert arrivals[..i + 1] == arrivals[..i] + [arrivals[i]];
      FlattenAppend(arrivals[..i], [arrivals[i]]);
      FlattenAppend(arrivals[..i + 1], arrivals[i + 1..]);
      assert arrivals == arrivals[..i + 1] + arrivals[i + 1..];
      assert Flatten([arrivals[i]]) == arrivals[i] + Flatten([]);
    }
  }
}
