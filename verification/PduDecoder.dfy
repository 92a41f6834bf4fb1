/**
  The incremental header decoder: however its input is cut into pieces, it
  collects exactly the header bytes and stops.
 */
module PduDecoders {
  import opened Common
  import opened Digest
  import opened Pdu

  /** When a collected prefix is a whole header, and when it is a rejected one. */
  datatype Framing = Framing(done: seq<byte> -> bool, bad: seq<byte> -> Option<PduError>)

  function FramingOf(hdrDigest: bool): Framing {
    Framing(g => Complete(hdrDigest, g),
            g => if |g| == 8 && HeaderLen(hdrDigest, g).Err? then Some(HeaderLen(hdrDigest, g).error) else None)
  }

  // ----- the decoder one byte at a time, for any framing -----

  /** Bytes collected so far, and how many of the offered ones were used. */
  datatype Progress = Progress(got: seq<byte>, used: nat)

  function Bump(n: nat, r: Result<Progress, PduError>): Result<Progress, PduError> {
    match r
    case Ok(p) => Ok(Progress(p.got, p.used + n))
    case Err(e) => Err(e)
  }

  /** Stop at a complete header; reject a bad one as soon as it shows. */
  function Fed(f: Framing, got: seq<byte>, input: seq<byte>): Result<Progress, PduError>
    decreases |input|
  {
    if f.done(got) || input == [] then Ok(Progress(got, 0))
    else
      var g := got + [input[0]];
      if f.bad(g).Some? then Err(f.bad(g).value)
      else Bump(1, Fed(f, g, input[1..]))
  }

  ghost predicate Quiet(f: Framing, g: seq<byte>) {
    !f.done(g) && f.bad(g) == None
  }

  /** No prefix of `a` completes or spoils what was collected. */
  ghost predicate QuietThrough(f: Framing, got: seq<byte>, a: seq<byte>)
    decreases |a|
  {
    a != [] ==> Quiet(f, got + [a[0]]) && QuietThrough(f, got + [a[0]], a[1..])
  }

  /** Taking quiet bytes at once is taking them one by one. */
  lemma {:induction false} FedQuiet(f: Framing, got: seq<byte>, a: seq<byte>, input: seq<byte>)
    requires !f.done(got) && QuietThrough(f, got, a)
    ensures Fed(f, got, a + input) == Bump(|a|, Fed(f, got + a, input)) && !f.done(got + a)
    decreases |a|
  {
    if a == [] {
      assert a + input == input && got + a == got;
    } else {
      FedQuiet(f, got + [a[0]], a[1..], input);
      assert (a + input)[1..] == a[1..] + input && got + [a[0]] + a[1..] == got + a;
    }
  }

  /** Quiet bytes `a`, then a byte `b` that may complete or spoil the header. */
  lemma FedChunk(f: Framing, got: seq<byte>, a: seq<byte>, b: byte, input: seq<byte>)
    requires !f.done(got) && QuietThrough(f, got, a)
    ensures var g := got + a + [b];
            Fed(f, got, a + [b] + input) ==
            if f.bad(g).Some? then Err(f.bad(g).value) else Bump(|a| + 1, Fed(f, g, input))
  {
    FedQuiet(f, got, a, [b] + input);
    assert a + ([b] + input) == a + [b] + input && ([b] + input)[1..] == input;
  }

  /** How many bytes the decoder looks at, a rejected one included. */
  ghost function Looked(f: Framing, got: seq<byte>, input: seq<byte>): (n: nat)
    ensures n <= |input|
    decreases |input|
  {
    if f.done(got) || input == [] then 0
    else if f.bad(got + [input[0]]).Some? then 1
    else 1 + Looked(f, got + [input[0]], input[1..])
  }

  /** What a result says about the bytes looked at: quiet but for one that completed or spoiled them. */
  lemma {:induction false} FedShape(f: Framing, got: seq<byte>, input: seq<byte>)
    requires !f.done(got)
    ensures var n := Looked(f, got, input);
            && (n > 0 ==> QuietThrough(f, got, input[..n - 1]))
            && match Fed(f, got, input)
               case Ok(p) =>
                 && p == Progress(got + input[..n], n)
                 && (if f.done(p.got) then n > 0 && f.bad(p.got) == None
                     else n == |input| && QuietThrough(f, got, input))
               case Err(e) => n > 0 && f.bad(got + input[..n]) == Some(e)
    decreases |input|
  {
    if input == [] {
      assert got + input[..0] == got;
    } else {
      var g := got + [input[0]];
      var rest := input[1..];
      if f.bad(g).Some? || f.done(g) {
        assert got + input[..1] == g;
      } else {
        FedShape(f, g, rest);
        var m := Looked(f, g, rest);
        assert got + input[..m + 1] == g + rest[..m];
        if m > 0 {
          assert input[..m][1..] == rest[..m - 1];
        }
      }
    }
  }

  /** Any way of cutting the input in two gives the same header and the same total. */
  lemma {:induction false} FedSplit(f: Framing, got: seq<byte>, a: seq<byte>, b: seq<byte>)
    ensures match Fed(f, got, a)
            case Err(e) => Fed(f, got, a + b) == Err(e)
            case Ok(p) =>
              if p.used < |a| then Fed(f, got, a + b) == Ok(p) && f.done(p.got)
              else Fed(f, got, a + b) == Bump(|a|, Fed(f, p.got, b))
    decreases |a|
  {
    if a == [] {
      assert a + b == b;
    } else if !f.done(got) {
      var g := got + [a[0]];
      assert (a + b)[0] == a[0] && (a + b)[1..] == a[1..] + b;
      if f.bad(g) == None {
        FedSplit(f, g, a[1..], b);
      }
    }
  }

  // ----- NVMe/TCP headers -----

  /** Only the first eight bytes decide the header length. */
  lemma HeaderLenPrefix(hdrDigest: bool, g: seq<byte>, more: seq<byte>)
    requires |g| >= 8
    ensures HeaderLen(hdrDigest, g + more) == HeaderLen(hdrDigest, g)
    ensures HeaderLen(hdrDigest, g).Ok? ==> 24 <= HeaderLen(hdrDigest, g).value <= 128
  {
    var h := g + more;
    assert forall i :: 0 <= i < 8 ==> h[i] == g[i];
    assert Le32(h, 4) == Le32(g, 4);
  }

  /** Every prefix of a complete header, short of its end, is quiet. */
  lemma {:induction false} HeaderIsQuiet(hdrDigest: bool, h: seq<byte>, k: nat)
    requires Complete(hdrDigest, h) && k < |h|
    ensures QuietThrough(FramingOf(hdrDigest), h[..k], h[k..|h| - 1])
    decreases |h| - k
  {
    var a := h[k..|h| - 1];
    if a != [] {
      var g := h[..k + 1];
      assert h[..k] + [a[0]] == g && a[1..] == h[k + 1..|h| - 1];
      if k + 1 >= 8 {
        HeaderLenPrefix(hdrDigest, g, h[k + 1..]);
        assert g + h[k + 1..] == h;
      }
      HeaderIsQuiet(hdrDigest, h, k + 1);
    }
  }

  /**
    Feeding an encoded header followed by anything collects exactly the header
    and consumes nothing after it.
   */
  lemma FedHeader(hdrDigest: bool, h: seq<byte>, rest: seq<byte>)
    requires Complete(hdrDigest, h)
    ensures Fed(FramingOf(hdrDigest), [], h + rest) == Ok(Progress(h, |h|))
  {
    var f := FramingOf(hdrDigest);
    var n := |h| - 1;
    HeaderIsQuiet(hdrDigest, h, 0);
    assert h[..0] == [] && h[0..n] == h[..n];
    FedChunk(f, [], h[..n], h[n], rest);
    assert [] + h[..n] + [h[n]] == h && h[..n] + [h[n]] == h;
    CompleteIsDone(hdrDigest, h);
  }

  lemma CompleteIsDone(hdrDigest: bool, h: seq<byte>)
    requires Complete(hdrDigest, h)
    ensures FramingOf(hdrDigest).done(h) && FramingOf(hdrDigest).bad(h) == None
  {
    HeaderLenPrefix(hdrDigest, h, []);
  }

  /** Feeding pieces one after the other, until the header is complete. */
  ghost function FedPieces(f: Framing, got: seq<byte>, pieces: seq<seq<byte>>): Result<Progress, PduError>
    decreases |pieces|
  {
    if pieces == [] then Ok(Progress(got, 0))
    else
      match Fed(f, got, pieces[0])
      case Err(e) => Err(e)
      case Ok(p) => if f.done(p.got) then Ok(p) else Bump(p.used, FedPieces(f, p.got, pieces[1..]))
  }

  /** However the input is cut, the outcome and the bytes consumed are those of feeding it whole. */
  lemma {:induction false} PiecesDoNotMatter(f: Framing, got: seq<byte>, pieces: seq<seq<byte>>)
    ensures FedPieces(f, got, pieces) == Fed(f, got, Flatten(pieces))
    decreases |pieces|
  {
    if pieces != [] {
      FedSplit(f, got, pieces[0], Flatten(pieces[1..]));
      var r := Fed(f, got, pieces[0]);
      if r.Ok? && !f.done(got) {
        FedShape(f, got, pieces[0]);
        PiecesDoNotMatter(f, r.value.got, pieces[1..]);
      }
    }
  }

  /** A complete header, in any pieces and with anything behind it, is collected exactly. */
  lemma HeaderInPieces(hdrDigest: bool, h: seq<byte>, rest: seq<byte>, pieces: seq<seq<byte>>)
    requires Complete(hdrDigest, h) && Flatten(pieces) == h + rest
    ensures FedPieces(FramingOf(hdrDigest), [], pieces) == Ok(Progress(h, |h|))
  {
    PiecesDoNotMatter(FramingOf(hdrDigest), [], pieces);
    FedHeader(hdrDigest, h, rest);
  }

  // ----- the decoder -----

  datatype DecodeState = CommonHdr | RestHdr | CompleteHdr

  /** The decoder's stage and target agree with the bytes collected. */
  ghost predicate Stage(hdrDigest: bool, got: seq<byte>, need: nat, state: DecodeState) {
    match state
    case CommonHdr => need == 8 && |got| < 8
    case RestHdr => 8 <= |got| < need && HeaderLen(hdrDigest, got) == Ok(need)
    case CompleteHdr => 8 <= |got| == need && HeaderLen(hdrDigest, got) == Ok(need)
  }

  /** Short of its target, a stage collects quietly. */
  lemma {:induction false} StageQuiet(hdrDigest: bool, got: seq<byte>, need: nat, state: DecodeState, a: seq<byte>)
    requires Stage(hdrDigest, got, need, state) && state != CompleteHdr && |got| + |a| < need
    ensures !FramingOf(hdrDigest).done(got) && QuietThrough(FramingOf(hdrDigest), got, a)
    decreases |a|
  {
    if a != [] {
      if state == RestHdr {
        HeaderLenPrefix(hdrDigest, got, [a[0]]);
      }
      StageQuiet(hdrDigest, got + [a[0]], need, state, a[1..]);
    }
  }

  lemma StageDone(hdrDigest: bool, got: seq<byte>, need: nat, state: DecodeState)
    requires Stage(hdrDigest, got, need, state)
    ensures state == CompleteHdr <==> Complete(hdrDigest, got)
    ensures FramingOf(hdrDigest).done(got) <==> state == CompleteHdr
  {
  }

  /** Working through `input` has come to `rest`, with `got` collected. */
  ghost predicate FedTo(f: Framing, got0: seq<byte>, input: seq<byte>, got: seq<byte>, rest: seq<byte>) {
    |rest| <= |input| && Fed(f, got0, input) == Bump(|input| - |rest|, Fed(f, got, rest))
  }

  class PduDecoder {
    const hdrDigest: bool
    const buf: array<byte>
    var have: nat
    var need: nat
    var state: DecodeState
    /** The header bytes collected so far. */
    ghost var got: seq<byte>

    ghost predicate Buffered()
      reads this, buf
    {
      buf.Length == 128 && have <= 128 && got == buf[..have]
    }

    ghost predicate Valid()
      reads this, buf
    {
      Buffered() && need <= 128 && Stage(hdrDigest, got, need, state)
    }

    constructor (hdrDigest: bool)
      ensures Valid() && fresh(buf) && this.hdrDigest == hdrDigest && got == []
    {
      this.hdrDigest := hdrDigest;
      buf := new byte[128];
      have, need, state := 0, 8, CommonHdr;
      got := [];
    }

    method Put(piece: seq<byte>)
      requires Buffered() && have + |piece| <= buf.Length
      modifies this`have, this`got, buf
      ensures Buffered() && got == old(got) + piece
    {
      forall i | 0 <= i < |piece| {
        buf[have + i] := piece[i];
      }
      have := have + |piece|;
      got := got + piece;
    }

    /** Collect a wanted piece; the eighth byte fixes the length, the last one completes the header. */
    method Absorb(piece: seq<byte>) returns (r: Result<(), PduError>)
      requires Valid() && state != CompleteHdr && piece != [] && have + |piece| <= need
      modifies this, buf
      ensures Buffered() && got == old(got) + piece
      ensures match r
              case Ok(_) => Valid() && FramingOf(hdrDigest).bad(got) == None
              case Err(e) => FramingOf(hdrDigest).bad(got) == Some(e)
    {
      ghost var before := got;
      Put(piece);
      if state == RestHdr {
        HeaderLenPrefix(hdrDigest, before, piece);
        if have == need {
          state := CompleteHdr;
        }
      } else if have == need {
        var len := FullHeaderLen();
        if len.Err? {
          return Err(len.error);
        }
        HeaderLenPrefix(hdrDigest, got, []);
        need := len.value;
        state := RestHdr;
      }
      r := Ok(());
    }

    method FullHeaderLen() returns (r: Result<nat, PduError>)
      requires Buffered() && 8 <= have
      ensures r == HeaderLen(hdrDigest, got)
    {
      r := HeaderLen(hdrDigest, buf[..have]);
    }

    /** Collect as much of `rest` as the current stage wants. */
    method FeedStage(rest: seq<byte>) returns (r: Result<nat, PduError>)
      requires Valid() && state != CompleteHdr && rest != []
      modifies this, buf
      ensures Buffered()
      ensures match r
              case Ok(n) =>
                && Valid() && 0 < n <= |rest|
                && Fed(FramingOf(hdrDigest), old(got), rest) == Bump(n, Fed(FramingOf(hdrDigest), got, rest[n..]))
              case Err(e) => Fed(FramingOf(hdrDigest), old(got), rest) == Err(e)
    {
      var take := Min(need - have, |rest|);
      var piece := rest[..take];
      var n := take - 1;
      StageQuiet(hdrDigest, got, need, state, rest[..n]);
      FedChunk(FramingOf(hdrDigest), got, rest[..n], rest[n], rest[take..]);
      assert rest == rest[..n] + [rest[n]] + rest[take..] && got + rest[..n] + [rest[n]] == got + piece;
      var ok := Absorb(piece);
      return if ok.Err? then Err(ok.error) else Ok(take);
    }

    /** The next stage, as part of working through the whole input. */
    method FeedNext(rest: seq<byte>, ghost got0: seq<byte>, ghost input: seq<byte>) returns (r: Result<seq<byte>, PduError>)
      requires Valid() && state != CompleteHdr && rest != [] && FedTo(FramingOf(hdrDigest), got0, input, got, rest)
      modifies this, buf
      ensures Buffered()
      ensures match r
              case Ok(next) => Valid() && |next| < |rest| && FedTo(FramingOf(hdrDigest), got0, input, got, next)
              case Err(e) => Fed(FramingOf(hdrDigest), got0, input) == Err(e)
    {
      var n := FeedStage(rest);
      return if n.Err? then Err(n.error) else Ok(rest[n.value..]);
    }

    /** Consume input toward the current header; stop once it is complete. */
    method Feed(input: seq<byte>) returns (r: Result<nat, PduError>)
      requires Valid()
      modifies this, buf
      ensures Buffered()
      ensures match r
              case Ok(n) =>
                Valid() && n <= |input| && Fed(FramingOf(hdrDigest), old(got), input) == Ok(Progress(got, n))
              case Err(e) => Fed(FramingOf(hdrDigest), old(got), input) == Err(e)
    {
      var rest := input;
      while state != CompleteHdr && rest != []
        invariant Valid() && FedTo(FramingOf(hdrDigest), old(got), input, got, rest)
        decreases |rest|
      {
        var n := FeedNext(rest, old(got), input);
        if n.Err? {
          return Err(n.error);
        }
        rest := n.value;
      }
      StageDone(hdrDigest, got, need, state);
      return Ok(|input| - |rest|);
    }

    /** Parse the complete header and reset for the next PDU. */
    method TakeHeader(crc: Crc) returns (r: Result<Decoded, PduError>)
      requires Valid() && state == CompleteHdr
      modifies this
      ensures Complete(hdrDigest, old(got)) && r == Take(crc, hdrDigest, old(got))
      ensures r.Ok? ==> Valid() && got == []
    {
      r := Take(crc, hdrDigest, buf[..have]);
      if r.Ok? {
        have, need, state := 0, 8, CommonHdr;
        got := [];
      }
    }
  }
}
