/**
  The stream read as a sequence of PDUs, from its bytes alone: where PDUs
  start, and what length and digest the header in front of a payload announces.
 */
module RecvFraming {
  import opened Common
  import opened Pdu
  import opened RecvMachine

  function Trailer(dd: bool): nat {
    if dd then 4 else 0
  }

  /** The bytes from `h` to `start` are a whole header that announces `len` payload bytes, with a digest if `dd`. */
  ghost predicate Announced(env: Env, seen: seq<byte>, h: nat, start: nat, len: nat, dd: bool) {
    && h < start <= |seen| && Complete(env.hdrDigest, seen[h..start])
    && var r := Take(env.crc, env.hdrDigest, seen[h..start]);
       r.Ok? && len == r.value.dataLen && dd == (r.value.ddgst && env.dataDigest)
  }

  /** A PDU of the stream announces the `len` bytes from `start` as its payload. */
  ghost predicate Told(env: Env, seen: seq<byte>, start: nat, len: nat, dd: bool)
    decreases start, 0
  {
    exists h: nat :: h < start && Bound(env, seen, h) && Announced(env, seen, h, start, len, dd)
  }

  /** A PDU starts at `at`: the stream up to there is whole PDUs. */
  ghost predicate Bound(env: Env, seen: seq<byte>, at: nat)
    decreases at, 1
  {
    at == 0 ||
    (at <= |seen| &&
     exists start: nat, len: nat, dd: bool :: start <= at && start + len + Trailer(dd) == at && Told(env, seen, start, len, dd))
  }

  /** The stream only grows, so what it said stays said. */
  lemma {:induction false} ToldGrows(env: Env, seen: seq<byte>, more: seq<byte>, start: nat, len: nat, dd: bool)
    requires Told(env, seen, start, len, dd)
    ensures Told(env, seen + more, start, len, dd)
    decreases start, 0
  {
    var h: nat :| h < start && Bound(env, seen, h) && Announced(env, seen, h, start, len, dd);
    BoundGrows(env, seen, more, h);
    assert (seen + more)[h..start] == seen[h..start];
    assert Announced(env, seen + more, h, start, len, dd);
  }

  lemma {:induction false} BoundGrows(env: Env, seen: seq<byte>, more: seq<byte>, at: nat)
    requires Bound(env, seen, at)
    ensures Bound(env, seen + more, at)
    decreases at, 1
  {
    if at > 0 {
      var start: nat, len: nat, dd: bool :|
        start <= at && start + len + Trailer(dd) == at && Told(env, seen, start, len, dd);
      ToldGrows(env, seen, more, start, len, dd);
    }
  }

  /** The header that just completed announces what comes next. */
  lemma CompleteTells(env: Env, seen: seq<byte>, h: nat, d: Decoded)
    requires h < |seen| && Bound(env, seen, h) && Complete(env.hdrDigest, seen[h..])
    requires Take(env.crc, env.hdrDigest, seen[h..]) == Ok(d)
    ensures Told(env, seen, |seen|, d.dataLen, d.ddgst && env.dataDigest)
  {
    assert seen[h..|seen|] == seen[h..];
    assert Announced(env, seen, h, |seen|, d.dataLen, d.ddgst && env.dataDigest);
  }

  /** A digest is only announced for a payload. */
  lemma DigestNeedsPayload(env: Env, h: seq<byte>)
    requires Complete(env.hdrDigest, h)
    ensures Take(env.crc, env.hdrDigest, h).Ok? && Take(env.crc, env.hdrDigest, h).value.ddgst ==>
      Take(env.crc, env.hdrDigest, h).value.dataLen > 0
  {
  }

  // ----- the reading is unique -----

  /** A header's length is decided by its first bytes, so a start has one header. */
  lemma OneHeader(env: Env, seen: seq<byte>, h: nat, start: nat, len: nat, dd: bool, start': nat, len': nat, dd': bool)
    requires Announced(env, seen, h, start, len, dd) && Announced(env, seen, h, start', len', dd')
    ensures start == start' && len == len' && dd == dd'
  {
    var a, b := seen[h..start], seen[h..start'];
    assert forall i :: 0 <= i < 8 ==> a[i] == b[i];
    assert HeaderLen(env.hdrDigest, a) == HeaderLen(env.hdrDigest, b);
  }

  /** No PDU starts strictly inside another. */
  lemma {:induction false} NoneInside(env: Env, seen: seq<byte>, at: nat, h: nat, start: nat, len: nat, dd: bool)
    requires Bound(env, seen, at) && Bound(env, seen, h) && Announced(env, seen, h, start, len, dd)
    ensures at <= h || start + len + Trailer(dd) <= at
    decreases at
  {
    if h < at {
      var start': nat, len': nat, dd': bool :|
        start' <= at && start' + len' + Trailer(dd') == at && Told(env, seen, start', len', dd');
      var h': nat :| h' < start' && Bound(env, seen, h') && Announced(env, seen, h', start', len', dd');
      if h' == h {
        OneHeader(env, seen, h, start, len, dd, start', len', dd');
      } else if h' < h {
        NoneInside(env, seen, h, h', start', len', dd');
      } else {
        NoneInside(env, seen, h', h, start, len, dd);
      }
    }
  }

  /** A payload start has one announced length and one digest flag. */
  lemma ToldOnce(env: Env, seen: seq<byte>, start: nat, len: nat, dd: bool, len': nat, dd': bool)
    requires Told(env, seen, start, len, dd) && Told(env, seen, start, len', dd')
    ensures len == len' && dd == dd'
  {
    var h: nat :| h < start && Bound(env, seen, h) && Announced(env, seen, h, start, len, dd);
    var h': nat :| h' < start && Bound(env, seen, h') && Announced(env, seen, h', start, len', dd');
    NoneInside(env, seen, h', h, start, len, dd);
    NoneInside(env, seen, h, h', start, len', dd');
    OneHeader(env, seen, h, start, len, dd, start, len', dd');
  }
}
