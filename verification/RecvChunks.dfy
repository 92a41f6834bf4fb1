/**
  Processing a stretch of bytes at once is processing them one by one: the
  facts that let the window-at-a-time receive loop be compared with the byte
  machine.
 */
module RecvChunks {
  import opened Common
  import opened Digest
  import opened Pdu
  import opened PduDecoders
  import opened RecvMachine

  // ----- payload bytes -----

  /** The payload in progress has a slot, and unless kept in the ring, room in its lease. */
  ghost predicate DataPlaced(st: St) {
    && st.phase.Data? && st.phase.tag in st.recv
    && var slot := st.recv[st.phase.tag];
       var total := Total(slot, st.phase.kind);
       && 0 < st.phase.remaining <= total
       && (!st.phase.retained ==> slot.store.Lease? && st.phase.base + total <= |slot.store.bytes|)
  }

  lemma WriteCompose(store: Store, at: nat, a: seq<byte>, b: seq<byte>)
    requires store.Lease? && at + |a| + |b| <= |store.bytes|
    ensures Write(Write(store, at, a), at + |a|, b) == Write(store, at, a + b)
  {
    var s := store.bytes;
    var w := s[..at] + a + s[at + |a|..];
    assert w[..at + |a|] == s[..at] + a;
    assert w[at + |a| + |b|..] == s[at + |a| + |b|..];
    assert s[..at] + a + b == s[..at] + (a + b);
  }

  lemma LandCompose(env: Env, st: St, a: seq<byte>, b: seq<byte>)
    requires Composes(env.crc) && DataPlaced(st) && |a| + |b| <= st.phase.remaining
    ensures Land(env, Land(env, st, a), b) == Land(env, st, a + b)
  {
    var p := st.phase;
    var slot := st.recv[p.tag];
    var st1 := Land(env, st, a);
    var dest := p.base + (Total(slot, p.kind) - p.remaining);
    assert st.seen + a + b == st.seen + (a + b);
    assert env.crc(env.crc(p.sum, a), b) == env.crc(p.sum, a + b);
    if !p.retained {
      WriteCompose(slot.store, dest, a, b);
    }
    var st2 := Land(env, st, a + b);
    assert Land(env, st1, b).recv == st2.recv;
  }

  lemma {:induction false} DataFeeds(env: Env, st: St, chunk: seq<byte>)
    requires Composes(env.crc) && DataPlaced(st) && 0 < |chunk| <= st.phase.remaining
    ensures Feed(env, st, chunk) == AdvanceData(env, st, chunk)
    decreases |chunk|
  {
    var first := [chunk[0]];
    var rest := chunk[1..];
    assert chunk == first + rest;
    var st1 := Land(env, st, first);
    if rest == [] {
      assert chunk == first;
    } else {
      assert DataPlaced(st1) && st1.phase.remaining == st.phase.remaining - 1;
      LandCompose(env, st, first, rest);
      DataFeeds(env, st1, rest);
    }
  }

  // ----- digest bytes -----

  lemma {:induction false} DdgstFeeds(env: Env, st: St, chunk: seq<byte>)
    requires st.phase.Ddgst? && st.phase.tag in st.recv && 0 < |chunk| && |st.phase.have| + |chunk| <= 4
    ensures Feed(env, st, chunk) == AdvanceDdgst(st, chunk)
    decreases |chunk|
  {
    var st1 := AdvanceDdgst(st, chunk[..1]);
    assert chunk[..1] == [chunk[0]];
    assert StepByte(env, st, chunk[0]) == st1;
    if |chunk| == 1 {
      assert chunk[1..] == [] && chunk[..1] == chunk;
    } else {
      DdgstFeeds(env, st1, chunk[1..]);
      assert st.phase.have + chunk[..1] + chunk[1..] == st.phase.have + chunk;
      assert st.seen + chunk[..1] + chunk[1..] == st.seen + chunk;
    }
  }

  // ----- header bytes -----

  lemma QuietByte(env: Env, st: St, b: byte)
    requires st.phase.Header? && Quiet(FramingOf(env.hdrDigest), st.phase.got + [b])
    ensures StepByte(env, st, b) == st.(seen := st.seen + [b], phase := Header(st.phase.got + [b]))
  {
    var g := st.phase.got + [b];
    assert !Complete(env.hdrDigest, g) && !(|g| == 8 && HeaderLen(env.hdrDigest, g).Err?);
  }

  /** Quiet header bytes only accumulate. */
  lemma {:induction false} Accumulates(env: Env, st: St, a: seq<byte>)
    requires st.phase.Header? && QuietThrough(FramingOf(env.hdrDigest), st.phase.got, a)
    ensures Feed(env, st, a) == st.(seen := st.seen + a, phase := Header(st.phase.got + a))
    decreases |a|
  {
    var got := st.phase.got;
    if a == [] {
      assert st.seen + a == st.seen && got + a == got;
    } else {
      var g := got + [a[0]];
      QuietByte(env, st, a[0]);
      Accumulates(env, st.(seen := st.seen + [a[0]], phase := Header(g)), a[1..]);
      assert st.seen + [a[0]] + a[1..] == st.seen + a && g + a[1..] == got + a;
    }
  }

  /** The byte that completes or rejects the header `got + a`. */
  lemma HeaderEnds(env: Env, st: St, a: seq<byte>)
    requires st.phase.Header? && a != [] && QuietThrough(FramingOf(env.hdrDigest), st.phase.got, a[..|a| - 1])
    ensures Feed(env, st, a) ==
            AfterHeader(env, st.(seen := st.seen + a, phase := Header([])), st.phase.got + a)
  {
    var n := |a| - 1;
    var st1 := Feed(env, st, a[..n]);
    Accumulates(env, st, a[..n]);
    FeedAppend(env, st, a[..n], a[n..]);
    assert a == a[..n] + a[n..] && a[n..] == [a[n]];
    assert Feed(env, st1, [a[n]]) == StepByte(env, st1, a[n]) by {
      assert [a[n]][1..] == [];
    }
    assert st.seen + a[..n] + [a[n]] == st.seen + a && st.phase.got + a[..n] + [a[n]] == st.phase.got + a;
  }
}
