/**
  A command's data buffer as a list of physical segments of one arena, and the
  loops that read and write logical ranges of it. Whatever the scatter, they
  act on the buffer as on one contiguous byte string.
 */
module Segments {
  import opened Common
  import Pool

  /** `len` bytes of the arena from `ptr`. */
  datatype Seg = Seg(ptr: nat, len: nat)

  function Size(segs: seq<Seg>): nat {
    if segs == [] then 0 else segs[0].len + Size(segs[1..])
  }

  ghost predicate InArena(n: nat, segs: seq<Seg>) {
    segs != [] ==> segs[0].ptr + segs[0].len <= n && InArena(n, segs[1..])
  }

  predicate Clear(a: Seg, b: Seg) {
    a.ptr + a.len <= b.ptr || b.ptr + b.len <= a.ptr
  }

  ghost predicate ClearOf(a: Seg, segs: seq<Seg>) {
    segs != [] ==> Clear(a, segs[0]) && ClearOf(a, segs[1..])
  }

  /** No two segments overlap. */
  ghost predicate Apart(segs: seq<Seg>) {
    segs != [] ==> ClearOf(segs[0], segs[1..]) && Apart(segs[1..])
  }

  /** Where logical byte `i` of the buffer lies in the arena. */
  function Addr(segs: seq<Seg>, i: nat): nat
    requires i < Size(segs)
  {
    if i < segs[0].len then segs[0].ptr + i else Addr(segs[1..], i - segs[0].len)
  }

  lemma {:induction false} AddrIn(n: nat, segs: seq<Seg>, i: nat)
    requires InArena(n, segs) && i < Size(segs)
    ensures Addr(segs, i) < n
  {
    if i >= segs[0].len {
      AddrIn(n, segs[1..], i - segs[0].len);
    }
  }

  /** The buffer's logical contents. */
  ghost function Gather(m: seq<byte>, segs: seq<Seg>): (g: seq<byte>)
    requires InArena(|m|, segs)
    ensures |g| == Size(segs)
    ensures forall i :: 0 <= i < |g| ==> Addr(segs, i) < |m| && g[i] == m[Addr(segs, i)]
  {
    if segs == [] then []
    else
      var s := segs[0];
      var g := Gather(m, segs[1..]);
      m[s.ptr..s.ptr + s.len] + g
  }

  function Splice(m: seq<byte>, at: nat, b: seq<byte>): (r: seq<byte>)
    requires at + |b| <= |m|
    ensures |r| == |m|
    ensures forall i :: 0 <= i < |r| ==> r[i] == if at <= i < at + |b| then b[i - at] else m[i]
  {
    m[..at] + b + m[at + |b|..]
  }

  // ----- sub-ranges -----

  /** The pieces of the segments that make up the logical range `[off, off + len)`. */
  function SubRange(segs: seq<Seg>, off: nat, len: nat): seq<Seg> {
    if len == 0 || segs == [] then []
    else if off >= segs[0].len then SubRange(segs[1..], off - segs[0].len, len)
    else
      var take := Min(segs[0].len - off, len);
      [Seg(segs[0].ptr + off, take)] + SubRange(segs[1..], 0, len - take)
  }

  lemma {:induction false} SubRangeSize(n: nat, segs: seq<Seg>, off: nat, len: nat)
    requires InArena(n, segs) && off + len <= Size(segs)
    ensures var sub := SubRange(segs, off, len);
            InArena(n, sub) && Size(sub) == len && |sub| <= |segs|
    decreases |segs|
  {
    if len > 0 && segs != [] {
      if off >= segs[0].len {
        SubRangeSize(n, segs[1..], off - segs[0].len, len);
      } else {
        var take := Min(segs[0].len - off, len);
        SubRangeSize(n, segs[1..], 0, len - take);
        assert SubRange(segs, off, len)[1..] == SubRange(segs[1..], 0, len - take);
      }
    }
  }

  lemma {:induction false} SubRangeAddr(n: nat, segs: seq<Seg>, off: nat, len: nat, i: nat)
    requires InArena(n, segs) && off + len <= Size(segs) && i < len
    ensures i < Size(SubRange(segs, off, len)) && Addr(SubRange(segs, off, len), i) == Addr(segs, off + i)
    decreases |segs|
  {
    SubRangeSize(n, segs, off, len);
    if off >= segs[0].len {
      SubRangeAddr(n, segs[1..], off - segs[0].len, len, i);
    } else {
      var take := Min(segs[0].len - off, len);
      assert SubRange(segs, off, len)[1..] == SubRange(segs[1..], 0, len - take);
      if i >= take {
        SubRangeAddr(n, segs[1..], 0, len - take, i - take);
      }
    }
  }

  /** The sub-range holds the logical range. */
  lemma SubRangeGathers(m: seq<byte>, segs: seq<Seg>, off: nat, len: nat)
    requires InArena(|m|, segs) && off + len <= Size(segs)
    ensures InArena(|m|, SubRange(segs, off, len)) && |SubRange(segs, off, len)| <= |segs|
    ensures Gather(m, SubRange(segs, off, len)) == Gather(m, segs)[off..off + len]
  {
    SubRangeSize(|m|, segs, off, len);
    var g := Gather(m, SubRange(segs, off, len));
    forall i | 0 <= i < len ensures g[i] == Gather(m, segs)[off + i] {
      SubRangeAddr(|m|, segs, off, len, i);
    }
  }

  /** `fill_subsegs`. */
  method FillSubsegs(segs: seq<Seg>, off: nat, len: nat) returns (out: seq<Seg>)
    ensures out == SubRange(segs, off, len)
  {
    var rest, o: nat, l: nat := segs, off, len;
    out := [];
    while rest != [] && l > 0
      invariant out + SubRange(rest, o, l) == SubRange(segs, off, len)
      decreases |rest|
    {
      var s := rest[0];
      if o >= s.len {
        o := o - s.len;
      } else {
        var take := Min(s.len - o, l);
        ghost var tail := SubRange(rest[1..], 0, l - take);
        assert out + ([Seg(s.ptr + o, take)] + tail) == out + [Seg(s.ptr + o, take)] + tail;
        out := out + [Seg(s.ptr + o, take)];
        l := l - take;
        o := 0;
      }
      rest := rest[1..];
    }
    assert SubRange(rest, o, l) == [];
  }

  /** The bytes of each segment, in order. */
  function Chunks(m: seq<byte>, segs: seq<Seg>): seq<seq<byte>>
    requires InArena(|m|, segs)
  {
    if segs == [] then [] else [m[segs[0].ptr..segs[0].ptr + segs[0].len]] + Chunks(m, segs[1..])
  }

  lemma {:induction false} ChunksGather(m: seq<byte>, segs: seq<Seg>)
    requires InArena(|m|, segs)
    ensures Flatten(Chunks(m, segs)) == Gather(m, segs)
  {
    if segs != [] {
      ChunksGather(m, segs[1..]);
      assert Chunks(m, segs)[1..] == Chunks(m, segs[1..]);
    }
  }

  /** The slices a visit of `[off, off + len)` makes. */
  ghost function Visits(m: seq<byte>, segs: seq<Seg>, off: nat, len: nat): seq<seq<byte>>
    requires InArena(|m|, segs) && off + len <= Size(segs)
  {
    SubRangeSize(|m|, segs, off, len);
    Chunks(m, SubRange(segs, off, len))
  }

  lemma VisitPast(m: seq<byte>, segs: seq<Seg>, off: nat, len: nat)
    requires InArena(|m|, segs) && off + len <= Size(segs) && len > 0 && off >= segs[0].len
    ensures Visits(m, segs, off, len) == Visits(m, segs[1..], off - segs[0].len, len)
  {
  }

  lemma VisitHere(m: seq<byte>, segs: seq<Seg>, off: nat, len: nat, take: nat)
    requires InArena(|m|, segs) && off + len <= Size(segs) && len > 0 && off < segs[0].len
    requires take == Min(segs[0].len - off, len)
    ensures Visits(m, segs, off, len) ==
            [m[segs[0].ptr + off..segs[0].ptr + off + take]] + Visits(m, segs[1..], 0, len - take)
  {
    SubRangeSize(|m|, segs, off, len);
    assert SubRange(segs, off, len)[1..] == SubRange(segs[1..], 0, len - take);
  }

  lemma VisitsGather(m: seq<byte>, segs: seq<Seg>, off: nat, len: nat)
    requires InArena(|m|, segs) && off + len <= Size(segs)
    ensures Flatten(Visits(m, segs, off, len)) == Gather(m, segs)[off..off + len]
  {
    SubRangeGathers(m, segs, off, len);
    ChunksGather(m, SubRange(segs, off, len));
  }

  /** The segment loop: which slices are handed to the callback. */
  method VisitSegs(m: seq<byte>, segs: seq<Seg>, off: nat, len: nat) returns (chunks: seq<seq<byte>>)
    requires InArena(|m|, segs) && off + len <= Size(segs)
    ensures chunks == Visits(m, segs, off, len)
  {
    var rest, o: nat, l: nat := segs, off, len;
    chunks := [];
    ghost var todo := Visits(m, segs, off, len);
    while rest != [] && l > 0
      invariant InArena(|m|, rest) && o + l <= Size(rest)
      invariant todo == Visits(m, rest, o, l) && chunks + todo == Visits(m, segs, off, len)
      decreases |rest|
    {
      var s := rest[0];
      if o >= s.len {
        VisitPast(m, rest, o, l);
        o := o - s.len;
      } else {
        var take := Min(s.len - o, l);
        VisitHere(m, rest, o, l, take);
        chunks := chunks + [m[s.ptr + o..s.ptr + o + take]];
        todo := todo[1..];
        l := l - take;
        o := 0;
      }
      rest := rest[1..];
    }
  }

  /** `for_each_seg`: the slices visited, in order, are the logical range. */
  method ForEachSeg(m: seq<byte>, segs: seq<Seg>, off: nat, len: nat) returns (chunks: seq<seq<byte>>)
    requires InArena(|m|, segs) && off + len <= Size(segs)
    ensures Flatten(chunks) == Gather(m, segs)[off..off + len]
  {
    VisitsGather(m, segs, off, len);
    chunks := VisitSegs(m, segs, off, len);
  }

  // ----- writing -----

  /** Write `src` at logical offset `off`. */
  function Put(m: seq<byte>, segs: seq<Seg>, off: nat, src: seq<byte>): (r: seq<byte>)
    requires InArena(|m|, segs)
    ensures |r| == |m|
    decreases |segs|
  {
    if src == [] || segs == [] then m
    else if off >= segs[0].len then Put(m, segs[1..], off - segs[0].len, src)
    else
      var take := Min(segs[0].len - off, |src|);
      Put(Splice(m, segs[0].ptr + off, src[..take]), segs[1..], 0, src[take..])
  }

  /** Memory outside the segments is not touched. */
  lemma {:induction false} PutElsewhere(m: seq<byte>, segs: seq<Seg>, off: nat, src: seq<byte>, a: nat)
    requires InArena(|m|, segs) && a < |m| && ClearOf(Seg(a, 1), segs)
    ensures Put(m, segs, off, src)[a] == m[a]
    decreases |segs|
  {
    if src != [] && segs != [] {
      if off >= segs[0].len {
        PutElsewhere(m, segs[1..], off - segs[0].len, src, a);
      } else {
        var take := Min(segs[0].len - off, |src|);
        PutElsewhere(Splice(m, segs[0].ptr + off, src[..take]), segs[1..], 0, src[take..], a);
      }
    }
  }

  lemma {:induction false} ClearInside(s: Seg, segs: seq<Seg>, a: nat)
    requires ClearOf(s, segs) && s.ptr <= a < s.ptr + s.len
    ensures ClearOf(Seg(a, 1), segs)
  {
    if segs != [] {
      ClearInside(s, segs[1..], a);
    }
  }

  lemma {:induction false} AddrClear(s: Seg, segs: seq<Seg>, i: nat)
    requires ClearOf(s, segs) && i < Size(segs)
    ensures !(s.ptr <= Addr(segs, i) < s.ptr + s.len)
  {
    if i >= segs[0].len {
      AddrClear(s, segs[1..], i - segs[0].len);
    }
  }

  /** What a write does to the first segment. */
  lemma PutFirst(m: seq<byte>, segs: seq<Seg>, off: nat, src: seq<byte>, i: nat)
    requires InArena(|m|, segs) && segs != [] && ClearOf(segs[0], segs[1..]) && i < segs[0].len
    ensures Put(m, segs, off, src)[segs[0].ptr + i] ==
            if off <= i < off + |src| then src[i - off] else m[segs[0].ptr + i]
  {
    var s := segs[0];
    if src != [] {
      ClearInside(s, segs[1..], s.ptr + i);
      if off >= s.len {
        PutElsewhere(m, segs[1..], off - s.len, src, s.ptr + i);
      } else {
        PutFirstInside(m, segs, off, src, i);
      }
    }
  }

  lemma PutFirstInside(m: seq<byte>, segs: seq<Seg>, off: nat, src: seq<byte>, i: nat)
    requires InArena(|m|, segs) && segs != [] && src != [] && off < segs[0].len && i < segs[0].len
    requires ClearOf(Seg(segs[0].ptr + i, 1), segs[1..])
    ensures Put(m, segs, off, src)[segs[0].ptr + i] ==
            if off <= i < off + |src| then src[i - off] else m[segs[0].ptr + i]
  {
    var take := Min(segs[0].len - off, |src|);
    PutElsewhere(Splice(m, segs[0].ptr + off, src[..take]), segs[1..], 0, src[take..], segs[0].ptr + i);
  }

  lemma PutPast(m: seq<byte>, segs: seq<Seg>, off: nat, src: seq<byte>)
    requires InArena(|m|, segs) && segs != [] && off >= segs[0].len
    ensures Put(m, segs, off, src) == Put(m, segs[1..], off - segs[0].len, src)
  {
  }

  /** After the write, logical byte `i` is the source's or what it was. */
  lemma {:induction false} PutAt(m: seq<byte>, segs: seq<Seg>, off: nat, src: seq<byte>, i: nat)
    requires InArena(|m|, segs) && Apart(segs) && off + |src| <= Size(segs) && i < Size(segs)
    ensures Addr(segs, i) < |m|
    ensures Put(m, segs, off, src)[Addr(segs, i)] ==
            if off <= i < off + |src| then src[i - off] else m[Addr(segs, i)]
    decreases |segs|, 0
  {
    AddrIn(|m|, segs, i);
    var s, rest := segs[0], segs[1..];
    if i < s.len {
      PutFirst(m, segs, off, src, i);
    } else if src != [] {
      assert Addr(segs, i) == Addr(rest, i - s.len);
      if off >= s.len {
        PutPast(m, segs, off, src);
        PutAt(m, rest, off - s.len, src, i - s.len);
      } else {
        PutAfter(m, s, rest, off, src, i - s.len);
      }
    }
  }

  /** The part of the write beyond its first segment. */
  lemma PutAfter(m: seq<byte>, s: Seg, rest: seq<Seg>, off: nat, src: seq<byte>, j: nat)
    requires s.ptr + s.len <= |m| && InArena(|m|, rest) && ClearOf(s, rest) && Apart(rest) && j < Size(rest)
    requires off < s.len && off + |src| <= s.len + Size(rest)
    ensures var take := Min(s.len - off, |src|);
            var r := Put(Splice(m, s.ptr + off, src[..take]), rest, 0, src[take..]);
            && Addr(rest, j) < |m|
            && r[Addr(rest, j)] == if off <= s.len + j < off + |src| then src[s.len + j - off] else m[Addr(rest, j)]
    decreases |rest|, 1
  {
    var take := Min(s.len - off, |src|);
    var m1 := Splice(m, s.ptr + off, src[..take]);
    AddrIn(|m|, rest, j);
    AddrClear(s, rest, j);
    PutAt(m1, rest, 0, src[take..], j);
  }

  /** Writing through the segments is writing the contiguous buffer, and nothing else. */
  lemma PutGathers(m: seq<byte>, segs: seq<Seg>, off: nat, src: seq<byte>)
    requires InArena(|m|, segs) && Apart(segs) && off + |src| <= Size(segs)
    ensures Gather(Put(m, segs, off, src), segs) == Splice(Gather(m, segs), off, src)
    ensures forall a :: 0 <= a < |m| && ClearOf(Seg(a, 1), segs) ==> Put(m, segs, off, src)[a] == m[a]
  {
    var g := Gather(Put(m, segs, off, src), segs);
    forall i | 0 <= i < |g| ensures g[i] == Splice(Gather(m, segs), off, src)[i] {
      PutAt(m, segs, off, src, i);
    }
    forall a | 0 <= a < |m| && ClearOf(Seg(a, 1), segs) ensures Put(m, segs, off, src)[a] == m[a] {
      PutElsewhere(m, segs, off, src, a);
    }
  }

  /** `copy_nonoverlapping` into the arena. */
  method CopyIn(m: array<byte>, at: nat, src: seq<byte>)
    requires at + |src| <= m.Length
    modifies m
    ensures m[..] == Splice(old(m[..]), at, src)
  {
    forall i | 0 <= i < |src| {
      m[at + i] := src[i];
    }
  }

  /** `write_at`: cross segment boundaries as needed. */
  method WriteAt(m: array<byte>, segs: seq<Seg>, off: nat, src: seq<byte>)
    requires InArena(m.Length, segs)
    modifies m
    ensures m[..] == Put(old(m[..]), segs, off, src)
  {
    var rest, o: nat, left := segs, off, src;
    while rest != [] && left != []
      invariant InArena(m.Length, rest)
      invariant Put(m[..], rest, o, left) == Put(old(m[..]), segs, off, src)
      decreases |rest|
    {
      var s := rest[0];
      if o >= s.len {
        o := o - s.len;
      } else {
        var take := Min(s.len - o, |left|);
        CopyIn(m, s.ptr + o, left[..take]);
        left := left[take..];
        o := 0;
      }
      rest := rest[1..];
    }
  }

  // ----- receiving straight into the segments -----

  /** The segments still awaiting bytes once `n` have landed. */
  function Skip(iovs: seq<Seg>, n: nat): seq<Seg> {
    if n == 0 || iovs == [] then iovs
    else if iovs[0].len <= n then Skip(iovs[1..], n - iovs[0].len)
    else [Seg(iovs[0].ptr + n, iovs[0].len - n)] + iovs[1..]
  }

  lemma {:induction false} SkipIn(n: nat, iovs: seq<Seg>, k: nat)
    requires InArena(n, iovs) && k <= Size(iovs)
    ensures InArena(n, Skip(iovs, k)) && Size(Skip(iovs, k)) == Size(iovs) - k
    decreases |iovs|
  {
    if k > 0 && iovs != [] {
      if iovs[0].len <= k {
        SkipIn(n, iovs[1..], k - iovs[0].len);
      } else {
        assert Skip(iovs, k)[1..] == iovs[1..];
      }
    }
  }

  lemma {:induction false} SkipAddr(n: nat, iovs: seq<Seg>, k: nat, i: nat)
    requires InArena(n, iovs) && k + i < Size(iovs)
    ensures i < Size(Skip(iovs, k)) && Addr(Skip(iovs, k), i) == Addr(iovs, k + i)
    decreases |iovs|
  {
    SkipIn(n, iovs, k);
    if k > 0 && iovs != [] {
      if iovs[0].len <= k {
        SkipAddr(n, iovs[1..], k - iovs[0].len, i);
      } else {
        assert Skip(iovs, k)[1..] == iovs[1..];
      }
    }
  }

  lemma {:induction false} SkipClear(x: Seg, iovs: seq<Seg>, k: nat)
    requires ClearOf(x, iovs)
    ensures ClearOf(x, Skip(iovs, k))
    decreases |iovs|
  {
    if k > 0 && iovs != [] {
      if iovs[0].len <= k {
        SkipClear(x, iovs[1..], k - iovs[0].len);
      } else {
        assert Skip(iovs, k)[1..] == iovs[1..];
      }
    }
  }

  lemma {:induction false} SkipApart(iovs: seq<Seg>, k: nat)
    requires Apart(iovs)
    ensures Apart(Skip(iovs, k))
    decreases |iovs|
  {
    if k > 0 && iovs != [] {
      if iovs[0].len <= k {
        SkipApart(iovs[1..], k - iovs[0].len);
      } else {
        assert Skip(iovs, k)[1..] == iovs[1..];
        ClearPart(iovs[0], Skip(iovs, k)[0], iovs[1..]);
      }
    }
  }

  lemma {:induction false} ClearPart(s: Seg, t: Seg, segs: seq<Seg>)
    requires ClearOf(s, segs) && s.ptr <= t.ptr && t.ptr + t.len <= s.ptr + s.len
    ensures ClearOf(t, segs)
  {
    if segs != [] {
      ClearPart(s, t, segs[1..]);
    }
  }

  /** What has been skipped is clear of what is left. */
  lemma {:induction false} SkippedClear(iovs: seq<Seg>, k: nat, i: nat)
    requires Apart(iovs) && i < k <= Size(iovs)
    ensures ClearOf(Seg(Addr(iovs, i), 1), Skip(iovs, k))
    decreases |iovs|
  {
    var s := iovs[0];
    if i < s.len {
      ClearInside(s, iovs[1..], s.ptr + i);
      if s.len <= k {
        SkipClear(Seg(s.ptr + i, 1), iovs[1..], k - s.len);
      } else {
        assert Skip(iovs, k)[1..] == iovs[1..];
      }
    } else {
      SkippedClear(iovs[1..], k - s.len, i - s.len);
    }
  }

  /** `now` is `was` with `src` written at the start of the buffer and nothing else changed. */
  ghost predicate Landed(was: seq<byte>, now: seq<byte>, iovs: seq<Seg>, src: seq<byte>) {
    && |now| == |was| && InArena(|was|, iovs) && |src| <= Size(iovs)
    && Gather(now, iovs) == Splice(Gather(was, iovs), 0, src)
    && (forall a :: 0 <= a < |was| && ClearOf(Seg(a, 1), iovs) ==> now[a] == was[a])
  }

  lemma LandedAt(was: seq<byte>, now: seq<byte>, iovs: seq<Seg>, src: seq<byte>, i: nat)
    requires Landed(was, now, iovs, src) && i < Size(iovs)
    ensures Addr(iovs, i) < |was| && now[Addr(iovs, i)] == if i < |src| then src[i] else was[Addr(iovs, i)]
  {
    AddrIn(|was|, iovs, i);
    assert Gather(now, iovs)[i] == Splice(Gather(was, iovs), 0, src)[i];
  }

  lemma LandedBeyond(mid: seq<byte>, now: seq<byte>, iovs: seq<Seg>, k: nat, b: seq<byte>, i: nat)
    requires InArena(|mid|, iovs) && k <= i < Size(iovs) && Landed(mid, now, Skip(iovs, k), b)
    ensures Addr(iovs, i) < |mid|
    ensures now[Addr(iovs, i)] == if i - k < |b| then b[i - k] else mid[Addr(iovs, i)]
  {
    SkipAddr(|mid|, iovs, k, i - k);
    LandedAt(mid, now, Skip(iovs, k), b, i - k);
  }

  lemma LandedResumesAt(was: seq<byte>, mid: seq<byte>, now: seq<byte>, iovs: seq<Seg>, a: seq<byte>, b: seq<byte>, i: nat)
    requires Apart(iovs) && |a| + |b| <= Size(iovs) && i < Size(iovs)
    requires Landed(was, mid, iovs, a) && Landed(mid, now, Skip(iovs, |a|), b)
    ensures Addr(iovs, i) < |was|
    ensures now[Addr(iovs, i)] == if i < |a + b| then (a + b)[i] else was[Addr(iovs, i)]
  {
    LandedAt(was, mid, iovs, a, i);
    if i < |a| {
      SkippedClear(iovs, |a|, i);
    } else {
      LandedBeyond(mid, now, iovs, |a|, b, i);
    }
  }

  /** Resuming after a short receive continues the same write. */
  lemma LandedResumes(was: seq<byte>, mid: seq<byte>, now: seq<byte>, iovs: seq<Seg>, a: seq<byte>, b: seq<byte>)
    requires Apart(iovs) && |a| + |b| <= Size(iovs)
    requires Landed(was, mid, iovs, a) && Landed(mid, now, Skip(iovs, |a|), b)
    ensures Landed(was, now, iovs, a + b)
  {
    var g, w := Gather(now, iovs), Gather(was, iovs);
    forall i | 0 <= i < Size(iovs) ensures g[i] == Splice(w, 0, a + b)[i] {
      AddrIn(|was|, iovs, i);
      LandedResumesAt(was, mid, now, iovs, a, b, i);
    }
    assert g == Splice(w, 0, a + b);
    forall x | 0 <= x < |was| && ClearOf(Seg(x, 1), iovs) ensures now[x] == was[x] {
      SkipClear(Seg(x, 1), iovs, |a|);
    }
  }

  /** Move past the `n` bytes that landed. */
  method AdvanceIovs(iovs: seq<Seg>, n: nat) returns (left: seq<Seg>)
    requires n <= Size(iovs)
    ensures left == Skip(iovs, n)
  {
    left := iovs;
    var adv: nat := n;
    while adv > 0
      invariant adv <= Size(left) && Skip(left, adv) == Skip(iovs, n)
      decreases |left|, adv
    {
      var v := left[0];
      if v.len <= adv {
        adv := adv - v.len;
        left := left[1..];
      } else {
        left := [Seg(v.ptr + adv, v.len - adv)] + left[1..];
        adv := 0;
      }
    }
  }

  /**
    `read_direct_vectored`: the socket delivers in pieces of any size, resumed
    until everything has landed or the stream ends.
   */
  method ReadDirect(m: array<byte>, iovs: seq<Seg>, arrivals: seq<seq<byte>>) returns (done: nat)
    requires InArena(m.Length, iovs) && Apart(iovs) && |Flatten(arrivals)| <= Size(iovs)
    modifies m
    ensures done == |Flatten(arrivals)| && Landed(old(m[..]), m[..], iovs, Flatten(arrivals))
  {
    var left, more := iovs, arrivals;
    ghost var landed: seq<byte> := [];
    ghost var was := m[..];
    done := 0;
    LandedNothing(was, iovs);
    while more != []
      invariant done == |landed| && ReadTo(was, m[..], iovs, landed, left, more, Flatten(arrivals))
      decreases |more|
    {
      left := ReadPiece(m, iovs, left, more, was, landed, Flatten(arrivals));
      done := done + |more[0]|;
      landed := landed + more[0];
      more := more[1..];
    }
    assert landed == Flatten(arrivals);
  }

  /** Of everything that arrives, `landed` is in place, `left` is still open and `more` is to come. */
  ghost predicate ReadTo(was: seq<byte>, now: seq<byte>, iovs: seq<Seg>, landed: seq<byte>, left: seq<Seg>,
                         more: seq<seq<byte>>, all: seq<byte>) {
    && landed + Flatten(more) == all && |all| <= Size(iovs)
    && left == Skip(iovs, |landed|) && Landed(was, now, iovs, landed)
  }

  lemma FlattenNext(landed: seq<byte>, more: seq<seq<byte>>, all: seq<byte>)
    requires more != [] && landed + Flatten(more) == all
    ensures (landed + more[0]) + Flatten(more[1..]) == all && |landed| + |more[0]| <= |all|
  {
  }

  lemma LandedNothing(was: seq<byte>, iovs: seq<Seg>)
    requires InArena(|was|, iovs)
    ensures Landed(was, was, iovs, [])
  {
    assert Splice(Gather(was, iovs), 0, []) == Gather(was, iovs);
  }

  /** One `recvmsg`: the kernel scatters what it has over the segments still open, and the caller moves past it. */
  method ReadPiece(m: array<byte>, iovs: seq<Seg>, left: seq<Seg>, more: seq<seq<byte>>,
                   ghost was: seq<byte>, ghost landed: seq<byte>, ghost all: seq<byte>) returns (next: seq<Seg>)
    requires Apart(iovs) && |was| == m.Length && more != []
    requires ReadTo(was, m[..], iovs, landed, left, more, all)
    modifies m
    ensures ReadTo(was, m[..], iovs, landed + more[0], next, more[1..], all)
  {
    ghost var mid := m[..];
    OpenFits(was, mid, iovs, landed, left, more, all);
    WriteAt(m, left, 0, more[0]);
    next := AdvanceIovs(left, |more[0]|);
    ReadOn(was, mid, m[..], iovs, landed, left, more, all);
  }

  lemma OpenFits(was: seq<byte>, mid: seq<byte>, iovs: seq<Seg>, landed: seq<byte>, left: seq<Seg>,
                 more: seq<seq<byte>>, all: seq<byte>)
    requires Apart(iovs) && more != [] && ReadTo(was, mid, iovs, landed, left, more, all)
    ensures InArena(|mid|, left) && Apart(left) && |landed| + |more[0]| <= Size(iovs) && |more[0]| <= Size(left)
    ensures (landed + more[0]) + Flatten(more[1..]) == all
  {
    FlattenNext(landed, more, all);
    SkipIn(|mid|, iovs, |landed|);
    SkipApart(iovs, |landed|);
  }

  lemma LandsOn(was: seq<byte>, mid: seq<byte>, now: seq<byte>, iovs: seq<Seg>, left: seq<Seg>, a: seq<byte>, b: seq<byte>)
    requires Apart(iovs) && |a| + |b| <= Size(iovs) && Landed(was, mid, iovs, a)
    requires left == Skip(iovs, |a|) && InArena(|mid|, left) && Apart(left) && |b| <= Size(left)
    requires now == Put(mid, left, 0, b)
    ensures Landed(was, now, iovs, a + b)
  {
    PutLands(mid, now, left, b);
    LandedResumes(was, mid, now, iovs, a, b);
  }

  lemma SkipOn(iovs: seq<Seg>, left: seq<Seg>, a: seq<byte>, b: seq<byte>)
    requires |a| + |b| <= Size(iovs) && left == Skip(iovs, |a|)
    ensures Skip(left, |b|) == Skip(iovs, |a + b|)
  {
    SkipSkip(iovs, |a|, |b|);
  }

  lemma ReadOn(was: seq<byte>, mid: seq<byte>, now: seq<byte>, iovs: seq<Seg>, landed: seq<byte>, left: seq<Seg>,
               more: seq<seq<byte>>, all: seq<byte>)
    requires Apart(iovs) && more != [] && ReadTo(was, mid, iovs, landed, left, more, all)
    requires InArena(|mid|, left) && now == Put(mid, left, 0, more[0])
    ensures ReadTo(was, now, iovs, landed + more[0], Skip(left, |more[0]|), more[1..], all)
  {
    OpenFits(was, mid, iovs, landed, left, more, all);
    LandsOn(was, mid, now, iovs, left, landed, more[0]);
    SkipOn(iovs, left, landed, more[0]);
  }

  lemma PutLands(was: seq<byte>, now: seq<byte>, iovs: seq<Seg>, src: seq<byte>)
    requires InArena(|was|, iovs) && Apart(iovs) && |src| <= Size(iovs) && now == Put(was, iovs, 0, src)
    ensures Landed(was, now, iovs, src)
  {
    PutGathers(was, iovs, 0, src);
  }

  lemma {:induction false} SkipSkip(iovs: seq<Seg>, a: nat, b: nat)
    requires a + b <= Size(iovs)
    ensures Skip(Skip(iovs, a), b) == Skip(iovs, a + b)
    decreases |iovs|
  {
    if a > 0 && b > 0 && iovs != [] {
      var s := iovs[0];
      if s.len <= a {
        SkipSkip(iovs[1..], a - s.len, b);
      } else {
        assert ([Seg(s.ptr + a, s.len - a)] + iovs[1..])[1..] == iovs[1..];
        if s.len == a + b {
          assert Skip(iovs[1..], 0) == iovs[1..];
        }
      }
    }
  }

  /** Receiving into the sub-range is writing at its offset. */
  lemma {:induction false} PutSubRange(m: seq<byte>, segs: seq<Seg>, off: nat, src: seq<byte>)
    requires InArena(|m|, segs) && off + |src| <= Size(segs)
    ensures InArena(|m|, SubRange(segs, off, |src|))
    ensures Put(m, SubRange(segs, off, |src|), 0, src) == Put(m, segs, off, src)
    decreases |segs|
  {
    SubRangeSize(|m|, segs, off, |src|);
    if src != [] && segs != [] {
      var s, rest := segs[0], segs[1..];
      if off >= s.len {
        PutSubRange(m, rest, off - s.len, src);
      } else {
        var take := Min(s.len - off, |src|);
        SubRangeSize(|m|, rest, 0, |src| - take);
        PutSubRange(Splice(m, s.ptr + off, src[..take]), rest, 0, src[take..]);
        PutSubFirst(m, segs, off, src, take);
      }
    }
  }

  lemma PutSubFirst(m: seq<byte>, segs: seq<Seg>, off: nat, src: seq<byte>, take: nat)
    requires InArena(|m|, segs) && segs != [] && src != [] && off < segs[0].len && take == Min(segs[0].len - off, |src|)
    requires InArena(|m|, SubRange(segs, off, |src|)) && InArena(|m|, SubRange(segs[1..], 0, |src| - take))
    ensures Put(m, SubRange(segs, off, |src|), 0, src) ==
            Put(Splice(m, segs[0].ptr + off, src[..take]), SubRange(segs[1..], 0, |src| - take), 0, src[take..])
  {
    assert SubRange(segs, off, |src|)[1..] == SubRange(segs[1..], 0, |src| - take);
  }

  // ----- pool leases -----

  function SegsOf(lease: seq<Pool.Run>): seq<Seg> {
    if lease == [] then []
    else [Seg(lease[0].start * Pool.PAGE, lease[0].len * Pool.PAGE)] + SegsOf(lease[1..])
  }

  lemma {:induction false} LeaseClear(r: Pool.Run, lease: seq<Pool.Run>)
    requires r.len > 0 && Pool.Disjoint(lease) && r.Pages() !! Pool.PagesOf(lease)
    ensures ClearOf(Seg(r.start * Pool.PAGE, r.len * Pool.PAGE), SegsOf(lease))
  {
    if lease != [] {
      Pool.Apart(lease[0], r);
      LeaseClear(r, lease[1..]);
      assert SegsOf(lease)[1..] == SegsOf(lease[1..]);
    }
  }

  /** A lease's segments lie in the arena, do not overlap and hold all its bytes. */
  lemma {:induction false} LeaseSegs(npages: nat, lease: seq<Pool.Run>)
    requires Pool.Disjoint(lease) && Pool.PagesOf(lease) <= Pool.AllPages(npages)
    ensures InArena(npages * Pool.PAGE, SegsOf(lease)) && Apart(SegsOf(lease))
    ensures Size(SegsOf(lease)) == Pool.Total(lease) * Pool.PAGE && |SegsOf(lease)| == |lease|
  {
    if lease != [] {
      var r := lease[0];
      LeaseSegs(npages, lease[1..]);
      LeaseClear(r, lease[1..]);
      assert SegsOf(lease)[1..] == SegsOf(lease[1..]);
      assert r.Has(r.start + r.len - 1);
      assert r.start + r.len - 1 in r.Pages();
      assert r.start + r.len <= npages;
    }
  }
}
