/**
  The per-queue data-buffer pool: a free list of page runs, kept sorted and
  coalesced, that leases contiguous runs when one fits and scattered ones
  otherwise.
 */
module Pool {
  import opened Common

  const PAGE: nat := 4096
  const MAX_SEGS: nat := 32
  const U32_LIMIT: nat := 0x1_0000_0000

  /** A run of contiguous pages. */
  datatype Run = Run(start: nat, len: nat) {
    function End(): nat {
      start + len
    }

    predicate Has(p: nat) {
      start <= p < start + len
    }

    ghost function Pages(): set<nat> {
      set p: nat | start <= p < start + len && Has(p)
    }
  }

  ghost function PagesOf(runs: seq<Run>): set<nat> {
    if runs == [] then {} else runs[0].Pages() + PagesOf(runs[1..])
  }

  function Total(runs: seq<Run>): nat {
    if runs == [] then 0 else runs[0].len + Total(runs[1..])
  }

  /** Sorted, non-empty and maximal: each run ends before the next begins, and they do not touch. */
  ghost predicate Canonical(runs: seq<Run>) {
    runs != [] ==>
      && runs[0].len > 0
      && (|runs| > 1 ==> runs[0].End() < runs[1].start)
      && Canonical(runs[1..])
  }

  /** Non-empty runs that share no page. */
  ghost predicate Disjoint(runs: seq<Run>) {
    runs != [] ==> runs[0].len > 0 && runs[0].Pages() !! PagesOf(runs[1..]) && Disjoint(runs[1..])
  }

  function Last(runs: seq<Run>): Run
    requires runs != []
  {
    runs[|runs| - 1]
  }

  // ----- runs and pages -----

  lemma {:induction false} PagesAppend(a: seq<Run>, b: seq<Run>)
    ensures PagesOf(a + b) == PagesOf(a) + PagesOf(b)
    ensures Total(a + b) == Total(a) + Total(b)
  {
    if a == [] {
      assert a + b == b;
    } else {
      assert (a + b)[1..] == a[1..] + b;
      PagesAppend(a[1..], b);
    }
  }

  lemma PagesOfOne(r: Run)
    ensures PagesOf([r]) == r.Pages() && Total([r]) == r.len
  {
    assert [r][1..] == [];
  }

  lemma PagesAround(a: seq<Run>, r: Run, b: seq<Run>)
    ensures PagesOf(a + [r] + b) == PagesOf(a) + r.Pages() + PagesOf(b)
    ensures Total(a + [r] + b) == Total(a) + r.len + Total(b)
  {
    PagesAppend(a + [r], b);
    PagesAppend(a, [r]);
    PagesOfOne(r);
  }

  lemma RunPages(r: Run)
    ensures |r.Pages()| == r.len
    decreases r.len
  {
    if r.len == 0 {
      assert r.Pages() == {};
    } else {
      var q := Run(r.start, r.len - 1);
      RunPages(q);
      assert r.Pages() == q.Pages() + {r.start + r.len - 1};
    }
  }

  /** For runs that share no page, the total is the number of pages. */
  lemma {:induction false} TotalCounts(runs: seq<Run>)
    requires Disjoint(runs)
    ensures |PagesOf(runs)| == Total(runs)
  {
    if runs != [] {
      TotalCounts(runs[1..]);
      RunPages(runs[0]);
    }
  }

  /** No page of a canonical list lies before its first run. */
  lemma {:induction false} LowestPage(runs: seq<Run>, p: nat)
    requires Canonical(runs) && p in PagesOf(runs)
    ensures runs[0].start <= p
    ensures p < runs[0].End() || (|runs| > 1 && runs[1].start <= p)
  {
    if p !in runs[0].Pages() {
      LowestPage(runs[1..], p);
    }
  }

  lemma {:induction false} CanonicalDisjoint(runs: seq<Run>)
    requires Canonical(runs)
    ensures Disjoint(runs)
  {
    if runs != [] {
      CanonicalDisjoint(runs[1..]);
      forall p | p in PagesOf(runs[1..]) ensures p !in runs[0].Pages() {
        LowestPage(runs[1..], p);
      }
    }
  }

  lemma {:induction false} CanonicalAppend(a: seq<Run>, b: seq<Run>)
    ensures Canonical(a + b) <==>
            Canonical(a) && Canonical(b) && (a != [] && b != [] ==> Last(a).End() < b[0].start)
  {
    if a == [] {
      assert a + b == b;
    } else {
      assert (a + b)[1..] == a[1..] + b;
      CanonicalAppend(a[1..], b);
      if |a| > 1 {
        assert Last(a) == Last(a[1..]);
      }
    }
  }

  lemma CanonicalAround(a: seq<Run>, r: Run, b: seq<Run>)
    ensures Canonical(a + [r] + b) <==>
            && Canonical(a) && Canonical(b) && r.len > 0
            && (a != [] ==> Last(a).End() < r.start) && (b != [] ==> r.End() < b[0].start)
  {
    CanonicalAppend(a + [r], b);
    CanonicalAppend(a, [r]);
    assert Last(a + [r]) == r;
  }

  /** One set of pages has one canonical free list. */
  lemma {:induction false} CanonicalUnique(a: seq<Run>, b: seq<Run>)
    requires Canonical(a) && Canonical(b) && PagesOf(a) == PagesOf(b)
    ensures a == b
    decreases |a|
  {
    if a != [] {
      assert a[0].start in a[0].Pages();
    }
    if b != [] {
      assert b[0].start in b[0].Pages();
    }
    if a != [] {
      FirstRun(a, b);
      FirstRun(b, a);
      CanonicalDisjoint(a);
      CanonicalDisjoint(b);
      assert PagesOf(a[1..]) == PagesOf(a) - a[0].Pages();
      assert PagesOf(b[1..]) == PagesOf(b) - b[0].Pages();
      CanonicalUnique(a[1..], b[1..]);
      assert a == [a[0]] + a[1..] && b == [b[0]] + b[1..];
    }
  }

  lemma FirstRun(a: seq<Run>, b: seq<Run>)
    requires Canonical(a) && Canonical(b) && a != [] && b != [] && PagesOf(a) == PagesOf(b)
    ensures b[0].start <= a[0].start
    ensures a[0].start == b[0].start ==> a[0].End() <= b[0].End()
  {
    assert a[0].start in a[0].Pages();
    LowestPage(b, a[0].start);
    if a[0].start == b[0].start && b[0].End() < a[0].End() {
      assert b[0].End() in a[0].Pages();
      LowestPage(b, b[0].End());
    }
  }

  // ----- coalescing insertion -----

  lemma Apart(x: Run, r: Run)
    requires x.len > 0 && r.len > 0 && x.Pages() !! r.Pages()
    ensures if x.start < r.start then x.End() <= r.start else r.End() <= x.start
  {
    assert x.Has(x.start) && r.Has(r.start);
    assert x.start in x.Pages() && r.start in r.Pages();
    if x.start < r.start < x.End() {
      assert x.Has(r.start);
    }
    if r.start <= x.start < r.End() {
      assert r.Has(x.start);
    }
  }

  lemma Joined(x: Run, y: Run)
    requires x.End() == y.start
    ensures Run(x.start, x.len + y.len).Pages() == x.Pages() + y.Pages()
  {
  }

  /** Merge with the following run, if it touches. */
  method MergeNext(r: Run, after: seq<Run>) returns (r': Run, after': seq<Run>)
    requires r.len > 0 && Canonical(after) && (after != [] ==> r.End() <= after[0].start)
    ensures r'.start == r.start && r'.len > 0 && Canonical(after') && (after' != [] ==> r'.End() < after'[0].start)
    ensures r'.Pages() + PagesOf(after') == r.Pages() + PagesOf(after)
    ensures r'.len + Total(after') == r.len + Total(after)
  {
    if after != [] && r.End() == after[0].start {
      r', after' := Run(r.start, r.len + after[0].len), after[1..];
      Joined(r, after[0]);
    } else {
      r', after' := r, after;
    }
  }

  /** Merge with the preceding run, if it touches. */
  method MergePrevious(before: seq<Run>, r: Run, after: seq<Run>) returns (free: seq<Run>)
    requires r.len > 0 && Canonical(before) && Canonical(after)
    requires (before != [] ==> Last(before).End() <= r.start) && (after != [] ==> r.End() < after[0].start)
    ensures Canonical(free)
    ensures PagesOf(free) == PagesOf(before) + r.Pages() + PagesOf(after)
    ensures Total(free) == Total(before) + r.len + Total(after)
  {
    if before != [] && Last(before).End() == r.start {
      var rest, left := before[..|before| - 1], Last(before);
      var merged := Run(left.start, left.len + r.len);
      free := rest + [merged] + after;
      assert before == rest + [left] + [];
      CanonicalAround(rest, left, []);
      CanonicalAround(rest, merged, after);
      PagesAround(rest, merged, after);
      PagesAround(rest, left, []);
      Joined(left, r);
    } else {
      free := before + [r] + after;
      CanonicalAround(before, r, after);
      PagesAround(before, r, after);
    }
  }

  /** The list cut at the point where `r` belongs, or before it. */
  ghost predicate Parted(free: seq<Run>, before: seq<Run>, after: seq<Run>, r: Run) {
    && Canonical(before) && Canonical(after)
    && r.Pages() !! PagesOf(after)
    && (before != [] ==> Last(before).End() <= r.start)
    && (before != [] && after != [] ==> Last(before).End() < after[0].start)
    && PagesOf(free) == PagesOf(before) + PagesOf(after)
    && Total(free) == Total(before) + Total(after)
  }

  lemma PartMore(free: seq<Run>, before: seq<Run>, after: seq<Run>, r: Run)
    requires r.len > 0 && Parted(free, before, after, r) && after != [] && after[0].start < r.start
    ensures Parted(free, before + [after[0]], after[1..], r)
  {
    var x := after[0];
    assert x.Pages() !! r.Pages();
    Apart(x, r);
    assert before + [x] + [] == before + [x];
    CanonicalAround(before, x, []);
    PagesAround(before, x, []);
  }

  /** `insert_run`: put `r` into the sorted list, merging it with the runs it touches. */
  method InsertRun(free: seq<Run>, r: Run) returns (free': seq<Run>)
    requires Canonical(free) && r.len > 0 && r.Pages() !! PagesOf(free)
    ensures Canonical(free')
    ensures PagesOf(free') == PagesOf(free) + r.Pages()
    ensures Total(free') == Total(free) + r.len
  {
    var before, after := [], free;
    while after != [] && after[0].start < r.start
      invariant Parted(free, before, after, r)
    {
      PartMore(free, before, after, r);
      before, after := before + [after[0]], after[1..];
    }
    if after != [] {
      assert after[0].Pages() !! r.Pages();
      Apart(after[0], r);
    }
    var mid, rest := MergeNext(r, after);
    free' := MergePrevious(before, mid, rest);
  }

  // ----- leasing -----

  /** Whole pages that `len` bytes need, at least one. */
  function PagesFor(len: nat): nat {
    if len == 0 then 1 else (len + PAGE - 1) / PAGE
  }

  /** How many leading runs a request takes when it is carved from the front. */
  function Spans(free: seq<Run>, need: nat): nat {
    if need == 0 || free == [] then 0
    else 1 + Spans(free[1..], if free[0].len < need then need - free[0].len else 0)
  }

  predicate HasFit(free: seq<Run>, pages: nat) {
    exists i :: 0 <= i < |free| && free[i].len >= pages
  }

  /** When a lease of `pages` can be given. */
  predicate CanLease(free: seq<Run>, pages: nat) {
    pages <= Total(free) && (HasFit(free, pages) || Spans(free, pages) <= MAX_SEGS)
  }

  lemma {:induction false} SpansAtMost(free: seq<Run>, need: nat)
    requires Canonical(free)
    ensures Spans(free, need) <= need
  {
    if need > 0 && free != [] {
      SpansAtMost(free[1..], if free[0].len < need then need - free[0].len else 0);
    }
  }

  /** The leading runs a request spans are the fewest that hold it. */
  lemma {:induction false} SpansIff(free: seq<Run>, need: nat, k: nat)
    requires Canonical(free) && need <= Total(free)
    ensures Spans(free, need) <= k <==> need <= Total(free[..Min(k, |free|)])
    decreases |free|
  {
    if need > 0 && free != [] && k > 0 {
      var front := free[..Min(k, |free|)];
      assert front[1..] == free[1..][..Min(k - 1, |free| - 1)];
      SpansIff(free[1..], if free[0].len < need then need - free[0].len else 0, k - 1);
    }
  }

  /** A lease can be given exactly if one run holds it, or the first 32 do together. */
  lemma CanLeaseIff(free: seq<Run>, pages: nat)
    requires Canonical(free) && pages > 0
    ensures CanLease(free, pages) <==>
      (exists i :: 0 <= i < |free| && pages <= free[i].len) || pages <= Total(free[..Min(32, |free|)])
  {
    TotalFront(free, Min(32, |free|));
    if pages <= Total(free) {
      SpansIff(free, pages, 32);
    }
    forall i | 0 <= i < |free| ensures free[i].len <= Total(free) {
      OneOfTotal(free, i);
    }
  }

  lemma {:induction false} TotalFront(runs: seq<Run>, k: nat)
    requires k <= |runs|
    ensures Total(runs[..k]) <= Total(runs)
  {
    if k > 0 {
      assert runs[..k][1..] == runs[1..][..k - 1];
      TotalFront(runs[1..], k - 1);
    }
  }

  lemma {:induction false} OneOfTotal(runs: seq<Run>, i: nat)
    requires i < |runs|
    ensures runs[i].len <= Total(runs)
  {
    if i > 0 {
      OneOfTotal(runs[1..], i - 1);
    }
  }

  /** However fragmented the pool is, a request of at most `MAX_SEGS` pages needs only free pages. */
  lemma SmallRequests(free: seq<Run>, pages: nat)
    requires Canonical(free) && pages <= MAX_SEGS
    ensures CanLease(free, pages) <==> pages <= Total(free)
  {
    SpansAtMost(free, pages);
  }

  /** `lease` was taken out of `was`, leaving `free`. */
  ghost predicate Carved(was: seq<Run>, free: seq<Run>, lease: seq<Run>) {
    && Canonical(free) && Disjoint(lease)
    && PagesOf(lease) !! PagesOf(free)
    && PagesOf(lease) + PagesOf(free) == PagesOf(was)
    && Total(lease) + Total(free) == Total(was)
  }

  lemma {:induction false} DisjointSnoc(runs: seq<Run>, r: Run)
    requires Disjoint(runs) && r.len > 0 && r.Pages() !! PagesOf(runs)
    ensures Disjoint(runs + [r])
  {
    if runs == [] {
      assert runs + [r] == [r];
    } else {
      assert (runs + [r])[1..] == runs[1..] + [r];
      DisjointSnoc(runs[1..], r);
      PagesAppend(runs[1..], [r]);
      PagesOfOne(r);
    }
  }

  /** Take the first `pages` pages of run `i`. */
  function TakeFrom(free: seq<Run>, i: nat, pages: nat): seq<Run>
    requires i < |free| && pages <= free[i].len
  {
    if free[i].len == pages then free[..i] + free[i + 1..]
    else free[i := Run(free[i].start + pages, free[i].len - pages)]
  }

  lemma TakeCarves(free: seq<Run>, i: nat, pages: nat)
    requires Canonical(free) && i < |free| && 0 < pages <= free[i].len
    ensures Carved(free, TakeFrom(free, i, pages), [Run(free[i].start, pages)])
  {
    var a, r, b := free[..i], free[i], free[i + 1..];
    assert free == a + [r] + b;
    if r.len == pages {
      WholeCarves(a, r, b);
    } else {
      assert TakeFrom(free, i, pages) == a + [Run(r.start + pages, r.len - pages)] + b;
      PartCarves(a, r, b, pages);
    }
  }

  lemma WholeCarves(a: seq<Run>, r: Run, b: seq<Run>)
    requires Canonical(a + [r] + b)
    ensures Carved(a + [r] + b, a + b, [r])
  {
    CanonicalAround(a, r, b);
    CanonicalAppend(a, b);
    PagesAround(a, r, b);
    PagesAppend(a, b);
    PagesOfOne(r);
    AroundApart(a, r, b);
  }

  lemma PartCarves(a: seq<Run>, r: Run, b: seq<Run>, pages: nat)
    requires Canonical(a + [r] + b) && 0 < pages < r.len
    ensures Carved(a + [r] + b, a + [Run(r.start + pages, r.len - pages)] + b, [Run(r.start, pages)])
  {
    var taken, left := Run(r.start, pages), Run(r.start + pages, r.len - pages);
    CanonicalAround(a, r, b);
    CanonicalAround(a, left, b);
    PagesAround(a, r, b);
    PagesAround(a, left, b);
    PagesOfOne(taken);
    Joined(taken, left);
    AroundApart(a, r, b);
  }

  lemma AroundApart(a: seq<Run>, r: Run, b: seq<Run>)
    requires Canonical(a + [r] + b)
    ensures r.Pages() !! PagesOf(a) && r.Pages() !! PagesOf(b)
  {
    CanonicalAround(a, r, b);
    assert a + [r] + b == a + ([r] + b);
    forall p | p in PagesOf(b) ensures p !in r.Pages() {
      LowestPage(b, p);
    }
    forall p | p in PagesOf(a) ensures p !in r.Pages() {
      HighestPage(a, p);
    }
  }

  lemma {:induction false} HighestPage(runs: seq<Run>, p: nat)
    requires Canonical(runs) && p in PagesOf(runs)
    ensures p < Last(runs).End()
  {
    if p in PagesOf(runs[1..]) {
      HighestPage(runs[1..], p);
      assert Last(runs) == Last(runs[1..]);
    } else if |runs| > 1 {
      assert runs[1].start in runs[1].Pages();
      assert runs[1..][0] == runs[1];
      HighestPage(runs[1..], runs[1].start);
      assert Last(runs) == Last(runs[1..]);
    }
  }

  lemma CarveMore(was: seq<Run>, free: seq<Run>, lease: seq<Run>, take: nat)
    requires Carved(was, free, lease) && free != [] && 0 < take <= free[0].len
    ensures Carved(was, TakeFrom(free, 0, take), lease + [Run(free[0].start, take)])
  {
    var r := Run(free[0].start, take);
    TakeCarves(free, 0, take);
    PagesOfOne(r);
    DisjointSnoc(lease, r);
    PagesAppend(lease, [r]);
  }

  lemma {:induction false} SomeRun(free: seq<Run>)
    requires Total(free) > 0
    ensures free != []
  {
  }

  /** `r` is the front of the first run that holds `pages`. */
  ghost predicate FrontOfFirst(free: seq<Run>, pages: nat, r: Run) {
    exists i :: 0 <= i < |free| && free[i].len >= pages && r == Run(free[i].start, pages) &&
      forall k :: 0 <= k < i ==> free[k].len < pages
  }

  /** Every page of `lease` is below every page of `rest`. */
  ghost predicate Lowest(lease: seq<Run>, rest: seq<Run>) {
    forall p, q :: p in PagesOf(lease) && q in PagesOf(rest) ==> p < q
  }

  /** The first run that holds `pages`, as `position` finds it. */
  method FirstFit(free: seq<Run>, pages: nat) returns (fit: Option<nat>)
    ensures fit.Some? <==> HasFit(free, pages)
    ensures fit.Some? ==> fit.value < |free| && free[fit.value].len >= pages
    ensures fit.Some? ==> forall i :: 0 <= i < fit.value ==> free[i].len < pages
  {
    for i := 0 to |free|
      invariant forall k :: 0 <= k < i ==> free[k].len < pages
    {
      if free[i].len >= pages {
        return Some(i);
      }
    }
    return None;
  }

  /** Would carving `pages` from the front stay within `MAX_SEGS` runs? */
  method CountSpans(free: seq<Run>, pages: nat) returns (within: bool)
    requires pages <= Total(free)
    ensures within <==> Spans(free, pages) <= MAX_SEGS
  {
    var need: nat, count, rest := pages, 0, free;
    while rest != [] && need > 0
      invariant need <= Total(rest) && count <= MAX_SEGS
      invariant count + Spans(rest, need) == Spans(free, pages)
      decreases |rest|
    {
      count := count + 1;
      if count > MAX_SEGS {
        return false;
      }
      need := if rest[0].len < need then need - rest[0].len else 0;
      rest := rest[1..];
    }
    return true;
  }

  lemma SpansStep(free: seq<Run>, need: nat)
    requires free != [] && need > 0
    ensures var take := Min(need, free[0].len);
            Spans(free, need) == 1 + Spans(TakeFrom(free, 0, take), need - take)
  {
    var take := Min(need, free[0].len);
    if take == free[0].len {
      assert TakeFrom(free, 0, take) == free[1..];
    }
  }

  lemma FrontIsLowest(free: seq<Run>, take: nat)
    requires Canonical(free) && free != [] && 0 < take <= free[0].len
    ensures Lowest([Run(free[0].start, take)], TakeFrom(free, 0, take))
  {
    var rest := TakeFrom(free, 0, take);
    PagesOfOne(Run(free[0].start, take));
    TakeCarves(free, 0, take);
    forall q | q in PagesOf(rest) ensures q >= free[0].start + take {
      LowestPage(rest, q);
    }
  }

  /** The scattered path: take runs from the front until `pages` are covered. */
  method Carve(was: seq<Run>, pages: nat) returns (free: seq<Run>, lease: seq<Run>)
    requires Canonical(was) && pages <= Total(was)
    ensures Carved(was, free, lease) && Total(lease) == pages && |lease| == Spans(was, pages) && Lowest(lease, free)
  {
    free, lease := was, [];
    var need: nat := pages;
    while need > 0
      invariant Carved(was, free, lease) && Total(lease) + need == pages
      invariant |lease| + Spans(free, need) == Spans(was, pages) && Lowest(lease, free)
    {
      SomeRun(free);
      var take := Min(need, free[0].len);
      var r := Run(free[0].start, take);
      CarveMore(was, free, lease, take);
      PagesAppend(lease, [r]);
      PagesOfOne(r);
      SpansStep(free, need);
      FrontIsLowest(free, take);
      lease := lease + [r];
      free := TakeFrom(free, 0, take);
      need := need - take;
    }
  }

  /** Choose the lease: one run if any fits, else the leading runs if they are few enough. */
  method Choose(free: seq<Run>, pages: nat) returns (ok: bool, rest: seq<Run>, lease: seq<Run>)
    requires Canonical(free) && 0 < pages <= Total(free)
    ensures ok <==> CanLease(free, pages)
    ensures ok ==> Carved(free, rest, lease) && Total(lease) == pages && |lease| <= MAX_SEGS
    ensures ok && HasFit(free, pages) ==> |lease| == 1 && FrontOfFirst(free, pages, lease[0])
    ensures ok && !HasFit(free, pages) ==> Lowest(lease, rest)
  {
    var fit := FirstFit(free, pages);
    if fit.Some? {
      TakeCarves(free, fit.value, pages);
      lease := [Run(free[fit.value].start, pages)];
      rest := TakeFrom(free, fit.value, pages);
      PagesOfOne(lease[0]);
      return true, rest, lease;
    }
    var within := CountSpans(free, pages);
    if !within {
      return false, free, [];
    }
    rest, lease := Carve(free, pages);
    return true, rest, lease;
  }

  /** Insert returned runs one by one. */
  method Restore(free: seq<Run>, segs: seq<Run>) returns (free': seq<Run>, freed: nat)
    requires Canonical(free) && Disjoint(segs) && PagesOf(segs) !! PagesOf(free)
    ensures Canonical(free') && PagesOf(free') == PagesOf(free) + PagesOf(segs)
    ensures Total(free') == Total(free) + freed && freed == Total(segs)
  {
    var rest := segs;
    free', freed := free, 0;
    while rest != []
      invariant Canonical(free') && Disjoint(rest) && PagesOf(rest) !! PagesOf(free')
      invariant PagesOf(free') + PagesOf(rest) == PagesOf(free) + PagesOf(segs)
      invariant Total(free') == Total(free) + freed && freed + Total(rest) == Total(segs)
    {
      free' := InsertRun(free', rest[0]);
      freed := freed + rest[0].len;
      rest := rest[1..];
    }
  }

  // ----- the pool -----

  ghost function LivePages(live: set<seq<Run>>): set<nat> {
    set l, p | l in live && p in PagesOf(l) :: p
  }

  ghost function AllPages(n: nat): set<nat> {
    Run(0, n).Pages()
  }

  /** Free runs, live leases and the reserved pages partition the pool. */
  ghost predicate Partition(npages: nat, free: seq<Run>, live: set<seq<Run>>, reserved: set<nat>) {
    && Canonical(free)
    && (forall l :: l in live ==> Disjoint(l) && l != [])
    && (forall l, m :: l in live && m in live && l != m ==> PagesOf(l) !! PagesOf(m))
    && PagesOf(free) !! LivePages(live) && PagesOf(free) !! reserved && LivePages(live) !! reserved
    && PagesOf(free) + LivePages(live) + reserved == AllPages(npages)
  }

  /** A fresh lease takes its pages from the free list alone. */
  lemma LeasePartition(n: nat, free: seq<Run>, rest: seq<Run>, l: seq<Run>, live: set<seq<Run>>, reserved: set<nat>)
    requires Partition(n, free, live, reserved) && Carved(free, rest, l) && Total(l) > 0
    ensures l !in live && Partition(n, rest, live + {l}, reserved)
  {
    assert l[0].Has(l[0].start);
    assert l[0].start in PagesOf(l);
    forall m, p | m in live && p in PagesOf(m) ensures p !in PagesOf(l) {
      assert p in LivePages(live);
    }
    assert LivePages(live + {l}) == LivePages(live) + PagesOf(l);
  }

  lemma DropPartition(n: nat, free: seq<Run>, rest: seq<Run>, l: seq<Run>, live: set<seq<Run>>, reserved: set<nat>)
    requires Partition(n, free, live, reserved) && l in live
    requires Canonical(rest) && PagesOf(rest) == PagesOf(free) + PagesOf(l)
    ensures Partition(n, rest, live - {l}, reserved)
  {
    forall p | p in PagesOf(l) ensures p in LivePages(live) && p !in LivePages(live - {l}) {
    }
    assert LivePages(live) == LivePages(live - {l}) + PagesOf(l);
  }

  lemma LiveApart(n: nat, free: seq<Run>, l: seq<Run>, live: set<seq<Run>>, reserved: set<nat>)
    requires Partition(n, free, live, reserved) && l in live
    ensures PagesOf(l) !! PagesOf(free)
  {
    forall p | p in PagesOf(l) ensures p in LivePages(live) {
    }
  }

  /** A lease of `n` pages comes in at least one and at most `n` runs. */
  lemma {:induction false} LeaseRuns(lease: seq<Run>)
    requires Disjoint(lease)
    ensures |lease| <= Total(lease) && (Total(lease) > 0 ==> |lease| > 0)
  {
    if lease != [] {
      LeaseRuns(lease[1..]);
    }
  }

  /** Pages are conserved: free, leased and reserved ones add up to the pool. */
  lemma Conserved(n: nat, free: seq<Run>, live: set<seq<Run>>, reserved: set<nat>)
    requires Partition(n, free, live, reserved)
    ensures Total(free) + |LivePages(live)| + |reserved| == n
  {
    CanonicalDisjoint(free);
    TotalCounts(free);
    RunPages(Run(0, n));
    assert |PagesOf(free) + LivePages(live)| == |PagesOf(free)| + |LivePages(live)|;
  }

  /** Once every lease is back and no arena was carved, the free list is the whole pool in one run again. */
  lemma AllReturned(n: nat, free: seq<Run>)
    requires n > 0 && Partition(n, free, {}, {})
    ensures free == [Run(0, n)]
  {
    PagesOfOne(Run(0, n));
    assert LivePages({}) == {};
    assert Canonical([Run(0, n)]);
    CanonicalUnique(free, [Run(0, n)]);
  }

  /** `live` are the leases handed out and not yet returned, `reserved` the send arenas carved off for good. */
  class BufPool {
    const npages: nat
    var free: seq<Run>
    var freePages: nat
    var registered: bool
    var sendArena: Option<Run>
    ghost var live: set<seq<Run>>
    ghost var reserved: set<nat>

    ghost predicate Valid()
      reads this
    {
      0 < npages < U32_LIMIT && Partition(npages, free, live, reserved) && freePages == Total(free)
    }

    constructor (bytes: nat)
      requires PagesFor(bytes) < U32_LIMIT
      ensures Valid() && npages == PagesFor(bytes) && freePages == npages
      ensures free == [Run(0, npages)] && live == {} && reserved == {} && !registered && sendArena == None
    {
      npages := PagesFor(bytes);
      free := [Run(0, PagesFor(bytes))];
      freePages := PagesFor(bytes);
      registered, sendArena := false, None;
      live, reserved := {}, {};
      new;
      PagesOfOne(Run(0, npages));
    }

    /** Lease `len` bytes, rounded up to pages. */
    method Alloc(len: nat) returns (lease: Option<seq<Run>>)
      requires Valid()
      modifies this`free, this`freePages, this`live
      ensures Valid()
      ensures lease.Some? <==> PagesFor(len) < U32_LIMIT && CanLease(old(free), PagesFor(len))
      ensures lease.None? ==> free == old(free) && freePages == old(freePages) && live == old(live)
      ensures lease.Some? ==>
        && Carved(old(free), free, lease.value) && Total(lease.value) == PagesFor(len)
        && |lease.value| <= MAX_SEGS
        && (if HasFit(old(free), PagesFor(len)) then |lease.value| == 1 && FrontOfFirst(old(free), PagesFor(len), lease.value[0])
            else Lowest(lease.value, free))
        && lease.value !in old(live) && live == old(live) + {lease.value}
    {
      var pages := PagesFor(len);
      if pages >= U32_LIMIT || freePages < pages {
        return None;
      }
      var ok, rest, l := Choose(free, pages);
      if !ok {
        return None;
      }
      LeasePartition(npages, free, rest, l, live, reserved);
      free := rest;
      freePages := freePages - pages;
      live := live + {l};
      return Some(l);
    }

    /** Carve a contiguous send arena off the pool for good. */
    method ReserveArena(bytes: nat) returns (region: Option<Run>)
      requires Valid()
      modifies this`free, this`freePages, this`sendArena, this`reserved
      ensures Valid()
      ensures region.Some? <==> registered && PagesFor(bytes) < U32_LIMIT && HasFit(old(free), PagesFor(bytes))
      ensures region.None? ==>
        free == old(free) && freePages == old(freePages) && reserved == old(reserved) && sendArena == old(sendArena)
      ensures region.Some? ==>
        && region.value.len == PagesFor(bytes) && sendArena == region && FrontOfFirst(old(free), PagesFor(bytes), region.value)
        && Carved(old(free), free, [region.value]) && reserved == old(reserved) + region.value.Pages()
    {
      if !registered {
        return None;
      }
      var pages := PagesFor(bytes);
      if pages >= U32_LIMIT {
        return None;
      }
      var fit := FirstFit(free, pages);
      if fit.None? {
        return None;
      }
      var r := Run(free[fit.value].start, pages);
      TakeCarves(free, fit.value, pages);
      PagesOfOne(r);
      free := TakeFrom(free, fit.value, pages);
      freePages := freePages - pages;
      sendArena := Some(r);
      reserved := reserved + r.Pages();
      return Some(r);
    }

    /** A lease is dropped: its runs go back one by one. */
    method FreeSegs(segs: seq<Run>)
      requires Valid() && segs in live
      modifies this`free, this`freePages, this`live
      ensures Valid() && live == old(live) - {segs}
      ensures PagesOf(free) == old(PagesOf(free)) + PagesOf(segs)
      ensures freePages == old(freePages) + Total(segs)
    {
      LiveApart(npages, free, segs, live, reserved);
      var runs, freed := Restore(free, segs);
      DropPartition(npages, free, runs, segs, live, reserved);
      free := runs;
      freePages := freePages + freed;
      live := live - {segs};
    }
  }
}
