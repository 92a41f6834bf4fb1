/**
  A batch's sends judged by the kernel's answers alone: exactly which answers
  end it in failure, what reaches the wire, when zero-copy and fixed buffers
  are given up, and how many notifications are owed.
 */
module ShipTrace {
  import opened Common
  import opened SendItems
  import opened Sender

  /** The answers one `ship_batch` gets. */
  ghost function Answers(indexed: bool, kernel: Kernel, i: nat, s: Ship): seq<KernelResult>
    requires Abi(kernel)
    decreases |s.left|, Bit(s.zc), Bit(s.fixedOk)
  {
    var r := kernel(i, |s.left|);
    if ShipOne(indexed, s, r).More? then
      ShipShrinks(indexed, s, r);
      [r] + Answers(indexed, kernel, i + 1, ShipOne(indexed, s, r).s)
    else [r]
  }

  // ----- what the answers mean -----

  /** Zero-copy lasts until the kernel runs out of memory for it; fixed buffers until it refuses the vector. */
  predicate ZcAfter(zc: bool, answers: seq<KernelResult>) {
    zc && NoMemory !in answers
  }

  predicate FixedAfter(fixedOk: bool, answers: seq<KernelResult>) {
    fixedOk && BadVector !in answers
  }

  /** The answer `r`, after `before`, leaves nothing to try: the socket is broken or closed, or no fallback is left. */
  predicate Fatal(indexed: bool, s: Ship, before: seq<KernelResult>, r: KernelResult) {
    || r == Broken || r == Sent(0)
    || (r == NoMemory && !ZcAfter(s.zc, before))
    || (r == BadVector && !(indexed && ZcAfter(s.zc, before) && FixedAfter(s.fixedOk, before)))
  }

  function Total(answers: seq<KernelResult>): nat {
    if answers == [] then 0 else (if answers[0].Sent? then answers[0].n else 0) + Total(answers[1..])
  }

  /** The sends made while zero-copy was on: each owes a notification. */
  function ZcSends(zc: bool, answers: seq<KernelResult>): nat {
    if answers == [] || !zc then 0 else 1 + ZcSends(answers[0] != NoMemory, answers[1..])
  }

  // ----- one turn -----

  lemma TurnIs(indexed: bool, s: Ship, r: KernelResult)
    requires r.Sent? ==> r.n <= |s.left|
    ensures var one := ShipOne(indexed, s, r);
            && (one.Failed? <==> Fatal(indexed, s, [], r))
            && (one.Done? <==> r.Sent? && r.n == |s.left| > 0)
            && Total([r]) <= |s.left| && one.s.left == s.left[Total([r])..] && one.s.wire == s.wire + s.left[..Total([r])]
            && one.s.handles == s.handles + ZcSends(s.zc, [r]) && one.s.open == s.open + ZcSends(s.zc, [r])
            && (one.More? ==> one.s.zc == ZcAfter(s.zc, [r]) && one.s.fixedOk == FixedAfter(s.fixedOk, [r]))
            && (!one.More? ==> one.s.zc == s.zc && one.s.fixedOk == s.fixedOk)
            && one.s.fallbacks == s.fallbacks + Bit(s.zc && r == NoMemory)
  {
    assert Total([r]) == if r.Sent? then r.n else 0;
    assert ZcSends(s.zc, [r]) == Bit(s.zc);
    assert s.left[0..] == s.left && s.wire + s.left[..0] == s.wire;
  }

  /** What was fatal, or not, from here on is so from the start. */
  lemma FatalShifts(indexed: bool, s: Ship, t: Ship, r: KernelResult, before: seq<KernelResult>, q: KernelResult)
    requires t.zc == ZcAfter(s.zc, [r]) && t.fixedOk == FixedAfter(s.fixedOk, [r])
    ensures Fatal(indexed, t, before, q) <==> Fatal(indexed, s, [r] + before, q)
  {
    assert forall x :: x in [r] + before <==> x == r || x in before;
  }

  // ----- the whole batch -----

  /** The last answer, and no earlier one, may be fatal, and if it is the batch has failed. */
  ghost predicate Verdict(indexed: bool, s: Ship, a: seq<KernelResult>, r: ShipResult) {
    && a != []
    && (forall j :: 0 <= j < |a| - 1 ==> !Fatal(indexed, s, a[..j], a[j]))
    && (if Fatal(indexed, s, a[..|a| - 1], a[|a| - 1]) then r.Failed? else r.Done?)
  }

  /** What the answers say was sent is on the wire; a batch is done when it all is. */
  ghost predicate Delivered(s: Ship, a: seq<KernelResult>, r: ShipResult) {
    && Total(a) <= |s.left| && r.s.left == s.left[Total(a)..] && r.s.wire == s.wire + s.left[..Total(a)]
    && (r.Done? ==> Total(a) == |s.left|)
  }

  /** The notifications owed, and which fallbacks were used. */
  ghost predicate Tallied(s: Ship, a: seq<KernelResult>, r: ShipResult) {
    && r.s.handles == s.handles + ZcSends(s.zc, a) && r.s.open == s.open + ZcSends(s.zc, a)
    && r.s.zc == ZcAfter(s.zc, a) && r.s.fallbacks == s.fallbacks + Bit(s.zc && NoMemory in a)
    && (r.Done? ==> r.s.fixedOk == FixedAfter(s.fixedOk, a))
  }

  ghost predicate Judged(indexed: bool, s: Ship, a: seq<KernelResult>, r: ShipResult) {
    Verdict(indexed, s, a, r) && Delivered(s, a, r) && Tallied(s, a, r)
  }

  lemma JudgedOne(indexed: bool, s: Ship, r: KernelResult)
    requires (r.Sent? ==> r.n <= |s.left|) && !ShipOne(indexed, s, r).More?
    ensures Judged(indexed, s, [r], ShipOne(indexed, s, r))
  {
    TurnIs(indexed, s, r);
    assert [r][..0] == [];
  }

  lemma SlicesJoin(left: seq<byte>, wire: seq<byte>, n: nat, m: nat)
    requires n + m <= |left|
    ensures left[n..][m..] == left[n + m..] && (wire + left[..n]) + left[n..][..m] == wire + left[..n + m]
  {
  }

  lemma VerdictMore(indexed: bool, s: Ship, t: Ship, r: KernelResult, rest: seq<KernelResult>, end: ShipResult)
    requires t.zc == ZcAfter(s.zc, [r]) && t.fixedOk == FixedAfter(s.fixedOk, [r]) && !Fatal(indexed, s, [], r)
    requires Verdict(indexed, t, rest, end)
    ensures Verdict(indexed, s, [r] + rest, end)
  {
    var a := [r] + rest;
    forall j | 0 < j < |a| ensures Fatal(indexed, t, rest[..j - 1], rest[j - 1]) <==> Fatal(indexed, s, a[..j], a[j]) {
      FatalShifts(indexed, s, t, r, rest[..j - 1], rest[j - 1]);
      assert a[..j] == [r] + rest[..j - 1];
    }
    assert a[..0] == [];
  }

  lemma TotalCons(r: KernelResult, rest: seq<KernelResult>, zc: bool)
    ensures Total([r] + rest) == Total([r]) + Total(rest)
    ensures ZcSends(zc, [r] + rest) == ZcSends(zc, [r]) + ZcSends(ZcAfter(zc, [r]), rest)
    ensures forall x :: x in [r] + rest <==> x == r || x in rest
  {
    assert ([r] + rest)[1..] == rest && [r][1..] == [];
    assert Total([r]) == (if r.Sent? then r.n else 0);
    assert ZcSends(zc, [r]) == Bit(zc);
  }

  lemma JudgedMore(indexed: bool, s: Ship, r: KernelResult, rest: seq<KernelResult>, end: ShipResult)
    requires (r.Sent? ==> r.n <= |s.left|) && ShipOne(indexed, s, r).More?
    requires Judged(indexed, ShipOne(indexed, s, r).s, rest, end)
    ensures Judged(indexed, s, [r] + rest, end)
  {
    var t := ShipOne(indexed, s, r).s;
    TurnIs(indexed, s, r);
    VerdictMore(indexed, s, t, r, rest, end);
    DeliveredMore(s, t, r, rest, end, Total([r]));
    TalliedMore(s, t, r, rest, end);
  }

  lemma DeliveredMore(s: Ship, t: Ship, r: KernelResult, rest: seq<KernelResult>, end: ShipResult, n: nat)
    requires n == Total([r]) && n <= |s.left| && t.left == s.left[n..] && t.wire == s.wire + s.left[..n] && Delivered(t, rest, end)
    ensures Delivered(s, [r] + rest, end)
  {
    TotalCons(r, rest, s.zc);
    SlicesJoin(s.left, s.wire, n, Total(rest));
  }

  lemma TalliedMore(s: Ship, t: Ship, r: KernelResult, rest: seq<KernelResult>, end: ShipResult)
    requires t.handles == s.handles + ZcSends(s.zc, [r]) && t.open == s.open + ZcSends(s.zc, [r])
    requires t.zc == ZcAfter(s.zc, [r]) && t.fixedOk == FixedAfter(s.fixedOk, [r])
    requires t.fallbacks == s.fallbacks + Bit(s.zc && r == NoMemory) && Tallied(t, rest, end)
    ensures Tallied(s, [r] + rest, end)
  {
    TotalCons(r, rest, s.zc);
  }

  /**
    Which batches fail, exactly: the loop ends in failure if and only if the
    kernel's last answer is fatal, and no earlier one was. The answers are the
    kernel's own to what was left each time; what they say was sent is on the
    wire, in order, and nothing else; and each send made while zero-copy was on
    owes a notification, no other.
   */
  lemma {:induction false} ShipFailsIff(indexed: bool, kernel: Kernel, i: nat, s: Ship)
    requires Abi(kernel)
    ensures Judged(indexed, s, Answers(indexed, kernel, i, s), ShipAll(indexed, kernel, i, s))
    decreases |s.left|, Bit(s.zc), Bit(s.fixedOk)
  {
    var r := kernel(i, |s.left|);
    var one := ShipOne(indexed, s, r);
    if one.More? {
      ShipShrinks(indexed, s, r);
      ShipFailsIff(indexed, kernel, i + 1, one.s);
      JudgedMore(indexed, s, r, Answers(indexed, kernel, i + 1, one.s), ShipAll(indexed, kernel, i + 1, one.s));
    } else {
      JudgedOne(indexed, s, r);
    }
  }

  /** The answers are those the kernel gave, to the bytes left each time. */
  lemma {:induction false} AnswersAre(indexed: bool, kernel: Kernel, i: nat, s: Ship, j: nat)
    requires Abi(kernel) && j < |Answers(indexed, kernel, i, s)|
    ensures var a := Answers(indexed, kernel, i, s); Total(a[..j]) <= |s.left| && a[j] == kernel(i + j, |s.left| - Total(a[..j]))
    decreases j
  {
    var r := kernel(i, |s.left|);
    var a := Answers(indexed, kernel, i, s);
    if j == 0 {
      assert a[..0] == [];
    } else {
      var t := ShipOne(indexed, s, r).s;
      var rest := Answers(indexed, kernel, i + 1, t);
      AnswersAre(indexed, kernel, i + 1, t, j - 1);
      LeftAfter(indexed, s, r);
      PrefixTotal(r, rest, j);
    }
  }

  lemma PrefixTotal(r: KernelResult, rest: seq<KernelResult>, j: nat)
    requires 0 < j <= |rest|
    ensures var a := [r] + rest; a[j] == rest[j - 1] && Total(a[..j]) == Total([r]) + Total(rest[..j - 1])
  {
    assert ([r] + rest)[..j] == [r] + rest[..j - 1];
    TotalCons(r, rest[..j - 1], true);
  }

  lemma LeftAfter(indexed: bool, s: Ship, r: KernelResult)
    requires r.Sent? ==> r.n <= |s.left|
    ensures |ShipOne(indexed, s, r).s.left| + Total([r]) == |s.left|
  {
    TurnIs(indexed, s, r);
  }

  /** A kernel that only ever sends short, but something: the whole batch goes out. */
  lemma ShortSendsResume(indexed: bool, kernel: Kernel, i: nat, s: Ship)
    requires Abi(kernel) && s.left != [] && forall i, k: nat :: k > 0 ==> kernel(i, k).Sent? && kernel(i, k).n > 0
    ensures var r := ShipAll(indexed, kernel, i, s); r.Done? && r.s.wire == s.wire + s.left
  {
    ShipFailsIff(indexed, kernel, i, s);
    var a := Answers(indexed, kernel, i, s);
    var n := |a| - 1;
    AnswersAre(indexed, kernel, i, s, n);
    LastHadBytes(indexed, kernel, i, s);
    assert s.left[..|s.left|] == s.left;
  }

  /** The loop never asks the kernel to send nothing. */
  lemma {:induction false} LastHadBytes(indexed: bool, kernel: Kernel, i: nat, s: Ship)
    requires Abi(kernel) && s.left != []
    ensures var a := Answers(indexed, kernel, i, s); Total(a[..|a| - 1]) < |s.left|
    decreases |s.left|, Bit(s.zc), Bit(s.fixedOk)
  {
    var r := kernel(i, |s.left|);
    var one := ShipOne(indexed, s, r);
    var a := Answers(indexed, kernel, i, s);
    TurnIs(indexed, s, r);
    if one.More? {
      ShipShrinks(indexed, s, r);
      var rest := Answers(indexed, kernel, i + 1, one.s);
      LastHadBytes(indexed, kernel, i + 1, one.s);
      assert a[..|a| - 1] == [r] + rest[..|rest| - 1];
      assert a[..|a| - 1][1..] == rest[..|rest| - 1];
    } else {
      assert a[..0] == [];
    }
  }

  // ----- staging -----

  /**
    Staging takes as much as it may and no more: every item but the first was
    added to a list with room below the cap, and it stops only because the list
    has no room, the cap is reached, or the queue is empty.
   */
  lemma {:induction false} StagingIsGreedy(env: Env, b: Batch, item: Work, queue: seq<Work>)
    ensures var s := StageAll(env, b, item, queue);
            && b.items <= s.batch.items
            && (forall n :: |b.items| <= n < |s.batch.items| ==> env.fits(s.batch.items[..n]))
            && (forall n :: |b.items| < n < |s.batch.items| ==> !env.capped(s.batch.items[..n]))
            && (s.carry.Some? ==> !env.fits(s.batch.items))
            && (s.carry.None? ==> s.queue == [] || env.capped(s.batch.items))
    decreases |queue|
  {
    var s := StageAll(env, b, item, queue);
    if env.fits(b.items) {
      var b1 := AddItem(env, b, item);
      if !env.capped(b1.items) && queue != [] {
        StagingIsGreedy(env, b1, queue[0], queue[1..]);
        forall n | |b.items| <= n < |s.batch.items| ensures env.fits(s.batch.items[..n]) {
          assert n == |b.items| ==> s.batch.items[..n] == b.items;
        }
        forall n | |b.items| < n < |s.batch.items| ensures !env.capped(s.batch.items[..n]) {
          assert n == |b1.items| ==> s.batch.items[..n] == b1.items;
        }
      } else {
        assert s.batch.items[..|b.items|] == b.items;
      }
    }
  }
}
