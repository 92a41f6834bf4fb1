/**
  The default scattered transfers, one block operation per segment: exactly
  when they are the contiguous transfer, exactly when a failed one changes
  nothing, and that for the leases of the pool they always are contiguous.
 */
module Scattered {
  import opened Common
  import opened Segments
  import opened Storage
  import Pool

  // ----- remainders -----

  lemma MultipleMod(k: nat, m: nat)
    requires m > 0
    ensures k * m % m == 0 && k * m / m == k
  {
    var q, r := k * m / m, k * m % m;
    assert q * m + r == k * m;
    assert (q + 1) * m == q * m + m && (k + 1) * m == k * m + m;
    if q < k {
      MulMonotone(q + 1, k, m);
    } else if q > k {
      MulMonotone(k + 1, q, m);
    }
  }

  lemma ModSum(a: nat, b: nat, m: nat)
    requires m > 0 && a % m == 0 && b % m == 0
    ensures (a + b) % m == 0 && (a + b) / m == a / m + b / m
  {
    var x, y := a / m, b / m;
    assert a == x * m && b == y * m;
    assert a + b == (x + y) * m;
    MultipleMod(x + y, m);
  }

  lemma ModDiff(a: nat, b: nat, m: nat)
    requires m > 0 && b <= a && a % m == 0 && b % m == 0
    ensures (a - b) % m == 0
  {
    var x, y := a / m, b / m;
    assert a == x * m && b == y * m;
    if x < y {
      MulMonotone(x, y, m);
    } else {
      assert a - b == (x - y) * m;
      MultipleMod(x - y, m);
    }
  }

  lemma NextStart(bs: nat, slba: nat, len: nat)
    requires bs > 0 && len % bs == 0
    ensures (slba + len / bs) * bs == slba * bs + len
  {
    var k := len / bs;
    assert len == k * bs && (slba + k) * bs == slba * bs + k * bs;
  }

  // ----- block by block -----

  function Whole(bs: nat, k: nat): nat
    requires bs > 0
  {
    k / bs * bs
  }

  /** What in-range block writes, one per part, leave: each starts where the whole blocks of the previous one ended. */
  function PutParts(c: seq<byte>, bs: nat, pos: nat, parts: seq<seq<byte>>): (r: seq<byte>)
    requires bs > 0
    ensures |r| == |c|
    decreases |parts|
  {
    if parts == [] || pos + |parts[0]| > |c| then c
    else PutParts(Splice(c, pos, parts[0]), bs, pos + Whole(bs, |parts[0]|), parts[1..])
  }

  /** Every part but the last is whole blocks. */
  predicate WholeBlocks(bs: nat, parts: seq<seq<byte>>)
    requires bs > 0
  {
    |parts| > 1 ==> |parts[0]| % bs == 0 && WholeBlocks(bs, parts[1..])
  }

  lemma SpliceTwice(m: seq<byte>, at: nat, a: seq<byte>, b: seq<byte>)
    requires at + |a| + |b| <= |m|
    ensures Splice(Splice(m, at, a), at + |a|, b) == Splice(m, at, a + b)
  {
  }

  /** Block by block, a scattered transfer of whole-block parts is the contiguous one. */
  lemma {:induction false} WholeIsContiguous(c: seq<byte>, bs: nat, pos: nat, parts: seq<seq<byte>>)
    requires bs > 0 && WholeBlocks(bs, parts) && pos + |Flatten(parts)| <= |c|
    ensures PutParts(c, bs, pos, parts) == Splice(c, pos, Flatten(parts))
    decreases |parts|
  {
    if parts == [] {
      assert Splice(c, pos, []) == c;
    } else {
      var a := parts[0];
      if |parts| == 1 {
        assert parts[1..] == [] && Flatten(parts) == a + [];
        assert a + [] == a;
      } else {
        assert Whole(bs, |a|) == |a|;
        WholeIsContiguous(Splice(c, pos, a), bs, pos + |a|, parts[1..]);
        SpliceTwice(c, pos, a, Flatten(parts[1..]));
      }
    }
  }

  // ----- and not otherwise -----

  function Ones(n: nat): seq<byte> {
    seq<byte>(n, _ => 1)
  }

  function ZeroParts(lens: seq<nat>): seq<seq<byte>> {
    if lens == [] then [] else [Zeros(lens[0])] + ZeroParts(lens[1..])
  }

  predicate WholeLens(bs: nat, lens: seq<nat>)
    requires bs > 0
  {
    |lens| > 1 ==> lens[0] % bs == 0 && WholeLens(bs, lens[1..])
  }

  /** The parts have these lengths. */
  predicate Shaped(parts: seq<seq<byte>>, lens: seq<nat>) {
    |parts| == |lens| && (parts != [] ==> |parts[0]| == lens[0] && Shaped(parts[1..], lens[1..]))
  }

  /** Data that shows the damage: ones where the first ragged part goes, zeros elsewhere. */
  function Telltale(bs: nat, lens: seq<nat>): seq<seq<byte>>
    requires bs > 0
  {
    if lens == [] then []
    else if lens[0] % bs == 0 then [Zeros(lens[0])] + Telltale(bs, lens[1..])
    else [Ones(lens[0])] + ZeroParts(lens[1..])
  }

  lemma {:induction false} ZeroPartsShape(lens: seq<nat>)
    ensures Shaped(ZeroParts(lens), lens) && |Flatten(ZeroParts(lens))| == Sum(lens)
  {
    if lens != [] {
      ZeroPartsShape(lens[1..]);
      assert ZeroParts(lens)[1..] == ZeroParts(lens[1..]);
    }
  }

  lemma {:induction false} TelltaleShape(bs: nat, lens: seq<nat>)
    requires bs > 0
    ensures Shaped(Telltale(bs, lens), lens) && |Flatten(Telltale(bs, lens))| == Sum(lens)
  {
    if lens != [] {
      TelltaleShape(bs, lens[1..]);
      ZeroPartsShape(lens[1..]);
      assert Telltale(bs, lens)[1..] == Telltale(bs, lens[1..]) || Telltale(bs, lens)[1..] == ZeroParts(lens[1..]);
    }
  }

  lemma {:induction false} ZerosStay(c: seq<byte>, bs: nat, pos: nat, lens: seq<nat>, q: nat)
    requires bs > 0 && q < |c| && c[q] == 0
    ensures PutParts(c, bs, pos, ZeroParts(lens))[q] == 0
    decreases |lens|
  {
    if lens != [] && pos + lens[0] <= |c| {
      assert ZeroParts(lens)[1..] == ZeroParts(lens[1..]);
      ZerosStay(Splice(c, pos, Zeros(lens[0])), bs, pos + Whole(bs, lens[0]), lens[1..], q);
    }
  }

  /** A ragged part is partly overwritten by the next one. */
  lemma RaggedDiffers(n: nat, bs: nat, pos: nat, lens: seq<nat>)
    requires bs > 0 && |lens| > 1 && lens[0] % bs != 0 && lens[1] > 0 && pos + Sum(lens) <= n
    ensures var parts := Telltale(bs, lens);
            pos + |Flatten(parts)| <= n && PutParts(Zeros(n), bs, pos, parts) != Splice(Zeros(n), pos, Flatten(parts))
  {
    var parts, rest := Telltale(bs, lens), lens[1..];
    TelltaleShape(bs, lens);
    WholeBelow(bs, lens[0]);
    assert parts[1..] == ZeroParts(rest);
    var q := pos + Whole(bs, lens[0]);
    var c1 := Splice(Zeros(n), pos, Ones(lens[0]));
    assert PutParts(Zeros(n), bs, pos, parts) == PutParts(c1, bs, q, ZeroParts(rest));
    ZerosOver(c1, bs, q, rest);
    assert Flatten(parts)[q - pos] == 1;
  }

  lemma WholeBelow(bs: nat, len: nat)
    requires bs > 0 && len % bs != 0
    ensures 0 <= Whole(bs, len) < len
  {
  }

  /** The first of some zero parts clears the byte it starts at, and it stays clear. */
  lemma ZerosOver(c: seq<byte>, bs: nat, q: nat, lens: seq<nat>)
    requires bs > 0 && lens != [] && lens[0] > 0 && q + lens[0] <= |c|
    ensures PutParts(c, bs, q, ZeroParts(lens))[q] == 0
  {
    var c2 := Splice(c, q, Zeros(lens[0]));
    assert c2[q] == 0;
    assert ZeroParts(lens)[1..] == ZeroParts(lens[1..]);
    ZerosStay(c2, bs, q + Whole(bs, lens[0]), lens[1..], q);
  }

  /** Whole blocks of zeros written over zeros change nothing. */
  lemma ZerosFirst(n: nat, bs: nat, pos: nat, k: nat, tail: seq<seq<byte>>)
    requires bs > 0 && k % bs == 0 && pos + k + |Flatten(tail)| <= n
    ensures var parts := [Zeros(k)] + tail;
            && |Flatten(parts)| == k + |Flatten(tail)|
            && PutParts(Zeros(n), bs, pos, parts) == PutParts(Zeros(n), bs, pos + k, tail)
            && Splice(Zeros(n), pos, Flatten(parts)) == Splice(Zeros(n), pos + k, Flatten(tail))
  {
    var parts := [Zeros(k)] + tail;
    assert parts[1..] == tail;
    assert Splice(Zeros(n), pos, Zeros(k)) == Zeros(n);
    assert Whole(bs, k) == k;
    SpliceTwice(Zeros(n), pos, Zeros(k), Flatten(tail));
  }

  lemma {:induction false} TelltaleDiffers(n: nat, bs: nat, pos: nat, lens: seq<nat>)
    requires bs > 0 && !WholeLens(bs, lens) && (forall i :: 0 <= i < |lens| ==> lens[i] > 0) && pos + Sum(lens) <= n
    ensures var parts := Telltale(bs, lens);
            pos + |Flatten(parts)| <= n && PutParts(Zeros(n), bs, pos, parts) != Splice(Zeros(n), pos, Flatten(parts))
    decreases |lens|
  {
    TelltaleShape(bs, lens);
    if lens[0] % bs != 0 {
      RaggedDiffers(n, bs, pos, lens);
    } else {
      TelltaleDiffers(n, bs, pos + lens[0], lens[1..]);
      ZerosFirst(n, bs, pos, lens[0], Telltale(bs, lens[1..]));
    }
  }

  lemma {:induction false} ShapedWhole(bs: nat, lens: seq<nat>, parts: seq<seq<byte>>)
    requires bs > 0 && Shaped(parts, lens)
    ensures WholeLens(bs, lens) <==> WholeBlocks(bs, parts)
  {
    if |lens| > 1 {
      ShapedWhole(bs, lens[1..], parts[1..]);
    }
  }

  // ----- the scattered write, in range -----

  lemma PartInRange(bs: nat, nrBlocks: nat, slba: nat, len: nat)
    requires bs > 0 && slba * bs + len <= nrBlocks * bs && nrBlocks < 0x1_0000_0000_0000_0000
    ensures InRange(slba, len / bs, nrBlocks) && (slba + len / bs) * bs == slba * bs + Whole(bs, len)
    ensures Whole(bs, len) <= len
  {
    var k := len / bs;
    EndsAt(bs, slba, len);
    assert (slba + k) * bs == slba * bs + k * bs && (nrBlocks + 1) * bs == nrBlocks * bs + bs;
    if slba + k > nrBlocks {
      MulMonotone(nrBlocks + 1, slba + k, bs);
    }
  }

  /** Inside the device every part passes its range check. */
  lemma {:induction false} EachIsPutParts(s: seq<byte>, bs: nat, nrBlocks: nat, slba: nat, parts: seq<seq<byte>>)
    requires bs > 0 && nrBlocks * bs <= |s| && nrBlocks < 0x1_0000_0000_0000_0000
    requires slba * bs + |Flatten(parts)| <= nrBlocks * bs
    ensures WriteEach(s, bs, nrBlocks, slba, parts) == Wrote(Done, PutParts(s, bs, slba * bs, parts))
    decreases |parts|
  {
    if parts != [] {
      var a := parts[0];
      PartInRange(bs, nrBlocks, slba, |a|);
      var now := Splice(s, slba * bs, a);
      WriteEachOne(s, bs, nrBlocks, slba, parts, Done, now, slba + |a| / bs);
      EachIsPutParts(now, bs, nrBlocks, slba + |a| / bs, parts[1..]);
    }
  }

  /** The scattered write of these lengths succeeds and is the contiguous one, for all data and all store contents. */
  ghost predicate ActsContiguously(n: nat, bs: nat, nrBlocks: nat, slba: nat, lens: seq<nat>)
    requires bs > 0
  {
    forall s: seq<byte>, parts: seq<seq<byte>> ::
      |s| == n && Shaped(parts, lens) && slba * bs + |Flatten(parts)| <= |s| ==>
        WriteEach(s, bs, nrBlocks, slba, parts) == Wrote(Done, Splice(s, slba * bs, Flatten(parts)))
  }

  lemma {:induction false} ShapedSize(lens: seq<nat>, parts: seq<seq<byte>>)
    requires Shaped(parts, lens)
    ensures |Flatten(parts)| == Sum(lens)
  {
    if lens != [] {
      ShapedSize(lens[1..], parts[1..]);
    }
  }

  /**
    Inside the device, the default scattered write is the contiguous one, for
    all data and all store contents, exactly when every segment but the last is
    whole blocks.
   */
  lemma ContiguousIff(n: nat, bs: nat, nrBlocks: nat, slba: nat, lens: seq<nat>)
    requires bs > 0 && (forall i :: 0 <= i < |lens| ==> lens[i] > 0) && nrBlocks < 0x1_0000_0000_0000_0000
    requires slba * bs + Sum(lens) <= nrBlocks * bs <= n
    ensures ActsContiguously(n, bs, nrBlocks, slba, lens) <==> WholeLens(bs, lens)
  {
    if WholeLens(bs, lens) {
      forall s: seq<byte>, parts: seq<seq<byte>> | |s| == n && Shaped(parts, lens) && slba * bs + |Flatten(parts)| <= |s|
        ensures WriteEach(s, bs, nrBlocks, slba, parts) == Wrote(Done, Splice(s, slba * bs, Flatten(parts)))
      {
        ShapedWhole(bs, lens, parts);
        ShapedSize(lens, parts);
        EachIsPutParts(s, bs, nrBlocks, slba, parts);
        WholeIsContiguous(s, bs, slba * bs, parts);
      }
    } else {
      NotContiguous(n, bs, nrBlocks, slba, lens);
    }
  }

  lemma NotContiguous(n: nat, bs: nat, nrBlocks: nat, slba: nat, lens: seq<nat>)
    requires bs > 0 && (forall i :: 0 <= i < |lens| ==> lens[i] > 0) && nrBlocks < 0x1_0000_0000_0000_0000
    requires slba * bs + Sum(lens) <= nrBlocks * bs <= n && !WholeLens(bs, lens)
    ensures !ActsContiguously(n, bs, nrBlocks, slba, lens)
  {
    var s, parts := Zeros(n), Telltale(bs, lens);
    TelltaleShape(bs, lens);
    TelltaleDiffers(n, bs, slba * bs, lens);
    EachIsPutParts(s, bs, nrBlocks, slba, parts);
    assert |s| == n && Shaped(parts, lens);
  }

  // ----- the scattered write, anywhere -----

  predicate AllWhole(bs: nat, parts: seq<seq<byte>>)
    requires bs > 0
  {
    parts != [] ==> |parts[0]| % bs == 0 && parts[0] != [] && AllWhole(bs, parts[1..])
  }

  /** Block-multiple segments and a whole number of blocks give whole-block parts. */
  lemma {:induction false} TakesWhole(bs: nat, bufs: seq<seq<byte>>, total: nat)
    requires bs > 0 && AllWhole(bs, bufs) && total % bs == 0
    ensures AllWhole(bs, Takes(bufs, total))
    decreases |bufs|
  {
    if bufs != [] && total > 0 {
      var take := Min(total, |bufs[0]|);
      TakesHead(bufs, total, take);
      ModDiff(total, take, bs);
      TakesWhole(bs, bufs[1..], total - take);
    }
  }

  lemma {:induction false} AllWholeSize(bs: nat, parts: seq<seq<byte>>)
    requires bs > 0 && AllWhole(bs, parts)
    ensures |Flatten(parts)| % bs == 0 && (parts != [] ==> Flatten(parts) != []) && WholeBlocks(bs, parts)
  {
    if parts != [] {
      AllWholeSize(bs, parts[1..]);
      ModSum(|parts[0]|, |Flatten(parts[1..])|, bs);
    }
  }

  /** What `w` must be for it to be the outcome of writing `data` at `slba`. */
  ghost predicate IsWrite(s: seq<byte>, bs: nat, nrBlocks: nat, slba: nat, data: seq<byte>, w: Wrote)
    requires bs > 0
  {
    && w.outcome == (if InRange(slba, |data| / bs, nrBlocks) then Done else OutOfRange)
    && (w.outcome == Done ==> slba * bs + |data| <= |s| && w.store == Splice(s, slba * bs, data))
  }

  /** A write followed by the write right behind it is one write. */
  lemma WriteThenWrite(s: seq<byte>, bs: nat, nrBlocks: nat, slba: nat, a: seq<byte>, b: seq<byte>, w: Wrote)
    requires bs > 0 && |a| % bs == 0 && |b| % bs == 0 && slba * bs + |a| <= |s|
    requires InRange(slba, |a| / bs, nrBlocks)
    requires IsWrite(Splice(s, slba * bs, a), bs, nrBlocks, slba + |a| / bs, b, w)
    ensures IsWrite(s, bs, nrBlocks, slba, a + b, w)
  {
    ModSum(|a|, |b|, bs);
    NextStart(bs, slba, |a|);
    if w.outcome == Done {
      SpliceTwice(s, slba * bs, a, b);
    }
  }

  lemma StaysOut(bs: nat, nrBlocks: nat, slba: nat, a: nat, b: nat)
    requires bs > 0 && a % bs == 0 && b % bs == 0 && !InRange(slba, a / bs, nrBlocks)
    ensures !InRange(slba, (a + b) / bs, nrBlocks)
  {
    ModSum(a, b, bs);
  }

  /** A single whole-block write never meets the slack. */
  lemma WholeIsWrite(s: seq<byte>, bs: nat, nrBlocks: nat, slba: nat, a: seq<byte>)
    requires bs > 0 && |a| % bs == 0 && nrBlocks * bs <= |s|
    ensures IsWrite(s, bs, nrBlocks, slba, a, WriteOne(s, bs, nrBlocks, slba, a))
  {
    Outcomes(s, bs, nrBlocks, slba, a);
  }

  /**
    A scattered write of whole blocks succeeds exactly when the whole transfer
    is in range, and then is the contiguous write.
   */
  lemma {:induction false} WriteEachIsWrite(s: seq<byte>, bs: nat, nrBlocks: nat, slba: nat, parts: seq<seq<byte>>)
    requires bs > 0 && AllWhole(bs, parts) && parts != [] && nrBlocks * bs <= |s|
    ensures IsWrite(s, bs, nrBlocks, slba, Flatten(parts), WriteEach(s, bs, nrBlocks, slba, parts))
    decreases |parts|
  {
    var a, rest := parts[0], parts[1..];
    var w := WriteOne(s, bs, nrBlocks, slba, a);
    AllWholeSize(bs, rest);
    WholeIsWrite(s, bs, nrBlocks, slba, a);
    WriteEachOne(s, bs, nrBlocks, slba, parts, w.outcome, w.store, slba + |a| / bs);
    if rest == [] {
      assert Flatten(parts) == a + [] && a + [] == a;
    } else if w.outcome == Done {
      WriteEachIsWrite(w.store, bs, nrBlocks, slba + |a| / bs, rest);
      WriteThenWrite(s, bs, nrBlocks, slba, a, Flatten(rest), WriteEach(w.store, bs, nrBlocks, slba + |a| / bs, rest));
    } else {
      StaysOut(bs, nrBlocks, slba, |a|, |Flatten(rest)|);
    }
  }

  // ----- a failed write -----

  predicate Segmented(bs: nat, lens: seq<nat>)
    requires bs > 0
  {
    lens != [] ==> lens[0] > 0 && lens[0] % bs == 0 && Segmented(bs, lens[1..])
  }

  function OneParts(lens: seq<nat>): seq<seq<byte>> {
    if lens == [] then [] else [Ones(lens[0])] + OneParts(lens[1..])
  }

  lemma {:induction false} OnePartsShape(lens: seq<nat>)
    ensures Shaped(OneParts(lens), lens)
  {
    if lens != [] {
      OnePartsShape(lens[1..]);
      assert OneParts(lens)[1..] == OneParts(lens[1..]);
    }
  }

  lemma {:induction false} ShapedAllWhole(bs: nat, lens: seq<nat>, parts: seq<seq<byte>>)
    requires bs > 0 && Segmented(bs, lens) && Shaped(parts, lens)
    ensures AllWhole(bs, parts) && |Flatten(parts)| == Sum(lens)
  {
    if lens != [] {
      ShapedAllWhole(bs, lens[1..], parts[1..]);
    }
  }

  /** A scattered write of these lengths either succeeds or changes nothing, for all data and all store contents. */
  ghost predicate ActsAtomically(n: nat, bs: nat, nrBlocks: nat, slba: nat, lens: seq<nat>)
    requires bs > 0
  {
    forall s: seq<byte>, parts: seq<seq<byte>> ::
      |s| == n && Shaped(parts, lens) ==>
        var w := WriteEach(s, bs, nrBlocks, slba, parts); w.outcome == Done || w.store == s
  }

  // What decides a scattered write of any lengths: each segment's own range test, at the block the loop has come to.

  /** Every segment is in range where its turn comes, and ends in the store. */
  predicate AllTaken(n: nat, bs: nat, nrBlocks: nat, slba: nat, lens: seq<nat>)
    requires bs > 0
    decreases |lens|
  {
    lens != [] ==>
      && InRange(slba, lens[0] / bs, nrBlocks) && slba * bs + lens[0] <= n
      && AllTaken(n, bs, nrBlocks, slba + lens[0] / bs, lens[1..])
  }

  /** The first segment that has bytes. */
  function FirstLen(lens: seq<nat>): nat {
    if lens == [] then 0 else if lens[0] > 0 then lens[0] else FirstLen(lens[1..])
  }

  lemma {:induction false} DoneIff(bs: nat, nrBlocks: nat, slba: nat, s: seq<byte>, lens: seq<nat>, parts: seq<seq<byte>>)
    requires bs > 0 && Shaped(parts, lens)
    ensures WriteEach(s, bs, nrBlocks, slba, parts).outcome == Done <==> AllTaken(|s|, bs, nrBlocks, slba, lens)
    decreases |lens|
  {
    if lens != [] {
      var w := WriteOne(s, bs, nrBlocks, slba, parts[0]);
      var next := slba + lens[0] / bs;
      WriteEachOne(s, bs, nrBlocks, slba, parts, w.outcome, w.store, next);
      DoneIff(bs, nrBlocks, next, w.store, lens[1..], parts[1..]);
      TakenOne(bs, nrBlocks, slba, s, lens, parts[0], next);
    }
  }

  lemma TakenOne(bs: nat, nrBlocks: nat, slba: nat, s: seq<byte>, lens: seq<nat>, part: seq<byte>, next: nat)
    requires bs > 0 && lens != [] && |part| == lens[0] && next == slba + lens[0] / bs
    ensures var w := WriteOne(s, bs, nrBlocks, slba, part);
            && |w.store| == |s|
            && (AllTaken(|s|, bs, nrBlocks, slba, lens) <==> w.outcome == Done && AllTaken(|s|, bs, nrBlocks, next, lens[1..]))
  {
  }

  lemma NothingWritten(s: seq<byte>, bs: nat, nrBlocks: nat, slba: nat)
    requires bs > 0
    ensures var w := WriteOne(s, bs, nrBlocks, slba, []); w.store == s
    ensures slba * bs <= |s| ==> WriteOne(s, bs, nrBlocks, slba, []).outcome == if InRange(slba, 0, nrBlocks) then Done else OutOfRange
  {
    assert 0 / bs == 0;
    if slba * bs <= |s| {
      assert Splice(s, slba * bs, []) == s;
    }
  }

  /** Refused where its first bytes go, or with no room for them, a write changes nothing. */
  lemma {:induction false} NothingChanges(bs: nat, nrBlocks: nat, slba: nat, s: seq<byte>, lens: seq<nat>, parts: seq<seq<byte>>)
    requires bs > 0 && Shaped(parts, lens) && nrBlocks * bs <= |s|
    requires !InRange(slba, FirstLen(lens) / bs, nrBlocks) || slba * bs == |s|
    ensures WriteEach(s, bs, nrBlocks, slba, parts).outcome == Done || WriteEach(s, bs, nrBlocks, slba, parts).store == s
    decreases |lens|
  {
    if lens != [] {
      var w := WriteOne(s, bs, nrBlocks, slba, parts[0]);
      WriteEachOne(s, bs, nrBlocks, slba, parts, w.outcome, w.store, slba + |parts[0]| / bs);
      if lens[0] == 0 {
        assert parts[0] == [] && 0 / bs == 0;
        NothingWritten(s, bs, nrBlocks, slba);
        if w.outcome == Done {
          NothingChanges(bs, nrBlocks, slba, s, lens[1..], parts[1..]);
        }
      } else if slba * bs == |s| {
        assert w.outcome != Done;
        assert w.store == s;
      }
    }
  }

  predicate AllOnes(parts: seq<seq<byte>>) {
    parts != [] ==> (forall i :: 0 <= i < |parts[0]| ==> parts[0][i] == 1) && AllOnes(parts[1..])
  }

  lemma {:induction false} OnePartsAre(lens: seq<nat>)
    ensures AllOnes(OneParts(lens))
  {
    if lens != [] {
      OnePartsAre(lens[1..]);
      assert OneParts(lens)[1..] == OneParts(lens[1..]);
    }
  }

  /** A write of ones leaves a one where it is. */
  lemma OneStays(s: seq<byte>, bs: nat, nrBlocks: nat, slba: nat, part: seq<byte>, q: nat)
    requires bs > 0 && q < |s| && s[q] == 1 && forall i :: 0 <= i < |part| ==> part[i] == 1
    ensures var w := WriteOne(s, bs, nrBlocks, slba, part); |w.store| == |s| && w.store[q] == 1
  {
  }

  /** In range and with room it begins with a one. */
  lemma OneLands(s: seq<byte>, bs: nat, nrBlocks: nat, slba: nat, part: seq<byte>, at: nat)
    requires bs > 0 && part != [] && part[0] == 1 && InRange(slba, |part| / bs, nrBlocks) && at == slba * bs < |s|
    ensures var w := WriteOne(s, bs, nrBlocks, slba, part); |w.store| == |s| && w.store[at] == 1
  {
  }

  lemma OnesStep(bs: nat, nrBlocks: nat, slba: nat, s: seq<byte>, parts: seq<seq<byte>>, q: nat) returns (now: seq<byte>, next: nat, done: bool)
    requires bs > 0 && q < |s| && s[q] == 1 && AllOnes(parts) && parts != []
    ensures q < |now| && now[q] == 1
    ensures var w := WriteEach(s, bs, nrBlocks, slba, parts);
            w.store == if done then WriteEach(now, bs, nrBlocks, next, parts[1..]).store else now
  {
    next := slba + |parts[0]| / bs;
    var w := WriteOne(s, bs, nrBlocks, slba, parts[0]);
    now, done := w.store, w.outcome == Done;
    OneStays(s, bs, nrBlocks, slba, parts[0], q);
  }

  lemma {:induction false} OnesStay(bs: nat, nrBlocks: nat, slba: nat, s: seq<byte>, parts: seq<seq<byte>>, q: nat)
    requires bs > 0 && q < |s| && s[q] == 1 && AllOnes(parts)
    ensures var w := WriteEach(s, bs, nrBlocks, slba, parts); q < |w.store| && w.store[q] == 1
    decreases |parts|
  {
    if parts != [] {
      var now, next, done := OnesStep(bs, nrBlocks, slba, s, parts, q);
      if done {
        OnesStay(bs, nrBlocks, next, now, parts[1..], q);
      }
    }
  }

  /** In range and with room, the first byte is written and stays. */
  lemma {:induction false} FirstByteLands(bs: nat, nrBlocks: nat, slba: nat, s: seq<byte>, lens: seq<nat>, parts: seq<seq<byte>>, at: nat)
    requires bs > 0 && Shaped(parts, lens) && AllOnes(parts) && at == slba * bs < |s|
    requires FirstLen(lens) > 0 && InRange(slba, FirstLen(lens) / bs, nrBlocks)
    ensures var w := WriteEach(s, bs, nrBlocks, slba, parts); at < |w.store| && w.store[at] == 1
    decreases |lens|
  {
    var w := WriteOne(s, bs, nrBlocks, slba, parts[0]);
    if lens[0] == 0 {
      assert parts[0] == [] && 0 / bs == 0;
      NothingWritten(s, bs, nrBlocks, slba);
      assert InRange(slba, 0, nrBlocks);
      WriteEachOne(s, bs, nrBlocks, slba, parts, Done, s, slba);
      FirstByteLands(bs, nrBlocks, slba, s, lens[1..], parts[1..], at);
    } else {
      var next := slba + |parts[0]| / bs;
      WriteEachOne(s, bs, nrBlocks, slba, parts, w.outcome, w.store, next);
      OneLands(s, bs, nrBlocks, slba, parts[0], at);
      OnesStay(bs, nrBlocks, next, w.store, parts[1..], at);
    }
  }

  lemma {:induction false} NoBytes(n: nat, bs: nat, nrBlocks: nat, slba: nat, lens: seq<nat>)
    requires bs > 0 && FirstLen(lens) == 0 && InRange(slba, 0, nrBlocks) && slba * bs <= n
    ensures AllTaken(n, bs, nrBlocks, slba, lens)
    decreases |lens|
  {
    if lens != [] {
      assert 0 / bs == 0;
      NoBytes(n, bs, nrBlocks, slba, lens[1..]);
    }
  }

  lemma NotAtomic(n: nat, bs: nat, nrBlocks: nat, slba: nat, lens: seq<nat>)
    requires bs > 0 && nrBlocks * bs <= n && !AllTaken(n, bs, nrBlocks, slba, lens)
    requires InRange(slba, FirstLen(lens) / bs, nrBlocks) && slba * bs != n
    ensures !ActsAtomically(n, bs, nrBlocks, slba, lens)
  {
    var s, parts := Zeros(n), OneParts(lens);
    MulMonotone(slba, nrBlocks, bs);
    BytesThere(n, bs, nrBlocks, slba, lens);
    OnePartsShape(lens);
    OnePartsAre(lens);
    DoneIff(bs, nrBlocks, slba, s, lens, parts);
    FirstByteLands(bs, nrBlocks, slba, s, lens, parts, slba * bs);
    var w := WriteEach(s, bs, nrBlocks, slba, parts);
    assert w.outcome != Done && w.store[slba * bs] != s[slba * bs];
  }

  lemma BytesThere(n: nat, bs: nat, nrBlocks: nat, slba: nat, lens: seq<nat>)
    requires bs > 0 && slba * bs <= n && !AllTaken(n, bs, nrBlocks, slba, lens) && InRange(slba, FirstLen(lens) / bs, nrBlocks)
    ensures FirstLen(lens) > 0
  {
    if FirstLen(lens) == 0 {
      assert 0 / bs == 0;
      NoBytes(n, bs, nrBlocks, slba, lens);
    }
  }

  /**
    A scattered write, of segments of any lengths, either succeeds or leaves the
    store as it was exactly when every segment is in range where its turn
    comes, or the first one with bytes is not, or begins where the store ends.
   */
  lemma AtomicIff(n: nat, bs: nat, nrBlocks: nat, slba: nat, lens: seq<nat>)
    requires bs > 0 && nrBlocks * bs <= n
    ensures ActsAtomically(n, bs, nrBlocks, slba, lens) <==>
            AllTaken(n, bs, nrBlocks, slba, lens) || !InRange(slba, FirstLen(lens) / bs, nrBlocks) || slba * bs == n
  {
    if !AllTaken(n, bs, nrBlocks, slba, lens) && InRange(slba, FirstLen(lens) / bs, nrBlocks) && slba * bs != n {
      NotAtomic(n, bs, nrBlocks, slba, lens);
    } else {
      forall s: seq<byte>, parts: seq<seq<byte>> | |s| == n && Shaped(parts, lens)
        ensures var w := WriteEach(s, bs, nrBlocks, slba, parts); w.outcome == Done || w.store == s
      {
        if AllTaken(n, bs, nrBlocks, slba, lens) {
          DoneIff(bs, nrBlocks, slba, s, lens, parts);
        } else {
          NothingChanges(bs, nrBlocks, slba, s, lens, parts);
        }
      }
    }
  }

  /** For whole blocks the segments' range tests are the one of the whole transfer. */
  lemma WholeTakenIff(n: nat, bs: nat, nrBlocks: nat, slba: nat, lens: seq<nat>)
    requires bs > 0 && Segmented(bs, lens) && lens != [] && nrBlocks * bs <= n
    ensures AllTaken(n, bs, nrBlocks, slba, lens) <==> InRange(slba, Sum(lens) / bs, nrBlocks)
  {
    var s, parts := Zeros(n), OneParts(lens);
    OnePartsShape(lens);
    ShapedAllWhole(bs, lens, parts);
    WriteEachIsWrite(s, bs, nrBlocks, slba, parts);
    DoneIff(bs, nrBlocks, slba, s, lens, parts);
  }

  /**
    So a scattered write of whole blocks that fails leaves the store as it was
    exactly when it fails at its first segment.
   */
  lemma WholeAtomicIff(n: nat, bs: nat, nrBlocks: nat, slba: nat, lens: seq<nat>)
    requires bs > 0 && Segmented(bs, lens) && lens != [] && nrBlocks * bs <= n
    ensures ActsAtomically(n, bs, nrBlocks, slba, lens) <==>
            InRange(slba, Sum(lens) / bs, nrBlocks) || !InRange(slba, lens[0] / bs, nrBlocks)
  {
    AtomicIff(n, bs, nrBlocks, slba, lens);
    WholeTakenIff(n, bs, nrBlocks, slba, lens);
    if slba * bs == n && InRange(slba, lens[0] / bs, nrBlocks) {
      WholeFits(bs, nrBlocks, slba, lens[0]);
    }
  }

  /** For example, two blocks of ones onto a device of one: refused, with the first written. */
  lemma ScatteredWriteIsNotAtomic(bs: nat)
    requires bs > 0
    ensures !ActsAtomically(bs, bs, 1, 0, [bs, bs])
  {
    var lens := [bs, bs];
    assert bs % bs == 0 && bs / bs == 1 by {
      MultipleMod(1, bs);
    }
    assert lens[1..] == [bs] && [bs][1..] == [] && Sum([bs]) == bs && Sum(lens) == bs + bs;
    ModSum(bs, bs, bs);
    WholeAtomicIff(bs, bs, 1, 0, lens);
  }

  // ----- the scattered read -----

  /** What in-range block reads, one per length, bring: each starts where the whole blocks of the previous one ended. */
  function PullParts(s: seq<byte>, bs: nat, pos: nat, lens: seq<nat>): seq<seq<byte>>
    requires bs > 0
    decreases |lens|
  {
    if lens == [] || pos + lens[0] > |s| then []
    else [s[pos..pos + lens[0]]] + PullParts(s, bs, pos + Whole(bs, lens[0]), lens[1..])
  }

  lemma ReadStep(s: seq<byte>, bs: nat, nrBlocks: nat, slba: nat, pos: nat, lens: seq<nat>)
    requires bs > 0 && lens != [] && pos == slba * bs && pos + lens[0] <= |s| && InRange(slba, lens[0] / bs, nrBlocks)
    ensures var more := ReadEach(s, bs, nrBlocks, slba + lens[0] / bs, lens[1..]);
            ReadEach(s, bs, nrBlocks, slba, lens) == Filled(more.outcome, [s[pos..pos + lens[0]]] + more.bufs)
  {
  }

  lemma {:induction false} EachIsPullParts(s: seq<byte>, bs: nat, nrBlocks: nat, slba: nat, lens: seq<nat>)
    requires bs > 0 && nrBlocks * bs <= |s| && nrBlocks < 0x1_0000_0000_0000_0000
    requires slba * bs + Sum(lens) <= nrBlocks * bs
    ensures ReadEach(s, bs, nrBlocks, slba, lens) == Filled(Done, PullParts(s, bs, slba * bs, lens))
    decreases |lens|
  {
    if lens != [] {
      PartInRange(bs, nrBlocks, slba, lens[0]);
      ReadStep(s, bs, nrBlocks, slba, slba * bs, lens);
      EachIsPullParts(s, bs, nrBlocks, slba + lens[0] / bs, lens[1..]);
    }
  }

  ghost predicate Contiguous(s: seq<byte>, bs: nat, pos: nat, lens: seq<nat>)
    requires bs > 0
  {
    && pos + Sum(lens) <= |s| && Shaped(PullParts(s, bs, pos, lens), lens)
    && Flatten(PullParts(s, bs, pos, lens)) == s[pos..pos + Sum(lens)]
  }

  lemma JoinSlices(s: seq<byte>, at: nat, a: nat, b: nat)
    requires at + a + b <= |s|
    ensures s[at..at + a] + s[at + a..at + a + b] == s[at..at + a + b]
  {
  }

  lemma PullOne(s: seq<byte>, bs: nat, pos: nat, lens: seq<nat>)
    requires bs > 0 && lens != [] && pos + lens[0] <= |s|
    ensures var more := PullParts(s, bs, pos + Whole(bs, lens[0]), lens[1..]);
            var all := PullParts(s, bs, pos, lens);
            && all == [s[pos..pos + lens[0]]] + more && all[1..] == more
            && Flatten(all) == s[pos..pos + lens[0]] + Flatten(more)
  {
    assert PullParts(s, bs, pos, lens)[1..] == PullParts(s, bs, pos + Whole(bs, lens[0]), lens[1..]);
  }

  lemma {:induction false} PullShape(s: seq<byte>, bs: nat, pos: nat, lens: seq<nat>)
    requires bs > 0 && pos + Sum(lens) <= |s|
    ensures Shaped(PullParts(s, bs, pos, lens), lens)
    decreases |lens|
  {
    if lens != [] {
      PullOne(s, bs, pos, lens);
      WholeAtMost(bs, lens[0]);
      PullShape(s, bs, pos + Whole(bs, lens[0]), lens[1..]);
    }
  }

  lemma WholeAtMost(bs: nat, len: nat)
    requires bs > 0
    ensures Whole(bs, len) <= len && (len % bs == 0 ==> Whole(bs, len) == len)
  {
  }

  lemma {:induction false} WholeReads(s: seq<byte>, bs: nat, pos: nat, lens: seq<nat>)
    requires bs > 0 && WholeLens(bs, lens) && pos + Sum(lens) <= |s|
    ensures Contiguous(s, bs, pos, lens)
    decreases |lens|
  {
    PullShape(s, bs, pos, lens);
    if lens != [] {
      var a, rest := lens[0], lens[1..];
      PullOne(s, bs, pos, lens);
      if rest == [] {
        assert s[pos..pos + a] + [] == s[pos..pos + a];
      } else {
        WholeAtMost(bs, a);
        WholeReads(s, bs, pos + a, rest);
        JoinSlices(s, pos, a, Sum(rest));
      }
    }
  }

  /** A store with a single byte set. */
  function Mark(n: nat, q: nat): seq<byte> {
    seq<byte>(n, i => if i == q then 1 else 0)
  }

  /** After a ragged segment the next one is filled from too far in front. */
  lemma RaggedReads(s: seq<byte>, bs: nat, pos: nat, lens: seq<nat>)
    requires bs > 0 && |lens| > 1 && lens[0] % bs != 0 && lens[1] > 0 && pos + Sum(lens) <= |s|
    requires s == Mark(|s|, pos + Whole(bs, lens[0]))
    ensures !Contiguous(s, bs, pos, lens)
  {
    var a, rest := lens[0], lens[1..];
    var q := pos + Whole(bs, a);
    WholeBelow(bs, a);
    assert Sum(lens) == a + Sum(rest) && Sum(rest) == rest[0] + Sum(rest[1..]);
    PullOne(s, bs, pos, lens);
    PullOne(s, bs, q, rest);
    SecondStarts(s[pos..pos + a], s[q..q + rest[0]], Flatten(PullParts(s, bs, q + Whole(bs, rest[0]), rest[1..])));
    assert s[pos..pos + Sum(lens)][a] == s[pos + a];
  }

  lemma SecondStarts(a: seq<byte>, b: seq<byte>, c: seq<byte>)
    requires b != []
    ensures (a + (b + c))[|a|] == b[0]
  {
  }

  /** A difference later on is a difference. */
  lemma LaterDiffers(s: seq<byte>, bs: nat, pos: nat, lens: seq<nat>)
    requires bs > 0 && lens != [] && lens[0] % bs == 0 && pos + Sum(lens) <= |s|
    requires !Contiguous(s, bs, pos + lens[0], lens[1..])
    ensures !Contiguous(s, bs, pos, lens)
  {
    var a, rest := lens[0], lens[1..];
    WholeAtMost(bs, a);
    PullOne(s, bs, pos, lens);
    PullShape(s, bs, pos + a, rest);
    JoinSlices(s, pos, a, Sum(rest));
    var first := s[pos..pos + a];
    assert (first + Flatten(PullParts(s, bs, pos + a, rest)))[a..] == Flatten(PullParts(s, bs, pos + a, rest));
    assert (first + s[pos + a..pos + a + Sum(rest)])[a..] == s[pos + a..pos + a + Sum(rest)];
  }

  lemma {:induction false} RaggedReadsLater(n: nat, bs: nat, pos: nat, lens: seq<nat>) returns (s: seq<byte>)
    requires bs > 0 && (forall i :: 0 <= i < |lens| ==> lens[i] > 0) && !WholeLens(bs, lens) && pos + Sum(lens) <= n
    ensures |s| == n && !Contiguous(s, bs, pos, lens)
    decreases |lens|
  {
    if lens[0] % bs != 0 {
      s := Mark(n, pos + Whole(bs, lens[0]));
      RaggedReads(s, bs, pos, lens);
    } else {
      s := RaggedReadsLater(n, bs, pos + lens[0], lens[1..]);
      LaterDiffers(s, bs, pos, lens);
    }
  }

  /** The read of these lengths succeeds, and what it fills the segments with is the contiguous stretch. */
  ghost predicate ReadsContiguously(s: seq<byte>, bs: nat, nrBlocks: nat, slba: nat, lens: seq<nat>)
    requires bs > 0
  {
    var f := ReadEach(s, bs, nrBlocks, slba, lens);
    && f.outcome == Done && Shaped(f.bufs, lens) && slba * bs + Sum(lens) <= |s|
    && Flatten(f.bufs) == s[slba * bs..slba * bs + Sum(lens)]
  }

  lemma ReadsAsPulled(s: seq<byte>, bs: nat, nrBlocks: nat, slba: nat, lens: seq<nat>)
    requires bs > 0 && nrBlocks * bs <= |s| && nrBlocks < 0x1_0000_0000_0000_0000
    requires slba * bs + Sum(lens) <= nrBlocks * bs
    ensures ReadsContiguously(s, bs, nrBlocks, slba, lens) <==> Contiguous(s, bs, slba * bs, lens)
  {
    EachIsPullParts(s, bs, nrBlocks, slba, lens);
  }

  /**
    Inside the device, the default scattered read fills the segments with the
    contiguous stretch, whatever the store holds, exactly when every segment
    but the last is whole blocks.
   */
  lemma ReadContiguousIff(n: nat, bs: nat, nrBlocks: nat, slba: nat, lens: seq<nat>)
    requires bs > 0 && (forall i :: 0 <= i < |lens| ==> lens[i] > 0) && nrBlocks < 0x1_0000_0000_0000_0000
    requires slba * bs + Sum(lens) <= nrBlocks * bs <= n
    ensures (forall s: seq<byte> :: |s| == n ==> ReadsContiguously(s, bs, nrBlocks, slba, lens)) <==> WholeLens(bs, lens)
  {
    if WholeLens(bs, lens) {
      forall s: seq<byte> | |s| == n ensures ReadsContiguously(s, bs, nrBlocks, slba, lens) {
        WholeReads(s, bs, slba * bs, lens);
        ReadsAsPulled(s, bs, nrBlocks, slba, lens);
      }
    } else {
      var s := RaggedReadsLater(n, bs, slba * bs, lens);
      ReadsAsPulled(s, bs, nrBlocks, slba, lens);
    }
  }

  // ----- any lease of the pool -----

  /** A read and a write of the same parts end the same way. */
  lemma {:induction false} SameOutcome(s: seq<byte>, t: seq<byte>, bs: nat, nrBlocks: nat, slba: nat, lens: seq<nat>, parts: seq<seq<byte>>)
    requires bs > 0 && nrBlocks * bs <= |s| == |t| && Shaped(parts, lens)
    ensures ReadEach(s, bs, nrBlocks, slba, lens).outcome == WriteEach(t, bs, nrBlocks, slba, parts).outcome
    decreases |lens|
  {
    if lens != [] {
      Outcomes(t, bs, nrBlocks, slba, parts[0]);
      var w := WriteOne(t, bs, nrBlocks, slba, parts[0]);
      if w.outcome == Done {
        SameOutcome(s, w.store, bs, nrBlocks, slba + lens[0] / bs, lens[1..], parts[1..]);
      }
    }
  }

  /**
    A scattered read of whole blocks succeeds exactly when the whole transfer is
    in range, and then reads the contiguous stretch.
   */
  lemma ReadEachIsRead(s: seq<byte>, bs: nat, nrBlocks: nat, slba: nat, lens: seq<nat>)
    requires bs > 0 && Segmented(bs, lens) && lens != [] && nrBlocks * bs <= |s| && nrBlocks < 0x1_0000_0000_0000_0000
    ensures ReadEach(s, bs, nrBlocks, slba, lens).outcome == if InRange(slba, Sum(lens) / bs, nrBlocks) then Done else OutOfRange
    ensures InRange(slba, Sum(lens) / bs, nrBlocks) ==>
              slba * bs + Sum(lens) <= |s| && ReadsContiguously(s, bs, nrBlocks, slba, lens)
  {
    var parts := OneParts(lens);
    OnePartsShape(lens);
    ShapedAllWhole(bs, lens, parts);
    AllWholeSize(bs, parts);
    WriteEachIsWrite(s, bs, nrBlocks, slba, parts);
    SameOutcome(s, s, bs, nrBlocks, slba, lens, parts);
    if InRange(slba, Sum(lens) / bs, nrBlocks) {
      WholeFits(bs, nrBlocks, slba, Sum(lens));
      LensRead(lens, s, bs, nrBlocks, slba);
    }
  }

  lemma WholeFits(bs: nat, nrBlocks: nat, slba: nat, len: nat)
    requires bs > 0 && len % bs == 0 && InRange(slba, len / bs, nrBlocks)
    ensures slba * bs + len <= nrBlocks * bs
  {
    BlocksFit(bs, nrBlocks, slba, len / bs);
    assert len == len / bs * bs;
  }

  lemma PagesAreWhole(bs: nat, pages: nat)
    requires bs > 0 && Pool.PAGE % bs == 0
    ensures pages * Pool.PAGE % bs == 0
  {
    var k := Pool.PAGE / bs;
    assert Pool.PAGE == k * bs;
    assert pages * Pool.PAGE == (pages * k) * bs by {
      Regroup3(pages, k, bs);
    }
    MultipleMod(pages * k, bs);
  }

  lemma Regroup3(a: nat, b: nat, c: nat)
    ensures a * (b * c) == (a * b) * c
  {
  }

  lemma {:induction false} LeaseIsWhole(m: seq<byte>, bs: nat, lease: seq<Pool.Run>)
    requires bs > 0 && Pool.PAGE % bs == 0 && Pool.Disjoint(lease) && InArena(|m|, SegsOf(lease))
    ensures AllWhole(bs, Chunks(m, SegsOf(lease)))
    decreases |lease|
  {
    if lease != [] {
      var chunks := Chunks(m, SegsOf(lease));
      PagesAreWhole(bs, lease[0].len);
      assert SegsOf(lease)[1..] == SegsOf(lease[1..]);
      LeaseIsWhole(m, bs, lease[1..]);
      assert chunks[1..] == Chunks(m, SegsOf(lease[1..]));
    }
  }

  /**
    Writing out a lease, however scattered, stores the payload it holds: for
    blocks no larger than a page it is the contiguous write of the first
    `total` gathered bytes.
   */
  lemma LeaseWriteIsContiguous(m: seq<byte>, lease: seq<Pool.Run>, total: nat, s: seq<byte>, bs: nat, nrBlocks: nat, slba: nat)
    requires bs > 0 && Pool.PAGE % bs == 0 && nrBlocks * bs <= |s|
    requires Pool.Disjoint(lease) && InArena(|m|, SegsOf(lease)) && 0 < total <= Size(SegsOf(lease)) && total % bs == 0
    ensures IsWrite(s, bs, nrBlocks, slba, Gather(m, SegsOf(lease))[..total],
                    WriteEach(s, bs, nrBlocks, slba, Takes(Chunks(m, SegsOf(lease)), total)))
  {
    var bufs := Chunks(m, SegsOf(lease));
    ChunksGather(m, SegsOf(lease));
    LeaseIsWhole(m, bs, lease);
    TakesWhole(bs, bufs, total);
    TakesAre(bufs, total);
    WriteEachIsWrite(s, bs, nrBlocks, slba, Takes(bufs, total));
  }

  function SegLens(segs: seq<Seg>): seq<nat> {
    if segs == [] then [] else [segs[0].len] + SegLens(segs[1..])
  }

  /** Each buffer read lands at the start of its segment. */
  function LandEach(m: seq<byte>, segs: seq<Seg>, bufs: seq<seq<byte>>): seq<byte>
    requires InArena(|m|, segs)
    decreases |segs|
  {
    if segs == [] || bufs == [] then m
    else if |bufs[0]| > segs[0].len then m
    else LandEach(Splice(m, segs[0].ptr, bufs[0]), segs[1..], bufs[1..])
  }

  /** Buffers of the lengths taken from the segments land as one write at the start. */
  lemma {:induction false} LandEachIsPut(m: seq<byte>, segs: seq<Seg>, bufs: seq<seq<byte>>, total: nat)
    requires InArena(|m|, segs) && total <= Size(segs) && Shaped(bufs, TakeLens(SegLens(segs), total))
    ensures LandEach(m, segs, bufs) == Put(m, segs, 0, Flatten(bufs))
    decreases |segs|
  {
    if total > 0 && segs != [] {
      var lens := SegLens(segs);
      var take := Min(total, segs[0].len);
      assert lens[0] == segs[0].len && lens[1..] == SegLens(segs[1..]);
      TakeLensHead(lens, total, take);
      LandEachIsPut(Splice(m, segs[0].ptr, bufs[0]), segs[1..], bufs[1..], total - take);
      LandFirst(m, segs, bufs[0], Flatten(bufs[1..]));
    }
  }

  lemma LandFirst(m: seq<byte>, segs: seq<Seg>, a: seq<byte>, rest: seq<byte>)
    requires InArena(|m|, segs) && segs != [] && |a| <= segs[0].len && (|a| < segs[0].len ==> rest == [])
    ensures Put(m, segs, 0, a + rest) == Put(Splice(m, segs[0].ptr, a), segs[1..], 0, rest)
  {
    if a == [] {
      assert a + rest == rest && Splice(m, segs[0].ptr, a) == m;
    } else {
      PutStep(m, segs, a, rest);
    }
  }

  lemma PutStep(m: seq<byte>, segs: seq<Seg>, a: seq<byte>, rest: seq<byte>)
    requires InArena(|m|, segs) && segs != [] && 0 < |a| <= segs[0].len && (|a| < segs[0].len ==> rest == [])
    ensures Put(m, segs, 0, a + rest) == Put(Splice(m, segs[0].ptr, a), segs[1..], 0, rest)
  {
    var src := a + rest;
    var take := Min(segs[0].len - 0, |src|);
    assert take == |a| && src[..take] == a && src[take..] == rest;
    assert Put(m, segs, 0, src) == Put(Splice(m, segs[0].ptr + 0, src[..take]), segs[1..], 0, src[take..]);
  }

  lemma {:induction false} TakeLensWhole(bs: nat, lens: seq<nat>, total: nat)
    requires bs > 0 && Segmented(bs, lens) && total % bs == 0 && total <= Sum(lens)
    ensures Segmented(bs, TakeLens(lens, total)) && Sum(TakeLens(lens, total)) == total
    decreases |lens|
  {
    if lens != [] && total > 0 {
      var take := Min(total, lens[0]);
      TakeLensHead(lens, total, take);
      ModDiff(total, take, bs);
      TakeLensWhole(bs, lens[1..], total - take);
    }
  }

  lemma {:induction false} SegmentedWhole(bs: nat, lens: seq<nat>)
    requires bs > 0 && Segmented(bs, lens)
    ensures WholeLens(bs, lens)
  {
    if |lens| > 1 {
      SegmentedWhole(bs, lens[1..]);
    }
  }

  lemma {:induction false} LeaseLens(bs: nat, lease: seq<Pool.Run>)
    requires bs > 0 && Pool.PAGE % bs == 0 && Pool.Disjoint(lease)
    ensures Segmented(bs, SegLens(SegsOf(lease))) && Sum(SegLens(SegsOf(lease))) == Size(SegsOf(lease))
    decreases |lease|
  {
    if lease != [] {
      PagesAreWhole(bs, lease[0].len);
      assert SegsOf(lease)[1..] == SegsOf(lease[1..]);
      LeaseLens(bs, lease[1..]);
      assert SegLens(SegsOf(lease))[1..] == SegLens(SegsOf(lease[1..]));
    }
  }

  /**
    Reading into a lease, however scattered, leaves the store's bytes in it: for
    blocks no larger than a page, the segments end up as one contiguous write
    of the stretch read, and gather to it.
   */
  lemma LeaseReadIsContiguous(m: seq<byte>, lease: seq<Pool.Run>, total: nat, s: seq<byte>, bs: nat, nrBlocks: nat, slba: nat)
    requires bs > 0 && Pool.PAGE % bs == 0 && nrBlocks * bs <= |s| && nrBlocks < 0x1_0000_0000_0000_0000
    requires Pool.Disjoint(lease) && InArena(|m|, SegsOf(lease)) && Apart(SegsOf(lease))
    requires total <= Size(SegsOf(lease)) && total % bs == 0 && slba * bs + total <= nrBlocks * bs
    ensures var f := ReadEach(s, bs, nrBlocks, slba, TakeLens(SegLens(SegsOf(lease)), total));
            f.outcome == Done && Delivered(m, SegsOf(lease), f.bufs, s[slba * bs..slba * bs + total])
  {
    LeaseLens(bs, lease);
    SegsRead(m, SegsOf(lease), total, s, bs, nrBlocks, slba);
  }

  /** The buffers landed in the segments as one write of `data` at their start, and gather to it. */
  ghost predicate Delivered(m: seq<byte>, segs: seq<Seg>, bufs: seq<seq<byte>>, data: seq<byte>) {
    && InArena(|m|, segs) && |data| <= Size(segs) && LandEach(m, segs, bufs) == Put(m, segs, 0, data)
    && Gather(Put(m, segs, 0, data), segs)[..|data|] == data
  }

  lemma SegsRead(m: seq<byte>, segs: seq<Seg>, total: nat, s: seq<byte>, bs: nat, nrBlocks: nat, slba: nat)
    requires bs > 0 && nrBlocks * bs <= |s| && nrBlocks < 0x1_0000_0000_0000_0000
    requires InArena(|m|, segs) && Apart(segs) && Segmented(bs, SegLens(segs)) && Sum(SegLens(segs)) == Size(segs)
    requires total <= Size(segs) && total % bs == 0 && slba * bs + total <= nrBlocks * bs
    ensures var f := ReadEach(s, bs, nrBlocks, slba, TakeLens(SegLens(segs), total));
            f.outcome == Done && Delivered(m, segs, f.bufs, s[slba * bs..slba * bs + total])
  {
    var lens := TakeLens(SegLens(segs), total);
    TakeLensWhole(bs, SegLens(segs), total);
    LensRead(lens, s, bs, nrBlocks, slba);
    LandGathers(m, segs, ReadEach(s, bs, nrBlocks, slba, lens).bufs, total);
  }

  lemma LensRead(lens: seq<nat>, s: seq<byte>, bs: nat, nrBlocks: nat, slba: nat)
    requires bs > 0 && nrBlocks * bs <= |s| && nrBlocks < 0x1_0000_0000_0000_0000
    requires Segmented(bs, lens) && slba * bs + Sum(lens) <= nrBlocks * bs
    ensures ReadsContiguously(s, bs, nrBlocks, slba, lens)
  {
    SegmentedWhole(bs, lens);
    WholeReads(s, bs, slba * bs, lens);
    ReadsAsPulled(s, bs, nrBlocks, slba, lens);
  }

  lemma LandGathers(m: seq<byte>, segs: seq<Seg>, bufs: seq<seq<byte>>, total: nat)
    requires InArena(|m|, segs) && Apart(segs) && total <= Size(segs) && Shaped(bufs, TakeLens(SegLens(segs), total))
    requires |Flatten(bufs)| == total
    ensures Delivered(m, segs, bufs, Flatten(bufs))
  {
    LandEachIsPut(m, segs, bufs, total);
    PutGathers(m, segs, 0, Flatten(bufs));
  }
}
