/**
  The RAM namespace: 2 MiB chunks allocated on first write behave as one flat,
  initially zero, byte array, the device and some slack behind it up to the end
  of the last chunk. A transfer that ends in a partial block can pass the range
  check and reach into that slack, or past it.
 */
module Storage {
  import opened Common
  import opened Segments

  const CHUNK: nat := 0x20_0000

  /** How a transfer ends; indexing past the last chunk is a panic. */
  datatype Outcome = Done | OutOfRange | Panic

  /** `check_range`: the blocks exist. */
  predicate InRange(slba: nat, nlb: nat, nrBlocks: nat) {
    slba + nlb < 0x1_0000_0000_0000_0000 && slba + nlb <= nrBlocks
  }

  function Zeros(n: nat): seq<byte> {
    seq<byte>(n, _ => 0)
  }

  /** A chunk's bytes; one never written reads as zeros. */
  function Data(chunk: Option<seq<byte>>): seq<byte> {
    match chunk
    case None => Zeros(CHUNK)
    case Some(d) => d
  }

  ghost predicate Sized(chunks: seq<Option<seq<byte>>>) {
    forall c :: 0 <= c < |chunks| ==> |Data(chunks[c])| == CHUNK
  }

  /** Byte `i` of the chunked store. */
  function ByteOf(chunks: seq<Option<seq<byte>>>, i: nat): byte {
    if i / CHUNK < |chunks| && i % CHUNK < |Data(chunks[i / CHUNK])| then Data(chunks[i / CHUNK])[i % CHUNK] else 0
  }

  lemma SameChunk(pos: nat, i: nat)
    requires pos <= i < pos - pos % CHUNK + CHUNK
    ensures i / CHUNK == pos / CHUNK && i % CHUNK == pos % CHUNK + (i - pos)
  {
  }

  lemma InChunk(pos: nat, take: nat, n: nat)
    requires pos / CHUNK < n && pos % CHUNK + take <= CHUNK
    ensures pos + take <= n * CHUNK
  {
  }

  lemma PastChunks(pos: nat, n: nat)
    requires pos / CHUNK >= n
    ensures pos >= n * CHUNK
  {
  }

  /** `buf` is what the store holds from `offset` on. */
  ghost predicate HasRead(chunks: seq<Option<seq<byte>>>, offset: nat, buf: seq<byte>) {
    forall k :: 0 <= k < |buf| ==> buf[k] == ByteOf(chunks, offset + k)
  }

  /** The next stretch of one chunk continues what was read. */
  lemma ReadsOn(chunks: seq<Option<seq<byte>>>, offset: nat, buf: seq<byte>, take: nat)
    requires Sized(chunks) && HasRead(chunks, offset, buf)
    requires (offset + |buf|) / CHUNK < |chunks| && (offset + |buf|) % CHUNK + take <= CHUNK
    ensures var pos := offset + |buf|;
            HasRead(chunks, offset, buf + Data(chunks[pos / CHUNK])[pos % CHUNK..pos % CHUNK + take])
  {
    var pos := offset + |buf|;
    var more := buf + Data(chunks[pos / CHUNK])[pos % CHUNK..pos % CHUNK + take];
    forall k | 0 <= k < |more| ensures more[k] == ByteOf(chunks, offset + k) {
      if k >= |buf| {
        SameChunk(pos, offset + k);
      }
    }
  }

  /** Part of one chunk rewritten. */
  function PutChunk(chunks: seq<Option<seq<byte>>>, pos: nat, piece: seq<byte>): seq<Option<seq<byte>>>
    requires Sized(chunks) && pos / CHUNK < |chunks| && pos % CHUNK + |piece| <= CHUNK
  {
    chunks[pos / CHUNK := Some(Splice(Data(chunks[pos / CHUNK]), pos % CHUNK, piece))]
  }

  /** Rewriting part of one chunk changes those bytes of the store and no others. */
  lemma PutByte(chunks: seq<Option<seq<byte>>>, pos: nat, piece: seq<byte>, i: nat)
    requires Sized(chunks) && pos / CHUNK < |chunks| && pos % CHUNK + |piece| <= CHUNK
    ensures ByteOf(PutChunk(chunks, pos, piece), i) ==
            if pos <= i < pos + |piece| then piece[i - pos] else ByteOf(chunks, i)
  {
    if pos <= i < pos + |piece| {
      SameChunk(pos, i);
    } else if i / CHUNK == pos / CHUNK {
      assert i == i / CHUNK * CHUNK + i % CHUNK && pos == pos / CHUNK * CHUNK + pos % CHUNK;
    }
  }

  /** `now` is `was` with `data` written from `offset` on. */
  ghost predicate HasWritten(was: seq<Option<seq<byte>>>, now: seq<Option<seq<byte>>>, offset: nat, data: seq<byte>) {
    forall i: nat :: ByteOf(now, i) == if offset <= i < offset + |data| then data[i - offset] else ByteOf(was, i)
  }

  /** The next stretch of one chunk continues what was written. */
  lemma WritesOn(was: seq<Option<seq<byte>>>, now: seq<Option<seq<byte>>>, offset: nat, buf: seq<byte>, pos: nat, take: nat)
    requires Sized(now) && offset <= pos && pos - offset + take <= |buf| && HasWritten(was, now, offset, buf[..pos - offset])
    requires pos / CHUNK < |now| && pos % CHUNK + take <= CHUNK
    ensures HasWritten(was, PutChunk(now, pos, buf[pos - offset..][..take]), offset, buf[..pos + take - offset])
  {
    var piece := buf[pos - offset..][..take];
    forall i: nat ensures ByteOf(PutChunk(now, pos, piece), i) ==
        if offset <= i < pos + take then buf[i - offset] else ByteOf(was, i)
    {
      PutByte(now, pos, piece, i);
    }
  }

  /** Zeroing a stretch of one chunk, or leaving a chunk never written, continues the zeros. */
  lemma ZeroesOn(was: seq<Option<seq<byte>>>, now: seq<Option<seq<byte>>>, offset: nat, pos: nat, take: nat)
    requires Sized(now) && offset <= pos && HasWritten(was, now, offset, Zeros(pos - offset))
    requires pos / CHUNK < |now| && pos % CHUNK + take <= CHUNK
    ensures HasWritten(was, PutChunk(now, pos, Zeros(take)), offset, Zeros(pos + take - offset))
    ensures now[pos / CHUNK].None? ==> HasWritten(was, now, offset, Zeros(pos + take - offset))
  {
    forall i: nat ensures ByteOf(PutChunk(now, pos, Zeros(take)), i) == if offset <= i < pos + take then 0 else ByteOf(was, i)
    {
      PutByte(now, pos, Zeros(take), i);
    }
    if now[pos / CHUNK].None? {
      forall i: nat ensures ByteOf(now, i) == if offset <= i < pos + take then 0 else ByteOf(was, i) {
        if pos <= i < pos + take {
          SameChunk(pos, i);
        }
      }
    }
  }

  predicate InBytes(bs: nat, nrBlocks: nat, slba: nat, len: nat) {
    slba * bs + len <= nrBlocks * bs
  }

  // ----- one transfer -----

  datatype Wrote = Wrote(outcome: Outcome, store: seq<byte>)

  /** A block write: refused out of range; past the last chunk, what is in front of its end is written first. */
  function WriteOne(s: seq<byte>, bs: nat, nrBlocks: nat, slba: nat, data: seq<byte>): Wrote
    requires bs > 0
  {
    var at := slba * bs;
    if !InRange(slba, |data| / bs, nrBlocks) then Wrote(OutOfRange, s)
    else if at + |data| <= |s| then Wrote(Done, Splice(s, at, data))
    else if at <= |s| then Wrote(Panic, Splice(s, at, data[..|s| - at]))
    else Wrote(Panic, s)
  }

  datatype Got = Got(outcome: Outcome, data: seq<byte>)

  function ReadOne(s: seq<byte>, bs: nat, nrBlocks: nat, slba: nat, len: nat): Got
    requires bs > 0
  {
    var at := slba * bs;
    if !InRange(slba, len / bs, nrBlocks) then Got(OutOfRange, [])
    else if at + len <= |s| then Got(Done, s[at..at + len])
    else Got(Panic, [])
  }

  // ----- scattered transfers -----

  /** One block write per part, up to the first that does not succeed. */
  function WriteEach(s: seq<byte>, bs: nat, nrBlocks: nat, slba: nat, parts: seq<seq<byte>>): Wrote
    requires bs > 0
    decreases |parts|
  {
    if parts == [] then Wrote(Done, s)
    else
      var w := WriteOne(s, bs, nrBlocks, slba, parts[0]);
      if w.outcome != Done then w
      else WriteEach(w.store, bs, nrBlocks, slba + |parts[0]| / bs, parts[1..])
  }

  datatype Filled = Filled(outcome: Outcome, bufs: seq<seq<byte>>)

  /** One block read per length, up to the first that does not succeed. */
  function ReadEach(s: seq<byte>, bs: nat, nrBlocks: nat, slba: nat, lens: seq<nat>): Filled
    requires bs > 0
    decreases |lens|
  {
    if lens == [] then Filled(Done, [])
    else
      var r := ReadOne(s, bs, nrBlocks, slba, lens[0]);
      if r.outcome != Done then Filled(r.outcome, [])
      else
        var more := ReadEach(s, bs, nrBlocks, slba + lens[0] / bs, lens[1..]);
        Filled(more.outcome, [r.data] + more.bufs)
  }

  /** The slices the segment loop takes for `total` bytes. */
  function Takes(bufs: seq<seq<byte>>, total: nat): seq<seq<byte>> {
    if total == 0 || bufs == [] then []
    else
      var take := Min(total, |bufs[0]|);
      [bufs[0][..take]] + Takes(bufs[1..], total - take)
  }

  lemma {:induction false} TakesAre(bufs: seq<seq<byte>>, total: nat)
    requires total <= |Flatten(bufs)|
    ensures Flatten(Takes(bufs, total)) == Flatten(bufs)[..total]
    decreases |bufs|
  {
    if total > 0 && bufs != [] {
      var take := Min(total, |bufs[0]|);
      TakesAre(bufs[1..], total - take);
      assert Takes(bufs, total)[1..] == Takes(bufs[1..], total - take);
    }
  }

  /** The lengths the segment loop takes for `total` bytes. */
  function TakeLens(lens: seq<nat>, total: nat): seq<nat> {
    if total == 0 || lens == [] then []
    else
      var take := Min(total, lens[0]);
      [take] + TakeLens(lens[1..], total - take)
  }

  lemma TakesHead(bufs: seq<seq<byte>>, total: nat, take: nat)
    requires bufs != [] && total > 0 && take == Min(total, |bufs[0]|)
    ensures var parts := Takes(bufs, total);
            parts != [] && parts[0] == bufs[0][..take] && parts[1..] == Takes(bufs[1..], total - take)
  {
  }

  lemma TakeLensHead(lens: seq<nat>, total: nat, take: nat)
    requires lens != [] && total > 0 && take == Min(total, lens[0])
    ensures var takes := TakeLens(lens, total);
            takes != [] && takes[0] == take && takes[1..] == TakeLens(lens[1..], total - take)
  {
  }

  class MemoryBackend {
    const blockSize: nat
    const nrBlocks: nat
    var chunks: seq<Option<seq<byte>>>

    ghost predicate Valid()
      reads this
    {
      && 0 < blockSize && nrBlocks < 0x1_0000_0000_0000_0000
      && nrBlocks * blockSize <= |chunks| * CHUNK < nrBlocks * blockSize + CHUNK && Sized(chunks)
    }

    /** Every byte of every chunk. */
    ghost function Store(): seq<byte>
      reads this
    {
      seq<byte>(|chunks| * CHUNK, i requires i >= 0 reads this => ByteOf(chunks, i))
    }

    constructor (sizeBytes: nat, blockSize: nat)
      requires 0 < blockSize && sizeBytes < 0x1_0000_0000_0000_0000
      ensures Valid() && this.blockSize == blockSize && nrBlocks == sizeBytes / blockSize
      ensures forall i :: 0 <= i < |Store()| ==> Store()[i] == 0
    {
      this.blockSize := blockSize;
      nrBlocks := sizeBytes / blockSize;
      var bytes := sizeBytes / blockSize * blockSize;
      chunks := seq((bytes + CHUNK - 1) / CHUNK, i => None);
      DivBound(sizeBytes, blockSize);
    }

    /** The chunk loop of `read`; indexing a chunk that is not there panics. */
    method ReadRange(offset: nat, len: nat) returns (panic: bool, buf: seq<byte>)
      requires Valid() && offset <= |Store()|
      ensures panic <==> offset + len > |Store()|
      ensures !panic ==> buf == Store()[offset..offset + len]
    {
      buf := [];
      var remaining: nat, pos: nat := len, offset;
      while remaining > 0
        invariant pos == offset + |buf| <= |Store()| && |buf| + remaining == len && HasRead(chunks, offset, buf)
      {
        if pos / CHUNK >= |chunks| {
          PastChunks(pos, |chunks|);
          return true, [];
        }
        var at := pos % CHUNK;
        var take := Min(remaining, CHUNK - at);
        InChunk(pos, take, |chunks|);
        var piece := Data(chunks[pos / CHUNK])[at..at + take];
        ReadsOn(chunks, offset, buf, take);
        buf := buf + piece;
        pos := pos + take;
        remaining := remaining - take;
      }
      panic := false;
    }

    /** The chunk loop of `write`: a chunk is allocated, zeroed, when first written. */
    method WriteRange(offset: nat, buf: seq<byte>) returns (panic: bool)
      requires Valid() && offset <= |Store()|
      modifies this
      ensures Valid() && |Store()| == old(|Store()|)
      ensures panic <==> offset + |buf| > |Store()|
      ensures Store() == Splice(old(Store()), offset, buf[..Min(|buf|, |Store()| - offset)])
    {
      var pos: nat, left := offset, buf;
      while left != []
        invariant Valid() && |chunks| == old(|chunks|) && offset <= pos <= |Store()|
        invariant pos - offset <= |buf| && left == buf[pos - offset..]
        invariant HasWritten(old(chunks), chunks, offset, buf[..pos - offset])
        decreases |left|
      {
        if pos / CHUNK >= |chunks| {
          PastChunks(pos, |chunks|);
          return true;
        }
        var take := Min(|left|, CHUNK - pos % CHUNK);
        InChunk(pos, take, |chunks|);
        WritesOn(old(chunks), chunks, offset, buf, pos, take);
        chunks := PutChunk(chunks, pos, left[..take]);
        pos := pos + take;
        left := left[take..];
      }
      panic := false;
    }

    /** The chunk loop of `write_zeroes`: chunks never written stay unallocated. */
    method ZeroRange(offset: nat, len: nat)
      requires Valid() && offset + len <= |Store()|
      modifies this
      ensures Valid() && |Store()| == old(|Store()|)
      ensures Store() == Splice(old(Store()), offset, Zeros(len))
    {
      var remaining: nat, pos: nat := len, offset;
      while remaining > 0
        invariant Valid() && |chunks| == old(|chunks|) && offset <= pos && pos + remaining == offset + len
        invariant HasWritten(old(chunks), chunks, offset, Zeros(pos - offset))
      {
        var take := Min(remaining, CHUNK - pos % CHUNK);
        InChunk(pos, take, |chunks|);
        ZeroesOn(old(chunks), chunks, offset, pos, take);
        if chunks[pos / CHUNK].Some? {
          chunks := PutChunk(chunks, pos, Zeros(take));
        }
        pos := pos + take;
        remaining := remaining - take;
      }
    }

    /** `read`. */
    method Read(slba: nat, len: nat) returns (outcome: Outcome, buf: seq<byte>)
      requires Valid()
      ensures Got(outcome, buf) == ReadOne(Store(), blockSize, nrBlocks, slba, len)
    {
      if !InRange(slba, len / blockSize, nrBlocks) {
        return OutOfRange, [];
      }
      MulMonotone(slba, nrBlocks, blockSize);
      var panic;
      panic, buf := ReadRange(slba * blockSize, len);
      if panic {
        return Panic, [];
      }
      return Done, buf;
    }

    /** `write`. */
    method Write(slba: nat, buf: seq<byte>) returns (outcome: Outcome)
      requires Valid()
      modifies this
      ensures Valid() && |Store()| == old(|Store()|)
      ensures Wrote(outcome, Store()) == WriteOne(old(Store()), blockSize, nrBlocks, slba, buf)
    {
      if !InRange(slba, |buf| / blockSize, nrBlocks) {
        return OutOfRange;
      }
      MulMonotone(slba, nrBlocks, blockSize);
      var panic := WriteRange(slba * blockSize, buf);
      assert buf[..|buf|] == buf;
      return if panic then Panic else Done;
    }

    /** `write_zeroes`. */
    method WriteZeroes(slba: nat, nlb: nat) returns (outcome: Outcome)
      requires Valid()
      modifies this
      ensures Valid() && |Store()| == old(|Store()|)
      ensures outcome == if slba + nlb <= nrBlocks then Done else OutOfRange
      ensures outcome == Done ==>
        && InBytes(blockSize, nrBlocks, slba, nlb * blockSize)
        && Store() == Splice(old(Store()), slba * blockSize, Zeros(nlb * blockSize))
      ensures outcome != Done ==> Store() == old(Store())
    {
      if !InRange(slba, nlb, nrBlocks) {
        return OutOfRange;
      }
      BlocksFit(blockSize, nrBlocks, slba, nlb);
      ZeroRange(slba * blockSize, nlb * blockSize);
      return Done;
    }

    /** One turn of the segment loop: write the next part. */
    method WriteNext(slba: nat, part: seq<byte>, ghost parts: seq<seq<byte>>) returns (outcome: Outcome, next: nat)
      requires Valid() && parts != [] && part == parts[0]
      modifies this
      ensures Valid() && |Store()| == old(|Store()|)
      ensures WriteEach(old(Store()), blockSize, nrBlocks, slba, parts) ==
              if outcome == Done then WriteEach(Store(), blockSize, nrBlocks, next, parts[1..]) else Wrote(outcome, Store())
    {
      ghost var was := Store();
      outcome := Write(slba, part);
      next := AfterBlocks(slba, |part|);
      WriteEachOne(was, blockSize, nrBlocks, slba, parts, outcome, Store(), next);
    }

    /** The block a loop continues at. */
    method AfterBlocks(slba: nat, len: nat) returns (next: nat)
      requires 0 < blockSize
      ensures next == slba + len / blockSize
    {
      next := slba + len / blockSize;
    }

    /** The default `write_segs`: one `write` per segment, stopping at the first that fails. */
    method WriteSegs(slba: nat, bufs: seq<seq<byte>>, total: nat) returns (outcome: Outcome)
      requires Valid()
      modifies this
      ensures Valid() && |Store()| == old(|Store()|)
      ensures Wrote(outcome, Store()) == WriteEach(old(Store()), blockSize, nrBlocks, slba, Takes(bufs, total))
    {
      var rest, remaining: nat, cur: nat := bufs, total, slba;
      ghost var parts := Takes(bufs, total);
      ghost var end := WriteEach(Store(), blockSize, nrBlocks, slba, parts);
      while rest != [] && remaining > 0
        invariant Valid() && |Store()| == old(|Store()|) && parts == Takes(rest, remaining)
        invariant WriteEach(Store(), blockSize, nrBlocks, cur, parts) == end
        decreases |rest|
      {
        var take := Min(remaining, |rest[0]|);
        TakesHead(rest, remaining, take);
        outcome, cur := WriteNext(cur, rest[0][..take], parts);
        if outcome != Done {
          return outcome;
        }
        parts, remaining, rest := parts[1..], remaining - take, rest[1..];
      }
      return Done;
    }

    /** One turn of the read loop: fill the next segment. */
    method ReadNext(bufs: seq<seq<byte>>, slba: nat, take: nat, ghost takes: seq<nat>)
      returns (outcome: Outcome, more: seq<seq<byte>>, next: nat)
      requires Valid() && takes != [] && take == takes[0]
      ensures Behind(bufs, ReadEach(Store(), blockSize, nrBlocks, slba, takes)) ==
              if outcome == Done then Behind(more, ReadEach(Store(), blockSize, nrBlocks, next, takes[1..]))
              else Filled(outcome, more)
    {
      var buf;
      outcome, buf := Read(slba, take);
      next := AfterBlocks(slba, take);
      more := if outcome == Done then bufs + [buf] else bufs;
      BehindOne(bufs, Store(), blockSize, nrBlocks, slba, takes, outcome, buf, next);
    }

    /** The default `read_segs`: one `read` per segment, each filling its segment. */
    method ReadSegs(slba: nat, lens: seq<nat>, total: nat) returns (outcome: Outcome, bufs: seq<seq<byte>>)
      requires Valid()
      ensures Filled(outcome, bufs) == ReadEach(Store(), blockSize, nrBlocks, slba, TakeLens(lens, total))
    {
      var rest, remaining: nat, cur: nat := lens, total, slba;
      bufs := [];
      ghost var takes := TakeLens(lens, total);
      ghost var end := ReadEach(Store(), blockSize, nrBlocks, slba, takes);
      assert Behind([], end) == end;
      while rest != [] && remaining > 0
        invariant takes == TakeLens(rest, remaining)
        invariant Behind(bufs, ReadEach(Store(), blockSize, nrBlocks, cur, takes)) == end
        decreases |rest|
      {
        var take := Min(remaining, rest[0]);
        TakeLensHead(rest, remaining, take);
        outcome, bufs, cur := ReadNext(bufs, cur, take, takes);
        if outcome != Done {
          return outcome, bufs;
        }
        takes, remaining, rest := takes[1..], remaining - take, rest[1..];
      }
      return Done, bufs;
    }
  }

  /** What was read before, with what is read from here on. */
  function Behind(bufs: seq<seq<byte>>, f: Filled): Filled {
    Filled(f.outcome, bufs + f.bufs)
  }

  lemma WriteEachOne(s: seq<byte>, bs: nat, nrBlocks: nat, slba: nat, parts: seq<seq<byte>>, outcome: Outcome,
                     now: seq<byte>, next: nat)
    requires bs > 0 && parts != [] && Wrote(outcome, now) == WriteOne(s, bs, nrBlocks, slba, parts[0])
    requires next == slba + |parts[0]| / bs
    ensures WriteEach(s, bs, nrBlocks, slba, parts) ==
            if outcome == Done then WriteEach(now, bs, nrBlocks, next, parts[1..]) else Wrote(outcome, now)
  {
  }

  lemma BehindOne(bufs: seq<seq<byte>>, s: seq<byte>, bs: nat, nrBlocks: nat, slba: nat, lens: seq<nat>, outcome: Outcome,
                  buf: seq<byte>, next: nat)
    requires bs > 0 && lens != [] && Got(outcome, buf) == ReadOne(s, bs, nrBlocks, slba, lens[0])
    requires next == slba + lens[0] / bs
    ensures Behind(bufs, ReadEach(s, bs, nrBlocks, slba, lens)) ==
              if outcome != Done then Filled(outcome, bufs)
              else Behind(bufs + [buf], ReadEach(s, bs, nrBlocks, next, lens[1..]))
  {
    if outcome == Done {
      var more := ReadEach(s, bs, nrBlocks, next, lens[1..]);
      assert bufs + ([buf] + more.bufs) == bufs + [buf] + more.bufs;
    }
  }

  // ----- block arithmetic -----

  lemma MulGrows(q: nat, b: nat)
    requires b > 0
    ensures q <= q * b
  {
    if b > 1 {
      MulGrows(q, b - 1);
      assert q * b == q * (b - 1) + q;
    }
  }

  lemma DivBound(a: nat, b: nat)
    requires b > 0
    ensures a / b * b <= a && a / b <= a
  {
    var q, r := a / b, a % b;
    assert q * b + r == a;
    MulGrows(q, b);
  }

  lemma MulMonotone(a: nat, b: nat, k: nat)
    requires a <= b
    ensures a * k <= b * k
  {
    assert b * k == a * k + (b - a) * k;
  }

  lemma BlocksFit(bs: nat, nrBlocks: nat, slba: nat, nlb: nat)
    requires bs > 0
    ensures slba + nlb <= nrBlocks <==> InBytes(bs, nrBlocks, slba, nlb * bs)
  {
    assert slba * bs + nlb * bs == (slba + nlb) * bs;
    if slba + nlb <= nrBlocks {
      MulMonotone(slba + nlb, nrBlocks, bs);
    } else {
      MulMonotone(nrBlocks + 1, slba + nlb, bs);
    }
  }

  /** Where a transfer ends: its whole blocks, then the partial one. */
  lemma EndsAt(bs: nat, slba: nat, len: nat)
    requires bs > 0
    ensures slba * bs + len == (slba + len / bs) * bs + len % bs && len % bs < bs
  {
    var k := len / bs;
    assert len == k * bs + len % bs;
    assert (slba + k) * bs == slba * bs + k * bs;
  }

  /** Passing the range check is being inside the device exactly for whole blocks, or short of the last block. */
  lemma ContainedIff(bs: nat, nrBlocks: nat, slba: nat, len: nat)
    requires bs > 0 && InRange(slba, len / bs, nrBlocks)
    ensures InBytes(bs, nrBlocks, slba, len) <==> len % bs == 0 || slba + len / bs < nrBlocks
  {
    var k := slba + len / bs;
    EndsAt(bs, slba, len);
    if k < nrBlocks {
      MulMonotone(k + 1, nrBlocks, bs);
      assert (k + 1) * bs == k * bs + bs;
    }
  }

  lemma Outcomes(s: seq<byte>, bs: nat, nrBlocks: nat, slba: nat, data: seq<byte>)
    requires bs > 0 && nrBlocks * bs <= |s|
    ensures var outcome := WriteOne(s, bs, nrBlocks, slba, data).outcome;
            && (outcome == OutOfRange <==> !InRange(slba, |data| / bs, nrBlocks))
            && (outcome == Panic <==>
                  && InRange(slba, |data| / bs, nrBlocks) && slba + |data| / bs == nrBlocks
                  && nrBlocks * bs + |data| % bs > |s|)
            && outcome == ReadOne(s, bs, nrBlocks, slba, |data|).outcome
  {
    var k := slba + |data| / bs;
    EndsAt(bs, slba, |data|);
    if k < nrBlocks {
      MulMonotone(k + 1, nrBlocks, bs);
      assert (k + 1) * bs == k * bs + bs;
    }
  }

  /**
    How a transfer of any length at any block ends, on a store that holds the
    device: it is refused exactly when its whole blocks go past the device, and
    panics exactly when they end with it and its partial block does not fit in
    the slack behind it.
   */
  lemma PanicsIff(s: seq<byte>, bs: nat, nrBlocks: nat, slba: nat, data: seq<byte>)
    requires bs > 0 && nrBlocks * bs <= |s| && nrBlocks < 0x1_0000_0000_0000_0000
    ensures var outcome := WriteOne(s, bs, nrBlocks, slba, data).outcome;
            && (outcome == OutOfRange <==> slba + |data| / bs > nrBlocks)
            && (outcome == Panic <==> slba + |data| / bs == nrBlocks && nrBlocks * bs + |data| % bs > |s|)
            && outcome == ReadOne(s, bs, nrBlocks, slba, |data|).outcome
  {
    Outcomes(s, bs, nrBlocks, slba, data);
  }

  // ----- the device as blocks -----

  lemma BlockEnds(bs: nat, b: nat, n: nat)
    requires b < n
    ensures b * bs + bs <= n * bs
  {
    MulMonotone(b + 1, n, bs);
    assert (b + 1) * bs == b * bs + bs;
  }

  ghost predicate AreBlocks(bs: nat, blocks: seq<seq<byte>>) {
    forall i :: 0 <= i < |blocks| ==> |blocks[i]| == bs
  }

  lemma {:induction false} BlocksFlat(bs: nat, blocks: seq<seq<byte>>)
    requires AreBlocks(bs, blocks)
    ensures |Flatten(blocks)| == |blocks| * bs
  {
    if blocks != [] {
      BlocksFlat(bs, blocks[1..]);
      assert |blocks| * bs == bs + (|blocks| - 1) * bs;
    }
  }

  /** Block `i` of the flat bytes. */
  lemma {:induction false} BlockAt(bs: nat, blocks: seq<seq<byte>>, i: nat, at: nat)
    requires AreBlocks(bs, blocks) && i < |blocks| && at == i * bs
    ensures at + bs <= |Flatten(blocks)| && Flatten(blocks)[at..at + bs] == blocks[i]
    decreases i
  {
    if i > 0 {
      assert (i - 1) * bs == at - bs;
      BlockAt(bs, blocks[1..], i - 1, at - bs);
      assert Flatten(blocks)[at..at + bs] == Flatten(blocks[1..])[at - bs..at];
    }
  }

  lemma SpliceWindow(s: seq<byte>, at: nat, data: seq<byte>, p: nat, n: nat)
    requires at + |data| <= |s| && p + n <= |s|
    ensures at <= p && p + n <= at + |data| ==> Splice(s, at, data)[p..p + n] == data[p - at..p - at + n]
    ensures p + n <= at || at + |data| <= p ==> Splice(s, at, data)[p..p + n] == s[p..p + n]
  {
  }

  /** Where block `b` lies against a transfer of `n` blocks from `slba`. */
  lemma BlockPlaces(bs: nat, slba: nat, n: nat, b: nat, at: nat, p: nat, len: nat)
    requires at == slba * bs && p == b * bs && len == n * bs
    ensures slba <= b < slba + n ==> at <= p && p - at == (b - slba) * bs
    ensures b < slba ==> p + bs <= at
    ensures slba + n <= b ==> at + len <= p
  {
    if slba <= b < slba + n {
      assert p == at + (b - slba) * bs;
    } else if b < slba {
      BlockEnds(bs, b, slba);
    } else {
      MulMonotone(slba + n, b, bs);
      assert (slba + n) * bs == slba * bs + n * bs;
    }
  }

  lemma BlockReads(s: seq<byte>, bs: nat, nrBlocks: nat, b: nat)
    requires bs > 0 && nrBlocks * bs <= |s| && nrBlocks < 0x1_0000_0000_0000_0000 && b < nrBlocks
    ensures b * bs + bs <= |s| && ReadOne(s, bs, nrBlocks, b, bs) == Got(Done, s[b * bs..b * bs + bs])
  {
    BlockEnds(bs, b, nrBlocks);
    assert bs / bs == 1;
  }

  lemma MulDiv(n: nat, bs: nat)
    requires bs > 0
    ensures n * bs / bs == n
  {
    var q := n * bs / bs;
    assert q * bs + n * bs % bs == n * bs;
    if q < n {
      BlockEnds(bs, q, n);
    } else if q > n {
      BlockEnds(bs, n, q);
    }
  }

  lemma BlocksLand(s: seq<byte>, bs: nat, nrBlocks: nat, slba: nat, n: nat, data: seq<byte>, at: nat)
    requires bs > 0 && nrBlocks * bs <= |s| && nrBlocks < 0x1_0000_0000_0000_0000 && slba + n <= nrBlocks
    requires |data| / bs == n && at == slba * bs && at + |data| <= |s|
    ensures WriteOne(s, bs, nrBlocks, slba, data) == Wrote(Done, Splice(s, at, data))
  {
  }

  /** Block `b`, at `p`, after `blocks` were spliced in at `at`. */
  lemma BlockAfter(s: seq<byte>, bs: nat, blocks: seq<seq<byte>>, slba: nat, at: nat, b: nat, p: nat)
    requires AreBlocks(bs, blocks) && p + bs <= |s| && at + |Flatten(blocks)| <= |s|
    requires slba <= b < slba + |blocks| ==> at <= p && p - at == (b - slba) * bs
    requires b < slba ==> p + bs <= at
    requires slba + |blocks| <= b ==> at + |Flatten(blocks)| <= p
    ensures Splice(s, at, Flatten(blocks))[p..p + bs] == if slba <= b < slba + |blocks| then blocks[b - slba] else s[p..p + bs]
  {
    if slba <= b < slba + |blocks| {
      BlockInside(s, bs, blocks, at, b - slba, p - at);
    } else {
      SpliceWindow(s, at, Flatten(blocks), p, bs);
    }
  }

  lemma BlockInside(s: seq<byte>, bs: nat, blocks: seq<seq<byte>>, at: nat, i: nat, off: nat)
    requires AreBlocks(bs, blocks) && i < |blocks| && off == i * bs && at + off + bs <= |s| && at + |Flatten(blocks)| <= |s|
    ensures Splice(s, at, Flatten(blocks))[at + off..at + off + bs] == blocks[i]
  {
    BlockAt(bs, blocks, i, off);
    SpliceWindow(s, at, Flatten(blocks), at + off, bs);
  }

  lemma BlocksInside(bs: nat, nrBlocks: nat, slba: nat, n: nat)
    requires slba + n <= nrBlocks
    ensures slba * bs + n * bs <= nrBlocks * bs
  {
    assert (slba + n) * bs == slba * bs + n * bs;
    MulMonotone(slba + n, nrBlocks, bs);
  }

  /**
    A write of whole blocks that exist is done, and then each block of the
    device reads as the one written to it, or as before.
   */
  lemma BlocksAreWritten(s: seq<byte>, bs: nat, nrBlocks: nat, slba: nat, blocks: seq<seq<byte>>, b: nat)
    requires bs > 0 && nrBlocks * bs <= |s| && nrBlocks < 0x1_0000_0000_0000_0000
    requires AreBlocks(bs, blocks) && slba + |blocks| <= nrBlocks && b < nrBlocks
    ensures var w := WriteOne(s, bs, nrBlocks, slba, Flatten(blocks));
            && w.outcome == Done && |w.store| == |s| && ReadOne(s, bs, nrBlocks, b, bs).outcome == Done
            && ReadOne(w.store, bs, nrBlocks, b, bs) ==
               (if slba <= b < slba + |blocks| then Got(Done, blocks[b - slba]) else ReadOne(s, bs, nrBlocks, b, bs))
  {
    var data, at := Flatten(blocks), slba * bs;
    BlocksFlat(bs, blocks);
    MulDiv(|blocks|, bs);
    BlocksInside(bs, nrBlocks, slba, |blocks|);
    BlocksLand(s, bs, nrBlocks, slba, |blocks|, data, at);
    BlockReads(s, bs, nrBlocks, b);
    BlockReads(Splice(s, at, data), bs, nrBlocks, b);
    BlockPlaces(bs, slba, |blocks|, b, at, b * bs, |data|);
    BlockAfter(s, bs, blocks, slba, at, b, b * bs);
  }

  /** One 4096-byte block, and a byte more is written: it lands in the slack behind the device. */
  lemma SlackIsWritten(s: seq<byte>, data: seq<byte>)
    requires |s| == CHUNK && |data| == 4097
    ensures WriteOne(s, 4096, 1, 0, data) == Wrote(Done, Splice(s, 0, data)) && !InBytes(4096, 1, 0, |data|)
  {
    assert 4097 / 4096 == 1;
  }

  /** A device that fills its chunk, and a byte more is written at its last block: a panic, with the block written. */
  lemma PastTheEndPanics(s: seq<byte>, data: seq<byte>)
    requires |s| == CHUNK && |data| == 4097
    ensures WriteOne(s, 4096, 512, 511, data) == Wrote(Panic, Splice(s, 511 * 4096, data[..4096]))
  {
    assert 4097 / 4096 == 1;
  }
}
