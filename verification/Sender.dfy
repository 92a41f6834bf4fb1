/**
  The ordered send path: work items are gathered in push order into one of two
  batches, shipped as one send with short-send resume and two one-way
  fallbacks, and their tags released when the kernel is done with the memory.
 */
module Sender {
  import opened Common
  import opened Slots
  import opened SendItems

  /**
    What the send path meets but does not decide: the bytes of an item, the
    headroom left in a gather list, the payload cap, and whether the batches'
    arena lies in a registered buffer.
   */
  datatype Env = Env(enc: Work -> seq<byte>, fits: seq<Work> -> bool, capped: seq<Work> -> bool, indexed: bool)

  function EncAll(env: Env, works: seq<Work>): seq<byte> {
    if works == [] then [] else env.enc(works[0]) + EncAll(env, works[1..])
  }

  lemma {:induction false} EncAllAppend(env: Env, a: seq<Work>, b: seq<Work>)
    ensures EncAll(env, a + b) == EncAll(env, a) + EncAll(env, b)
  {
    if a == [] {
      assert a + b == b;
    } else {
      assert (a + b)[1..] == a[1..] + b;
      EncAllAppend(env, a[1..], b);
    }
  }

  lemma EncAllSnoc(env: Env, a: seq<Work>, w: Work)
    ensures EncAll(env, a + [w]) == EncAll(env, a) + env.enc(w)
  {
    EncAllAppend(env, a, [w]);
    assert [w][1..] == [];
    assert EncAll(env, [w]) == env.enc(w) + [];
  }

  // ----- batches -----

  /** When an item's tag may be released. */
  datatype Staged = NoRelease | AtCqe(tag: nat) | AtNotif(tag: nat)

  /** `release_class`: payload is referenced in place, so its tag waits for the notification. */
  function ReleaseClass(w: Work): Staged {
    match w
    case Response(tag, _, data) => if data != [] then AtNotif(tag) else AtCqe(tag)
    case R2t(_, _, _, _) => NoRelease
  }

  /**
    A gather list: `sent` of its bytes are on the wire. `handles` are the
    notifications not yet reaped, `open` those the kernel still owes.
   */
  datatype Batch = Batch(
    items: seq<Work>,
    bytes: seq<byte>,
    sent: nat,
    atCqe: seq<nat>,
    atNotif: seq<nat>,
    handles: nat,
    open: nat)

  const Empty: Batch := Batch([], [], 0, [], [], 0, 0)

  function AddItem(env: Env, b: Batch, w: Work): Batch {
    var b1 := b.(items := b.items + [w], bytes := b.bytes + env.enc(w));
    match ReleaseClass(w)
    case NoRelease => b1
    case AtCqe(tag) => b1.(atCqe := b.atCqe + [tag])
    case AtNotif(tag) => b1.(atNotif := b.atNotif + [tag])
  }

  datatype Staging = Staging(batch: Batch, carry: Option<Work>, queue: seq<Work>)

  /** `stage_batch`: take items while there is room, up to the payload cap. */
  function StageAll(env: Env, b: Batch, item: Work, queue: seq<Work>): Staging
    decreases |queue|
  {
    if !env.fits(b.items) then Staging(b, Some(item), queue)
    else
      var b1 := AddItem(env, b, item);
      if env.capped(b1.items) || queue == [] then Staging(b1, None, queue)
      else StageAll(env, b1, queue[0], queue[1..])
  }

  function OptSeq(o: Option<Work>): seq<Work> {
    match o
    case None => []
    case Some(w) => [w]
  }

  function TagsAt(works: seq<Work>, payload: bool): seq<nat> {
    if works == [] then []
    else
      var rest := TagsAt(works[1..], payload);
      if works[0].Response? && (works[0].data != []) == payload then [works[0].tag] + rest else rest
  }

  lemma {:induction false} TagsAtSnoc(works: seq<Work>, w: Work, payload: bool)
    ensures TagsAt(works + [w], payload) ==
            TagsAt(works, payload) + if w.Response? && (w.data != []) == payload then [w.tag] else []
  {
    if works == [] {
      assert works + [w] == [w] && [w][1..] == [];
    } else {
      assert (works + [w])[1..] == works[1..] + [w];
      TagsAtSnoc(works[1..], w, payload);
    }
  }

  /** A batch holds exactly the bytes and the tags of its items. */
  ghost predicate Consistent(env: Env, b: Batch) {
    b.bytes == EncAll(env, b.items) && b.atCqe == TagsAt(b.items, false) && b.atNotif == TagsAt(b.items, true)
  }

  lemma AddConsistent(env: Env, b: Batch, w: Work)
    requires Consistent(env, b)
    ensures Consistent(env, AddItem(env, b, w))
  {
    EncAllSnoc(env, b.items, w);
    TagsAtSnoc(b.items, w, false);
    TagsAtSnoc(b.items, w, true);
  }

  /** Staging keeps order and drops nothing: what was taken, the item left over and the rest are what there was. */
  lemma {:induction false} StagingKeepsOrder(env: Env, b: Batch, item: Work, queue: seq<Work>)
    requires Consistent(env, b)
    ensures var s := StageAll(env, b, item, queue);
            && Consistent(env, s.batch)
            && s.batch.items + OptSeq(s.carry) + s.queue == b.items + [item] + queue
            && b.items <= s.batch.items
            && (env.fits(b.items) ==> |s.batch.items| > |b.items|)
            && s.batch.sent == b.sent && s.batch.handles == b.handles && s.batch.open == b.open
    decreases |queue|
  {
    if env.fits(b.items) {
      var b1 := AddItem(env, b, item);
      AddConsistent(env, b, item);
      if !env.capped(b1.items) && queue != [] {
        StagingKeepsOrder(env, b1, queue[0], queue[1..]);
        assert b1.items + [queue[0]] + queue[1..] == b.items + [item] + queue;
      } else {
        assert b1.items + [] + queue == b.items + [item] + queue;
      }
    }
  }

  // ----- shipping -----

  /** What one send operation can come back with. */
  datatype KernelResult = Sent(n: nat) | BadVector | NoMemory | Broken

  datatype Ship = Ship(left: seq<byte>, wire: seq<byte>, zc: bool, fixedOk: bool, handles: nat, open: nat, fallbacks: nat)

  datatype ShipResult = More(s: Ship) | Done(s: Ship) | Failed(s: Ship)

  /** One turn of `ship_batch`: a failed zero-copy send still leaves a notification to wait for. */
  function ShipOne(indexed: bool, s: Ship, r: KernelResult): ShipResult
    requires r.Sent? ==> r.n <= |s.left|
  {
    var s1 := if s.zc then s.(handles := s.handles + 1, open := s.open + 1) else s;
    match r
    case Sent(n) =>
      if n == 0 then Failed(s1)
      else
        var s2 := s1.(left := s.left[n..], wire := s.wire + s.left[..n]);
        if s2.left == [] then Done(s2) else More(s2)
    case BadVector => if s.zc && indexed && s.fixedOk then More(s1.(fixedOk := false)) else Failed(s1)
    case NoMemory => if s.zc then More(s1.(zc := false, fallbacks := s.fallbacks + 1)) else Failed(s1)
    case Broken => Failed(s1)
  }

  function Bit(b: bool): nat {
    if b then 1 else 0
  }

  /** Each turn sends something or uses up one of the two fallbacks. */
  lemma ShipShrinks(indexed: bool, s: Ship, r: KernelResult)
    requires (r.Sent? ==> r.n <= |s.left|) && ShipOne(indexed, s, r).More?
    ensures var t := ShipOne(indexed, s, r).s;
            || |t.left| < |s.left|
            || (|t.left| == |s.left| && Bit(t.zc) < Bit(s.zc))
            || (|t.left| == |s.left| && t.zc == s.zc && Bit(t.fixedOk) < Bit(s.fixedOk))
  {
  }

  /** A kernel: what the `i`-th send of `k` bytes comes back with, never more than `k` sent. */
  type Kernel = (nat, nat) -> KernelResult

  ghost predicate Abi(kernel: Kernel) {
    forall i, k :: kernel(i, k).Sent? ==> kernel(i, k).n <= k
  }

  ghost function ShipAll(indexed: bool, kernel: Kernel, i: nat, s: Ship): ShipResult
    requires Abi(kernel)
    decreases |s.left|, Bit(s.zc), Bit(s.fixedOk)
  {
    var r := kernel(i, |s.left|);
    match ShipOne(indexed, s, r)
    case Done(t) => Done(t)
    case Failed(t) => Failed(t)
    case More(t) =>
      ShipShrinks(indexed, s, r);
      ShipAll(indexed, kernel, i + 1, t)
  }

  /** No byte is lost, repeated or reordered by one turn. */
  lemma ShipOneKeeps(indexed: bool, s: Ship, r: KernelResult)
    requires r.Sent? ==> r.n <= |s.left|
    ensures var t := ShipOne(indexed, s, r).s;
            && t.wire + t.left == s.wire + s.left && s.wire <= t.wire
            && (ShipOne(indexed, s, r).Done? ==> t.left == [])
            && (t.fixedOk ==> s.fixedOk)
            && t.handles - s.handles == t.open - s.open >= 0
  {
  }

  /** Whatever the kernel does, the batch ends up on the wire once, or a prefix of it does and the send failed. */
  lemma {:induction false} ShipAllKeeps(indexed: bool, kernel: Kernel, i: nat, s: Ship)
    requires Abi(kernel)
    ensures var r := ShipAll(indexed, kernel, i, s);
            && !r.More?
            && r.s.wire + r.s.left == s.wire + s.left && s.wire <= r.s.wire
            && (r.Done? ==> r.s.wire == s.wire + s.left)
            && r.s.handles - s.handles == r.s.open - s.open >= 0
    decreases |s.left|, Bit(s.zc), Bit(s.fixedOk)
  {
    var r := kernel(i, |s.left|);
    ShipOneKeeps(indexed, s, r);
    var one := ShipOne(indexed, s, r);
    if one.More? {
      ShipShrinks(indexed, s, r);
      ShipAllKeeps(indexed, kernel, i + 1, one.s);
    }
    var end := ShipAll(indexed, kernel, i, s);
    if end.Done? {
      assert end.s.left == [];
      assert end.s.wire + [] == end.s.wire;
    }
  }

  // ----- releasing -----

  /** The tags can be released one after the other: each is responding, and none twice. */
  ghost predicate Releasable(slots: SlotsView, tags: seq<nat>)
    decreases |tags|
  {
    tags != [] ==> slots.Is(tags[0], Responding) && Releasable(slots.Release(tags[0]), tags[1..])
  }

  ghost function ReleaseAll(slots: SlotsView, tags: seq<nat>): SlotsView
    decreases |tags|
  {
    if tags == [] || !slots.Is(tags[0], Responding) then slots
    else ReleaseAll(slots.Release(tags[0]), tags[1..])
  }
}
