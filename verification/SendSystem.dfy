/**
  The send path, the slot engine and the kernel in any interleaving: what goes
  on the wire is the pushed work, in push order, each byte once; every tag is
  in exactly one place; memory the kernel may still read is never reused; and
  an orderly close releases every tag exactly once.
 */
module SendSystem {
  import opened Common
  import opened Digest
  import opened Pdu
  import opened Slots
  import opened SendItems
  import opened Sender

  /** Where the sender is: parked, holding an item for the next batch, shipping, draining, gone. */
  datatype Pc =
    | Idle
    | Holding(first: Work)
    | Shipping(idx: nat, zc: bool)
    | Draining(todo: seq<nat>)
    | Exited

  /**
    `data` is each slot's buffer. `pushed` and `staged` are the work pushed and
    gathered so far, `releases` the tags released, `lost` those a failed
    connection dropped.
   */
  datatype Conn = Conn(
    slots: SlotsView,
    data: seq<seq<byte>>,
    queue: seq<Work>,
    closed: bool,
    pc: Pc,
    carry: Option<Work>,
    batches: seq<Batch>,
    inflight: seq<nat>,
    fixedOk: bool,
    wire: seq<byte>,
    failed: bool,
    pushed: seq<Work>,
    staged: seq<Work>,
    releases: seq<nat>,
    lost: multiset<nat>)

  datatype Step =
    | Claim
    | SubmitCmd(tag: nat)
    | StartCmd(tag: nat)
    | Fill(tag: nat, bytes: seq<byte>)
    | Complete(tag: nat, cqe: Cqe, len: nat)
    | FailReceiving(tag: nat, cqe: Cqe)
    | Solicit(tag: nat, cid: u16, offset: u32, length: u32)
    | CloseSend
    | Take
    | FinishUp
    | ReapFront
    | AwaitOldest
    | StageBatch(zc: bool)
    | SendOp(r: KernelResult)
    | Notified(idx: nat)
    | DrainNext

  ghost predicate Shape(c: Conn) {
    && |c.batches| == 2 && |c.data| == |c.slots.state|
    && (forall k :: 0 <= k < |c.inflight| ==> c.inflight[k] < 2)
    && (c.pc.Shipping? ==> c.pc.idx < 2 && c.batches[c.pc.idx].sent <= |c.batches[c.pc.idx].bytes|)
    && (c.pc.Draining? ==> forall k :: 0 <= k < |c.pc.todo| ==> c.pc.todo[k] < 2)
  }

  ghost function Unsent(b: Batch): seq<byte>
    requires b.sent <= |b.bytes|
  {
    b.bytes[b.sent..]
  }

  ghost predicate Enabled(c: Conn, s: Step)
    requires Shape(c)
  {
    match s
    case Claim => true
    case SubmitCmd(tag) => c.slots.Is(tag, Receiving)
    case StartCmd(tag) => c.slots.Is(tag, Ready)
    case Fill(tag, _) => c.slots.Is(tag, Receiving) || c.slots.Is(tag, Executing)
    case Complete(tag, _, len) => c.slots.Is(tag, Executing) && len <= |c.data[tag]|
    case FailReceiving(tag, _) => c.slots.Is(tag, Receiving)
    case Solicit(tag, _, _, _) => c.slots.Is(tag, Receiving)
    case CloseSend => true
    case Take => c.pc == Idle && c.queue != []
    case FinishUp => c.pc == Idle && c.queue == [] && c.closed
    case ReapFront =>
      c.pc == Idle && c.queue == [] && !c.closed && c.inflight != [] && c.batches[c.inflight[0]].open == 0
    case AwaitOldest => c.pc.Holding? && |c.inflight| == 2 && c.batches[c.inflight[0]].open == 0
    case StageBatch(_) => c.pc.Holding? && |c.inflight| < 2
    case SendOp(r) => c.pc.Shipping? && (r.Sent? ==> r.n <= |Unsent(c.batches[c.pc.idx])|)
    case Notified(idx) => idx < 2 && c.batches[idx].open > 0
    case DrainNext => c.pc.Draining? && c.pc.todo != [] && c.batches[c.pc.todo[0]].open == 0
  }

  ghost function Push(c: Conn, w: Work): Conn {
    c.(queue := c.queue + [w], pushed := c.pushed + [w])
  }

  /** Release the tags that waited for the notifications and empty the batch. */
  ghost function Recycle(c: Conn, idx: nat): Conn
    requires idx < |c.batches|
  {
    var b := c.batches[idx];
    c.(slots := ReleaseAll(c.slots, b.atNotif),
       releases := c.releases + b.atNotif,
       lost := c.lost + multiset(b.atCqe),
       batches := c.batches[idx := Empty])
  }

  /** The batch is on the wire: release what needs no notification, then recycle or wait. */
  ghost function Retire(c: Conn, idx: nat): Conn
    requires idx < |c.batches|
  {
    var b := c.batches[idx];
    var c1 := c.(slots := ReleaseAll(c.slots, b.atCqe),
                 releases := c.releases + b.atCqe,
                 batches := c.batches[idx := b.(atCqe := [])]);
    if b.handles == 0 then Recycle(c1, idx) else c1.(inflight := c.inflight + [idx])
  }

  /** A batch not waiting for notifications. */
  function FreeBatch(inflight: seq<nat>): nat {
    if 0 !in inflight then 0 else 1
  }

  ghost function DoStage(env: Env, c: Conn, zc: bool): Conn
    requires Shape(c) && Enabled(c, StageBatch(zc))
  {
    var idx := FreeBatch(c.inflight);
    var s := StageAll(env, c.batches[idx], c.pc.first, c.queue);
    c.(batches := c.batches[idx := s.batch],
       carry := s.carry,
       queue := s.queue,
       staged := c.staged + s.batch.items,
       pc := Shipping(idx, zc))
  }

  ghost function ShipOf(c: Conn): Ship
    requires Shape(c) && c.pc.Shipping?
  {
    var b := c.batches[c.pc.idx];
    Ship(Unsent(b), c.wire, c.pc.zc, c.fixedOk, b.handles, b.open, 0)
  }

  /** The connection with one send's effect written back. */
  ghost function Shipped(c: Conn, t: Ship): Conn
    requires Shape(c) && c.pc.Shipping? && |t.left| <= |c.batches[c.pc.idx].bytes|
  {
    var b := c.batches[c.pc.idx];
    c.(batches := c.batches[c.pc.idx := b.(sent := |b.bytes| - |t.left|, handles := t.handles, open := t.open)],
       wire := t.wire,
       fixedOk := t.fixedOk,
       pc := Shipping(c.pc.idx, t.zc))
  }

  ghost function Next(c: Conn): Conn {
    match c.carry
    case None => c.(pc := Idle)
    case Some(w) => c.(pc := Holding(w), carry := None)
  }

  ghost function StartDrain(c: Conn): Conn {
    c.(pc := Draining(c.inflight + [0, 1]), inflight := [])
  }

  ghost function DoSend(env: Env, c: Conn, r: KernelResult): Conn
    requires Shape(c) && Enabled(c, SendOp(r))
  {
    var one := ShipOne(env.indexed, ShipOf(c), r);
    ShipOneKeeps(env.indexed, ShipOf(c), r);
    assert |one.s.left| <= |c.batches[c.pc.idx].bytes|;
    AfterTurn(Shipped(c, one.s), c.pc.idx, one)
  }

  /** Go on with the batch, retire it, or give the connection up. */
  ghost function AfterTurn(c: Conn, idx: nat, one: ShipResult): Conn
    requires idx < |c.batches|
  {
    match one
    case More(_) => c
    case Done(_) => Next(Retire(c, idx))
    case Failed(_) => StartDrain(c.(failed := true))
  }

  function AfterDrain(todo: seq<nat>): Pc
    requires todo != []
  {
    if |todo| == 1 then Exited else Draining(todo[1..])
  }

  ghost function OneNotified(c: Conn, idx: nat): Conn
    requires idx < |c.batches| && c.batches[idx].open > 0
  {
    c.(batches := c.batches[idx := c.batches[idx].(open := c.batches[idx].open - 1)])
  }

  ghost function Apply(env: Env, c: Conn, s: Step): Conn
    requires Shape(c) && Enabled(c, s)
  {
    match s
    case Claim => c.(slots := c.slots.Claim().0)
    case SubmitCmd(tag) => c.(slots := c.slots.Submit(tag))
    case StartCmd(tag) => c.(slots := c.slots.Start(tag))
    case Fill(tag, bytes) => c.(data := c.data[tag := bytes])
    case Complete(tag, cqe, len) =>
      Push(c.(slots := c.slots.BeginRespond(tag)), Response(tag, cqe, c.data[tag][..len]))
    case FailReceiving(tag, cqe) => Push(c.(slots := c.slots.RespondReceiving(tag)), Response(tag, cqe, []))
    case Solicit(tag, cid, offset, length) => Push(c, R2t(tag, cid, offset, length))
    case CloseSend => c.(closed := true)
    case Take => c.(pc := Holding(c.queue[0]), queue := c.queue[1..])
    case FinishUp => StartDrain(c)
    case ReapFront => Recycle(c, c.inflight[0]).(inflight := c.inflight[1..])
    case AwaitOldest => Recycle(c, c.inflight[0]).(inflight := c.inflight[1..])
    case StageBatch(zc) => DoStage(env, c, zc)
    case SendOp(r) => DoSend(env, c, r)
    case Notified(idx) => OneNotified(c, idx)
    case DrainNext =>
      Recycle(c, c.pc.todo[0]).(pc := AfterDrain(c.pc.todo))
  }

  // ----- the invariant -----

  ghost function RespTags(works: seq<Work>): multiset<nat> {
    if works == [] then multiset{}
    else (if works[0].Response? then multiset{works[0].tag} else multiset{}) + RespTags(works[1..])
  }

  ghost function Hand(c: Conn): seq<Work> {
    if c.pc.Holding? then [c.pc.first] else OptSeq(c.carry)
  }

  ghost function BatchTags(b: Batch): multiset<nat> {
    multiset(b.atCqe) + multiset(b.atNotif)
  }

  /** The tags on their way out: queued, in hand or in a batch. */
  ghost function Held(c: Conn): multiset<nat>
    requires |c.batches| == 2
  {
    RespTags(Hand(c)) + RespTags(c.queue) + BatchTags(c.batches[0]) + BatchTags(c.batches[1])
  }

  /** Each tag on its way out, and no other, belongs to a responding slot, once. */
  ghost predicate Responds(slots: SlotsView, held: multiset<nat>) {
    forall t: nat :: held[t] == if slots.Is(t, Responding) then 1 else 0
  }

  /** The books balance: what was pushed is released, on its way out, or lost with the connection. */
  ghost predicate Balanced(slots: SlotsView, resp: multiset<nat>, released: multiset<nat>, held: multiset<nat>,
                           lost: multiset<nat>)
  {
    slots.Sound() && Responds(slots, held + lost) && resp == released + held + lost
  }

  ghost predicate Tagged(c: Conn)
    requires |c.batches| == 2
  {
    && Balanced(c.slots, RespTags(c.pushed), multiset(c.releases), Held(c), c.lost)
    && (!c.failed ==> c.lost == multiset{})
  }

  ghost predicate Ordered(env: Env, c: Conn)
    requires Shape(c)
  {
    && c.pushed == c.staged + Hand(c) + c.queue
    && (c.pc.Holding? ==> c.carry == None)
    && (if c.failed then c.wire <= EncAll(env, c.staged)
        else if c.pc.Shipping? then c.wire + Unsent(c.batches[c.pc.idx]) == EncAll(env, c.staged)
        else c.wire == EncAll(env, c.staged))
  }

  /** The slot still holds the data this response will be, or is being, sent from. */
  ghost predicate InPlace(data: seq<seq<byte>>, w: Work) {
    w.Response? ==> w.tag < |data| && w.data <= data[w.tag]
  }

  ghost predicate AllInPlace(data: seq<seq<byte>>, works: seq<Work>) {
    forall i :: 0 <= i < |works| ==> InPlace(data, works[i])
  }

  /** Items whose data sits in slots the batch has not released. */
  ghost predicate BatchInPlace(data: seq<seq<byte>>, b: Batch) {
    forall i :: 0 <= i < |b.items| && b.items[i].Response? && b.items[i].data != [] ==> InPlace(data, b.items[i])
  }

  ghost predicate BatchOk(env: Env, b: Batch) {
    && b.bytes == EncAll(env, b.items) && b.sent <= |b.bytes| && b.open <= b.handles
    && b.atNotif == TagsAt(b.items, true) && (b.atCqe == [] || b.atCqe == TagsAt(b.items, false))
  }

  ghost predicate InUse(c: Conn, i: nat) {
    i in c.inflight || (c.pc.Shipping? && c.pc.idx == i) || (c.pc.Draining? && i in c.pc.todo)
  }

  /** A batch in use is the one being shipped or waits for notifications; any other is empty. */
  ghost predicate BatchAt(env: Env, c: Conn, i: nat)
    requires |c.batches| == 2 && i < 2
  {
    && BatchOk(env, c.batches[i])
    && (!InUse(c, i) ==> c.batches[i] == Empty)
    && (!c.failed && c.pc != Shipping(i, true) && c.pc != Shipping(i, false) ==> c.batches[i].atCqe == [])
    && (c.pc.Shipping? && c.pc.idx == i ==> c.batches[i].atCqe == TagsAt(c.batches[i].items, false))
  }

  ghost predicate Batched(env: Env, c: Conn)
    requires Shape(c)
  {
    && BatchAt(env, c, 0) && BatchAt(env, c, 1)
    && Distinct(c.inflight)
    && (c.pc.Shipping? ==> c.pc.idx !in c.inflight)
    && (c.carry.Some? ==> c.pc.Shipping? || c.failed)
    && (c.failed ==> c.pc.Draining? || c.pc.Exited?)
    && (c.pc.Exited? || c.pc.Draining? ==> c.inflight == [])
  }

  ghost predicate Placed(c: Conn)
    requires Shape(c)
  {
    && AllInPlace(c.data, Hand(c)) && AllInPlace(c.data, c.queue)
    && BatchInPlace(c.data, c.batches[0]) && BatchInPlace(c.data, c.batches[1])
  }

  ghost predicate Inv(env: Env, c: Conn) {
    Shape(c) && Tagged(c) && Ordered(env, c) && Batched(env, c) && Placed(c)
  }

  ghost predicate Init(c: Conn) {
    && |c.batches| == 2 && c.batches[0] == Empty && c.batches[1] == Empty
    && c.slots.Sound() && |c.data| == |c.slots.state| && (forall t :: 0 <= t < |c.slots.state| ==> c.slots.state[t] == Free)
    && c.queue == [] && !c.closed && c.pc == Idle && c.carry == None && c.inflight == []
    && c.wire == [] && !c.failed && c.pushed == [] && c.staged == [] && c.releases == [] && c.lost == multiset{}
  }

  lemma InitKeeps(env: Env, c: Conn)
    requires Init(c)
    ensures Inv(env, c)
  {
    assert Held(c) == multiset{};
  }

  // ----- tags -----

  lemma {:induction false} RespTagsAppend(a: seq<Work>, b: seq<Work>)
    ensures RespTags(a + b) == RespTags(a) + RespTags(b)
  {
    if a == [] {
      assert a + b == b;
    } else {
      assert (a + b)[1..] == a[1..] + b;
      RespTagsAppend(a[1..], b);
    }
  }

  lemma RespTagsOne(w: Work)
    ensures RespTags([w]) == if w.Response? then multiset{w.tag} else multiset{}
  {
    assert [w][1..] == [];
  }

  /** A staged batch holds the tags of its items. */
  lemma {:induction false} RespTagsSplit(works: seq<Work>)
    ensures RespTags(works) == multiset(TagsAt(works, false)) + multiset(TagsAt(works, true))
  {
    if works != [] {
      RespTagsSplit(works[1..]);
    }
  }

  lemma {:induction false} RespTagsHas(works: seq<Work>, i: nat)
    requires i < |works| && works[i].Response?
    ensures works[i].tag in RespTags(works)
  {
    if i > 0 {
      RespTagsHas(works[1..], i - 1);
    }
  }

  lemma {:induction false} TagsAtHas(works: seq<Work>, i: nat)
    requires i < |works| && works[i].Response? && works[i].data != []
    ensures works[i].tag in TagsAt(works, true)
  {
    if i > 0 {
      TagsAtHas(works[1..], i - 1);
    }
  }

  /** Tags held once each by responding slots can be released, and the others stay held. */
  lemma {:induction false} ReleaseTags(slots: SlotsView, tags: seq<nat>, rest: multiset<nat>)
    requires slots.Sound() && Responds(slots, multiset(tags) + rest)
    ensures Releasable(slots, tags)
    ensures var r := ReleaseAll(slots, tags);
            && r.Sound() && Responds(r, rest) && |r.state| == |slots.state|
            && (forall t :: 0 <= t < |r.state| ==> r.state[t] == if t in tags then Free else slots.state[t])
    decreases |tags|
  {
    if tags == [] {
      assert multiset(tags) + rest == rest;
    } else {
      var t := tags[0];
      assert tags == [t] + tags[1..];
      assert (multiset(tags) + rest)[t] >= 1;
      LifeSound(slots, t);
      var r := slots.Release(t);
      forall u: nat ensures (multiset(tags[1..]) + rest)[u] == if r.Is(u, Responding) then 1 else 0 {
        assert (multiset(tags) + rest)[u] == (if u == t then 1 else 0) + (multiset(tags[1..]) + rest)[u];
      }
      ReleaseTags(r, tags[1..], rest);
    }
  }

  lemma SameResponding(c: Conn, slots: SlotsView)
    requires |c.batches| == 2 && Tagged(c) && slots.Sound()
    requires forall t: nat :: slots.Is(t, Responding) <==> c.slots.Is(t, Responding)
    ensures Tagged(c.(slots := slots))
  {
    assert Held(c.(slots := slots)) == Held(c);
  }

  /** The tags on their way out are the same. */
  lemma TaggedSame(c: Conn, z: Conn)
    requires |c.batches| == 2 && |z.batches| == 2 && Tagged(c) && Held(z) == Held(c)
    requires z.slots == c.slots && z.pushed == c.pushed && z.releases == c.releases && z.lost == c.lost && z.failed == c.failed
    ensures Tagged(z)
  {
  }

  /** One more response: its slot now responds and its tag is on its way out. */
  lemma BalanceMore(slots: SlotsView, slots': SlotsView, resp: multiset<nat>, released: multiset<nat>,
                    held: multiset<nat>, lost: multiset<nat>, w: Work)
    requires Balanced(slots, resp, released, held, lost) && slots'.Sound()
    requires w.Response? ==> !slots.Is(w.tag, Responding)
    requires forall t: nat :: slots'.Is(t, Responding) <==> slots.Is(t, Responding) || (w.Response? && t == w.tag)
    ensures Balanced(slots', resp + RespTags([w]), released, held + RespTags([w]), lost)
  {
    RespTagsOne(w);
    assert held + RespTags([w]) + lost == held + lost + RespTags([w]);
  }

  /** Releasing tags moves them from their way out to released; `dropped` ones are lost. */
  lemma BalanceRelease(slots: SlotsView, resp: multiset<nat>, released: multiset<nat>, tags: seq<nat>,
                       others: multiset<nat>, dropped: multiset<nat>, lost: multiset<nat>)
    requires Balanced(slots, resp, released, multiset(tags) + dropped + others, lost)
    ensures Releasable(slots, tags) && |ReleaseAll(slots, tags).state| == |slots.state|
    ensures Balanced(ReleaseAll(slots, tags), resp, released + multiset(tags), others, lost + dropped)
  {
    var rest := others + (lost + dropped);
    assert multiset(tags) + dropped + others + lost == multiset(tags) + rest;
    ReleaseTags(slots, tags, rest);
  }

  lemma PushHeld(c: Conn, slots: SlotsView, w: Work)
    requires |c.batches| == 2
    ensures Held(Push(c.(slots := slots), w)) == Held(c) + RespTags([w])
  {
    var z := Push(c.(slots := slots), w);
    RespTagsAppend(c.queue, [w]);
    assert Hand(z) == Hand(c);
    assert RespTags(z.queue) == RespTags(c.queue) + RespTags([w]);
  }

  /** A slot starts responding as its work is queued. */
  lemma PushResponds(c: Conn, slots: SlotsView, w: Work)
    requires |c.batches| == 2 && Tagged(c) && slots.Sound()
    requires w.Response? ==> !c.slots.Is(w.tag, Responding)
    requires forall t: nat :: slots.Is(t, Responding) <==> c.slots.Is(t, Responding) || (w.Response? && t == w.tag)
    ensures Tagged(Push(c.(slots := slots), w))
  {
    RespTagsAppend(c.pushed, [w]);
    PushHeld(c, slots, w);
    BalanceMore(c.slots, slots, RespTags(c.pushed), multiset(c.releases), Held(c), c.lost, w);
  }

  // ----- slot steps -----

  /** Only the slots and their buffers change: everything about batches and the wire stays. */
  lemma SlotFrame(env: Env, c: Conn, z: Conn)
    requires Shape(c) && Ordered(env, c) && Batched(env, c)
    requires z == c.(slots := z.slots, data := z.data, closed := z.closed) && |z.data| == |z.slots.state|
    ensures Shape(z) && Ordered(env, z) && Batched(env, z)
  {
    assert Hand(z) == Hand(c);
  }

  lemma PushFrame(env: Env, c: Conn, w: Work)
    requires Shape(c) && Ordered(env, c) && Batched(env, c)
    ensures var z := Push(c, w); Shape(z) && Ordered(env, z) && Batched(env, z)
  {
    var z := Push(c, w);
    assert Hand(z) == Hand(c);
    assert c.staged + Hand(c) + c.queue + [w] == c.staged + Hand(c) + (c.queue + [w]);
  }

  lemma PushPlaced(c: Conn, w: Work)
    requires Shape(c) && Placed(c) && InPlace(c.data, w)
    ensures Placed(Push(c, w))
  {
    var z := Push(c, w);
    assert Hand(z) == Hand(c);
  }

  /** A slot that is not responding is in no queue, hand or batch. */
  lemma NotHeld(env: Env, c: Conn, tag: nat)
    requires Inv(env, c) && !c.slots.Is(tag, Responding)
    ensures tag !in RespTags(Hand(c)) && tag !in RespTags(c.queue)
    ensures tag !in c.batches[0].atNotif && tag !in c.batches[1].atNotif
  {
    assert (Held(c) + c.lost)[tag] == 0;
    assert multiset(c.batches[0].atNotif)[tag] == 0 && multiset(c.batches[1].atNotif)[tag] == 0;
  }

  lemma OtherTags(data: seq<seq<byte>>, tag: nat, bytes: seq<byte>, works: seq<Work>)
    requires tag < |data| && AllInPlace(data, works) && tag !in RespTags(works)
    ensures AllInPlace(data[tag := bytes], works)
  {
    forall i | 0 <= i < |works| ensures InPlace(data[tag := bytes], works[i]) {
      assert InPlace(data, works[i]);
      if works[i].Response? {
        RespTagsHas(works, i);
      }
    }
  }

  lemma OtherBatchTags(env: Env, data: seq<seq<byte>>, tag: nat, bytes: seq<byte>, b: Batch)
    requires tag < |data| && BatchInPlace(data, b) && BatchOk(env, b) && tag !in b.atNotif
    ensures BatchInPlace(data[tag := bytes], b)
  {
    forall i | 0 <= i < |b.items| && b.items[i].Response? && b.items[i].data != []
      ensures InPlace(data[tag := bytes], b.items[i])
    {
      assert InPlace(data, b.items[i]);
      TagsAtHas(b.items, i);
    }
  }

  lemma FillKeeps(env: Env, c: Conn, tag: nat, bytes: seq<byte>)
    requires Inv(env, c) && Enabled(c, Fill(tag, bytes))
    ensures Inv(env, Apply(env, c, Fill(tag, bytes)))
  {
    var z := c.(data := c.data[tag := bytes]);
    NotHeld(env, c, tag);
    assert Hand(z) == Hand(c);
    OtherTags(c.data, tag, bytes, Hand(c));
    OtherTags(c.data, tag, bytes, c.queue);
    OtherBatchTags(env, c.data, tag, bytes, c.batches[0]);
    OtherBatchTags(env, c.data, tag, bytes, c.batches[1]);
    SlotFrame(env, c, z);
    SameResponding(c, c.slots);
  }

  lemma SlotStepKeeps(env: Env, c: Conn, slots: SlotsView)
    requires Inv(env, c) && slots.Sound() && |slots.state| == |c.slots.state|
    requires forall t: nat :: slots.Is(t, Responding) <==> c.slots.Is(t, Responding)
    ensures Inv(env, c.(slots := slots))
  {
    var z := c.(slots := slots);
    SlotFrame(env, c, z);
    SameResponding(c, slots);
    assert Hand(z) == Hand(c);
  }

  lemma PushKeeps(env: Env, c: Conn, slots: SlotsView, w: Work)
    requires Inv(env, c) && slots.Sound() && |slots.state| == |c.slots.state| && InPlace(c.data, w)
    requires w.Response? ==> !c.slots.Is(w.tag, Responding)
    requires forall t: nat :: slots.Is(t, Responding) <==> c.slots.Is(t, Responding) || (w.Response? && t == w.tag)
    ensures Inv(env, Push(c.(slots := slots), w))
  {
    var y := c.(slots := slots);
    SlotFrame(env, c, y);
    assert Hand(y) == Hand(c);
    PushFrame(env, y, w);
    PushPlaced(y, w);
    PushResponds(c, slots, w);
  }

  /** Steps of the receive path and the slot tasks that queue nothing. */
  lemma EngineKeeps(env: Env, c: Conn, s: Step)
    requires Inv(env, c) && Enabled(c, s) && (s.Claim? || s.SubmitCmd? || s.StartCmd? || s.CloseSend?)
    ensures Inv(env, Apply(env, c, s))
  {
    if s.Claim? {
      ClaimSound(c.slots);
      SlotStepKeeps(env, c, c.slots.Claim().0);
    } else if s.CloseSend? {
      var z := c.(closed := true);
      SlotFrame(env, c, z);
      assert Hand(z) == Hand(c) && Held(z) == Held(c);
    } else {
      LifeSound(c.slots, s.tag);
      SlotStepKeeps(env, c, if s.SubmitCmd? then c.slots.Submit(s.tag) else c.slots.Start(s.tag));
    }
  }

  /** Steps that queue work. */
  lemma QueueKeeps(env: Env, c: Conn, s: Step)
    requires Inv(env, c) && Enabled(c, s) && (s.Complete? || s.FailReceiving? || s.Solicit?)
    ensures Inv(env, Apply(env, c, s))
  {
    LifeSound(c.slots, s.tag);
    if s.Complete? {
      PushKeeps(env, c, c.slots.BeginRespond(s.tag), Response(s.tag, s.cqe, c.data[s.tag][..s.len]));
    } else if s.FailReceiving? {
      PushKeeps(env, c, c.slots.RespondReceiving(s.tag), Response(s.tag, s.cqe, []));
    } else {
      assert c.(slots := c.slots) == c;
      PushKeeps(env, c, c.slots, R2t(s.tag, s.cid, s.offset, s.length));
    }
  }

  // ----- taking work -----

  lemma TakeHeld(c: Conn)
    requires |c.batches| == 2 && c.pc == Idle && c.queue != [] && c.carry == None
    ensures Held(c.(pc := Holding(c.queue[0]), queue := c.queue[1..])) == Held(c)
  {
    var z := c.(pc := Holding(c.queue[0]), queue := c.queue[1..]);
    var w := c.queue[0];
    assert c.queue == [w] + c.queue[1..];
    RespTagsAppend([w], c.queue[1..]);
    assert Hand(c) == [] && Hand(z) == [w];
    assert RespTags(Hand(z)) + RespTags(z.queue) == RespTags(Hand(c)) + RespTags(c.queue);
  }

  lemma TakeRest(env: Env, c: Conn, z: Conn)
    requires Shape(c) && Ordered(env, c) && Batched(env, c) && Placed(c) && c.pc == Idle && c.queue != []
    requires z == c.(pc := Holding(c.queue[0]), queue := c.queue[1..])
    ensures Shape(z) && Ordered(env, z) && Batched(env, z) && Placed(z) && c.carry == None
  {
    assert BatchAt(env, c, 0) && BatchAt(env, c, 1);
    assert Hand(c) == [] && Hand(z) == [c.queue[0]];
    assert c.staged + [] + c.queue == c.staged + [c.queue[0]] + c.queue[1..];
  }

  lemma TakeKeeps(env: Env, c: Conn)
    requires Inv(env, c) && c.pc == Idle && c.queue != []
    ensures Inv(env, c.(pc := Holding(c.queue[0]), queue := c.queue[1..]))
  {
    var z := c.(pc := Holding(c.queue[0]), queue := c.queue[1..]);
    TakeRest(env, c, z);
    TakeHeld(c);
    TaggedSame(c, z);
  }

  /** Turning to the drain changes no batch, tag or byte. */
  lemma StartDrainTagged(c: Conn)
    requires |c.batches| == 2 && Tagged(c) && !c.pc.Holding?
    ensures Tagged(StartDrain(c)) && Hand(StartDrain(c)) == Hand(c)
  {
    var z := StartDrain(c);
    assert Hand(z) == Hand(c);
    assert Held(z) == Held(c);
    TaggedSame(c, z);
  }

  lemma StartDrainRest(env: Env, c: Conn)
    requires Shape(c) && Placed(c) && !c.pc.Holding? && BatchOk(env, c.batches[0]) && BatchOk(env, c.batches[1])
    requires !c.failed ==> c.batches[0].atCqe == [] && c.batches[1].atCqe == []
    ensures var z := StartDrain(c); Shape(z) && Placed(z) && BatchAt(env, z, 0) && BatchAt(env, z, 1)
  {
    var z := StartDrain(c);
    var todo := c.inflight + [0, 1];
    assert Hand(z) == Hand(c);
    assert todo[|c.inflight|] == 0 && todo[|c.inflight| + 1] == 1;
  }

  lemma FinishUpKeeps(env: Env, c: Conn)
    requires Inv(env, c) && c.pc == Idle
    ensures Inv(env, StartDrain(c))
  {
    assert BatchAt(env, c, 0) && BatchAt(env, c, 1);
    StartDrainTagged(c);
    StartDrainRest(env, c);
  }

  // ----- recycling -----

  ghost function OtherHeld(c: Conn, idx: nat): multiset<nat>
    requires |c.batches| == 2 && idx < 2
  {
    RespTags(Hand(c)) + RespTags(c.queue) + BatchTags(c.batches[1 - idx])
  }

  lemma HeldSplits(c: Conn, idx: nat)
    requires |c.batches| == 2 && idx < 2
    ensures Held(c) == multiset(c.batches[idx].atNotif) + multiset(c.batches[idx].atCqe) + OtherHeld(c, idx)
  {
    assert idx == 0 || idx == 1;
  }

  lemma OthersSame(c: Conn, z: Conn, idx: nat)
    requires |c.batches| == 2 && |z.batches| == 2 && idx < 2 && z.batches[1 - idx] == c.batches[1 - idx]
    requires Hand(z) == Hand(c) && z.queue == c.queue
    ensures OtherHeld(z, idx) == OtherHeld(c, idx)
  {
  }

  lemma EmptiedHeld(c: Conn, z: Conn, idx: nat)
    requires |c.batches| == 2 && |z.batches| == 2 && idx < 2 && z.batches == c.batches[idx := Empty]
    requires Hand(z) == Hand(c) && z.queue == c.queue
    ensures Held(z) == OtherHeld(c, idx)
  {
    HeldSplits(z, idx);
    OthersSame(c, z, idx);
  }

  /** Emptying a batch releases exactly the tags that waited in it. */
  lemma RecycleTagged(c: Conn, idx: nat)
    requires |c.batches| == 2 && idx < 2 && Tagged(c) && (!c.failed ==> c.batches[idx].atCqe == [])
    ensures Releasable(c.slots, c.batches[idx].atNotif)
    ensures Tagged(Recycle(c, idx)) && |Recycle(c, idx).slots.state| == |c.slots.state|
  {
    var b, z := c.batches[idx], Recycle(c, idx);
    HeldSplits(c, idx);
    BalanceRelease(c.slots, RespTags(c.pushed), multiset(c.releases), b.atNotif, OtherHeld(c, idx),
                   multiset(b.atCqe), c.lost);
    assert Hand(z) == Hand(c);
    EmptiedHeld(c, z, idx);
    assert multiset(z.releases) == multiset(c.releases) + multiset(b.atNotif);
  }

  /** A recycled batch is in order wherever the sender goes next. */
  lemma RecycleBatches(env: Env, c: Conn, z: Conn, idx: nat)
    requires Shape(c) && idx < 2 && Batched(env, c) && Placed(c)
    requires |z.batches| == 2 && z.batches == c.batches[idx := Empty] && z.failed == c.failed
    requires !c.pc.Shipping? && !z.pc.Shipping?
    requires InUse(c, 1 - idx) ==> InUse(z, 1 - idx)
    ensures BatchAt(env, z, 0) && BatchAt(env, z, 1)
    ensures BatchInPlace(c.data, z.batches[0]) && BatchInPlace(c.data, z.batches[1])
  {
    assert idx == 0 || idx == 1;
    assert EncAll(env, []) == [];
  }

  /** Nothing about tags changed. */
  lemma TaggedFrame(c: Conn, z: Conn)
    requires |c.batches| == 2 && |z.batches| == 2 && Tagged(c)
    requires z.slots == c.slots && z.pushed == c.pushed && z.releases == c.releases && z.lost == c.lost && z.failed == c.failed
    requires Hand(z) == Hand(c) && z.queue == c.queue
    requires BatchTags(z.batches[0]) == BatchTags(c.batches[0]) && BatchTags(z.batches[1]) == BatchTags(c.batches[1])
    ensures Tagged(z)
  {
    assert Held(z) == Held(c);
  }

  /** Outside shipping, only what is staged and sent matters to the wire. */
  lemma OrderedFrame(env: Env, c: Conn, z: Conn)
    requires Shape(c) && Shape(z) && Ordered(env, c) && !c.pc.Shipping? && !z.pc.Shipping?
    requires z.pushed == c.pushed && z.staged == c.staged && Hand(z) == Hand(c) && z.queue == c.queue
    requires z.failed == c.failed && z.wire == c.wire && (z.pc.Holding? ==> z.carry == None)
    ensures Ordered(env, z)
  {
  }

  /** Recycling a batch that is not being shipped keeps the rest, wherever the sender goes next. */
  lemma RecycleRest(env: Env, c: Conn, z: Conn, idx: nat)
    requires Shape(c) && Ordered(env, c) && Batched(env, c) && Placed(c) && idx < 2
    requires z == Recycle(c, idx).(inflight := z.inflight, pc := z.pc) && |z.slots.state| == |c.slots.state|
    requires !c.pc.Shipping? && !z.pc.Shipping? && Hand(z) == Hand(c) && (InUse(c, 1 - idx) ==> InUse(z, 1 - idx))
    requires z.pc.Holding? == c.pc.Holding? && (c.pc.Draining? <==> z.pc.Draining? || z.pc.Exited?) && !c.pc.Exited?
    requires forall k :: 0 <= k < |z.inflight| ==> z.inflight[k] < 2
    requires z.pc.Draining? ==> forall k :: 0 <= k < |z.pc.todo| ==> z.pc.todo[k] < 2
    requires Distinct(z.inflight) && (z.pc.Exited? || z.pc.Draining? ==> z.inflight == [])
    ensures Shape(z) && Ordered(env, z) && Batched(env, z) && Placed(z)
  {
    RecycleBatches(env, c, z, idx);
    OrderedFrame(env, c, z);
  }

  lemma RecycleTaggedTo(c: Conn, z: Conn, idx: nat)
    requires |c.batches| == 2 && idx < 2 && Tagged(c) && (!c.failed ==> c.batches[idx].atCqe == [])
    requires z == Recycle(c, idx).(inflight := z.inflight, pc := z.pc, carry := z.carry) && Hand(z) == Hand(c)
    ensures Tagged(z) && |z.slots.state| == |c.slots.state|
  {
    var y := Recycle(c, idx);
    assert Hand(y) == Hand(c);
    RecycleTagged(c, idx);
    TaggedFrame(y, z);
  }

  lemma ReapRest(env: Env, c: Conn, z: Conn)
    requires Shape(c) && Ordered(env, c) && Batched(env, c) && Placed(c) && (c.pc == Idle || c.pc.Holding?) && c.inflight != []
    requires z == Recycle(c, c.inflight[0]).(inflight := c.inflight[1..]) && |z.slots.state| == |c.slots.state|
    ensures Shape(z) && Ordered(env, z) && Batched(env, z) && Placed(z)
  {
    var idx := c.inflight[0];
    assert (1 - idx) in c.inflight ==> (1 - idx) in c.inflight[1..];
    RecycleRest(env, c, z, idx);
  }

  lemma NoDroppedTags(env: Env, c: Conn, i: nat)
    requires Shape(c) && Batched(env, c) && !c.pc.Shipping? && i < 2
    ensures !c.failed ==> c.batches[i].atCqe == []
  {
    assert BatchAt(env, c, 0) && BatchAt(env, c, 1);
  }

  lemma ReapKeeps(env: Env, c: Conn)
    requires Inv(env, c) && (c.pc == Idle || c.pc.Holding?) && c.inflight != []
    ensures Inv(env, Recycle(c, c.inflight[0]).(inflight := c.inflight[1..]))
  {
    var z := Recycle(c, c.inflight[0]).(inflight := c.inflight[1..]);
    NoDroppedTags(env, c, c.inflight[0]);
    RecycleTaggedTo(c, z, c.inflight[0]);
    ReapRest(env, c, z);
  }

  lemma DrainRest(env: Env, c: Conn, z: Conn)
    requires Shape(c) && Ordered(env, c) && Batched(env, c) && Placed(c) && c.pc.Draining? && c.pc.todo != []
    requires z == Recycle(c, c.pc.todo[0]).(pc := AfterDrain(c.pc.todo)) && |z.slots.state| == |c.slots.state|
    ensures Shape(z) && Ordered(env, z) && Batched(env, z) && Placed(z)
  {
    var idx := c.pc.todo[0];
    assert (1 - idx) in c.pc.todo ==> (1 - idx) in c.pc.todo[1..];
    RecycleRest(env, c, z, idx);
  }

  lemma DrainKeeps(env: Env, c: Conn)
    requires Inv(env, c) && c.pc.Draining? && c.pc.todo != []
    ensures Inv(env, Recycle(c, c.pc.todo[0]).(pc := AfterDrain(c.pc.todo)))
  {
    var z := Recycle(c, c.pc.todo[0]).(pc := AfterDrain(c.pc.todo));
    NoDroppedTags(env, c, c.pc.todo[0]);
    RecycleTaggedTo(c, z, c.pc.todo[0]);
    DrainRest(env, c, z);
  }

  lemma NotifiedRest(env: Env, c: Conn, idx: nat)
    requires Shape(c) && Ordered(env, c) && Batched(env, c) && Placed(c) && idx < 2 && c.batches[idx].open > 0
    ensures var z := OneNotified(c, idx); Shape(z) && Ordered(env, z) && Batched(env, z) && Placed(z)
  {
    var z := OneNotified(c, idx);
    assert BatchAt(env, c, 0) && BatchAt(env, c, 1);
    assert Hand(z) == Hand(c);
    assert InUse(z, 0) == InUse(c, 0) && InUse(z, 1) == InUse(c, 1);
    assert idx == 0 || idx == 1;
  }

  lemma NotifiedKeeps(env: Env, c: Conn, idx: nat)
    requires Inv(env, c) && idx < 2 && c.batches[idx].open > 0
    ensures Inv(env, OneNotified(c, idx))
  {
    var z := OneNotified(c, idx);
    assert Hand(z) == Hand(c);
    assert idx == 0 || idx == 1;
    NotifiedRest(env, c, idx);
    TaggedFrame(c, z);
  }

  // ----- staging -----

  /** Staging moves tags from the hand and the queue into the batch. */
  lemma StagedTags(env: Env, first: Work, queue: seq<Work>, s: Staging)
    requires s == StageAll(env, Empty, first, queue)
    ensures RespTags([first]) + RespTags(queue) ==
            BatchTags(s.batch) + RespTags(OptSeq(s.carry)) + RespTags(s.queue)
  {
    StagingKeepsOrder(env, Empty, first, queue);
    var works := s.batch.items + OptSeq(s.carry) + s.queue;
    assert works == [first] + queue by {
      assert [] + [first] + queue == [first] + queue;
    }
    RespTagsAppend([first], queue);
    RespTagsAppend(s.batch.items + OptSeq(s.carry), s.queue);
    RespTagsAppend(s.batch.items, OptSeq(s.carry));
    RespTagsSplit(s.batch.items);
  }

  lemma RegroupTags(a: multiset<nat>, b: multiset<nat>, q: multiset<nat>, n: multiset<nat>, y: multiset<nat>,
                    z: multiset<nat>, o: multiset<nat>)
    requires a + b == q + n + y + z
    ensures n + q + (y + z + o) == multiset{} + multiset{} + (a + b + o)
  {
    assert n + q + (y + z + o) == (q + n + y + z) + o;
  }

  lemma StageHeld(env: Env, c: Conn, z: Conn, idx: nat, s: Staging)
    requires |c.batches| == 2 && idx < 2 && c.batches[idx] == Empty && c.pc.Holding? && c.carry == None
    requires s == StageAll(env, Empty, c.pc.first, c.queue)
    requires z == c.(batches := c.batches[idx := s.batch], carry := s.carry, queue := s.queue, staged := z.staged, pc := z.pc)
    requires z.pc.Shipping?
    ensures Held(z) == Held(c)
  {
    StagedTags(env, c.pc.first, c.queue, s);
    HeldSplits(c, idx);
    HeldSplits(z, idx);
    assert Hand(c) == [c.pc.first] && Hand(z) == OptSeq(s.carry);
    RegroupTags(RespTags([c.pc.first]), RespTags(c.queue), multiset(s.batch.atCqe), multiset(s.batch.atNotif),
                RespTags(OptSeq(s.carry)), RespTags(s.queue), BatchTags(c.batches[1 - idx]));
  }

  lemma StageOrdered(env: Env, c: Conn, z: Conn, idx: nat, s: Staging)
    requires Shape(c) && idx < 2 && Ordered(env, c) && c.pc.Holding? && !c.failed
    requires s == StageAll(env, Empty, c.pc.first, c.queue)
    requires z == c.(batches := c.batches[idx := s.batch], carry := s.carry, queue := s.queue,
                     staged := c.staged + s.batch.items, pc := z.pc)
    requires z.pc.Shipping? && z.pc.idx == idx && Shape(z)
    ensures Ordered(env, z)
  {
    StagingKeepsOrder(env, Empty, c.pc.first, c.queue);
    assert Hand(c) == [c.pc.first] && Hand(z) == OptSeq(s.carry);
    var rest := OptSeq(s.carry) + s.queue;
    assert s.batch.items + OptSeq(s.carry) + s.queue == [c.pc.first] + c.queue by {
      assert [] + [c.pc.first] + c.queue == [c.pc.first] + c.queue;
    }
    assert c.staged + [c.pc.first] + c.queue == c.staged + ([c.pc.first] + c.queue);
    assert c.staged + (s.batch.items + OptSeq(s.carry) + s.queue) == c.staged + s.batch.items + OptSeq(s.carry) + s.queue;
    EncAllAppend(env, c.staged, s.batch.items);
    assert Unsent(s.batch) == s.batch.bytes;
  }

  lemma StagePlaced(env: Env, data: seq<seq<byte>>, first: Work, queue: seq<Work>, s: Staging)
    requires s == StageAll(env, Empty, first, queue) && InPlace(data, first) && AllInPlace(data, queue)
    ensures BatchInPlace(data, s.batch) && AllInPlace(data, OptSeq(s.carry)) && AllInPlace(data, s.queue)
  {
    StagingKeepsOrder(env, Empty, first, queue);
    var works := s.batch.items + OptSeq(s.carry) + s.queue;
    assert works == [] + [first] + queue;
    assert AllInPlace(data, works);
    forall i | 0 <= i < |s.batch.items| ensures InPlace(data, s.batch.items[i]) {
      assert works[i] == s.batch.items[i];
    }
    forall i | 0 <= i < |OptSeq(s.carry)| ensures InPlace(data, OptSeq(s.carry)[i]) {
      assert works[|s.batch.items| + i] == OptSeq(s.carry)[i];
    }
    forall i | 0 <= i < |s.queue| ensures InPlace(data, s.queue[i]) {
      assert works[|s.batch.items + OptSeq(s.carry)| + i] == s.queue[i];
    }
  }

  lemma StageBatched(env: Env, c: Conn, z: Conn, idx: nat, s: Staging)
    requires Shape(c) && Batched(env, c) && c.pc.Holding? && idx < 2 && idx !in c.inflight
    requires s == StageAll(env, Empty, c.pc.first, c.queue)
    requires z == c.(batches := c.batches[idx := s.batch], carry := s.carry, queue := s.queue, staged := z.staged, pc := z.pc)
    requires z.pc.Shipping? && z.pc.idx == idx
    ensures Shape(z) && Batched(env, z)
  {
    StagingKeepsOrder(env, Empty, c.pc.first, c.queue);
    assert BatchAt(env, c, 0) && BatchAt(env, c, 1);
    assert InUse(c, 1 - idx) <==> InUse(z, 1 - idx);
    assert idx == 0 || idx == 1;
  }

  lemma StageKeeps(env: Env, c: Conn, zc: bool)
    requires Inv(env, c) && c.pc.Holding? && |c.inflight| < 2
    ensures Inv(env, DoStage(env, c, zc))
  {
    var idx := FreeBatch(c.inflight);
    assert idx !in c.inflight;
    assert c.batches[idx] == Empty by {
      assert BatchAt(env, c, idx) && !InUse(c, idx);
    }
    var s := StageAll(env, Empty, c.pc.first, c.queue);
    var z := DoStage(env, c, zc);
    assert Hand(c) == [c.pc.first] && Hand(z) == OptSeq(s.carry);
    StageBatched(env, c, z, idx, s);
    StageOrdered(env, c, z, idx, s);
    StageHeld(env, c, z, idx, s);
    TaggedSame(c, z);
    assert InPlace(c.data, Hand(c)[0]);
    StagePlaced(env, c.data, c.pc.first, c.queue, s);
  }

  // ----- shipping -----

  /** One send leaves a suffix of the batch and the matching notifications. */
  ghost predicate OneSend(b: Batch, s: Ship, t: Ship) {
    && b.sent <= |b.bytes| && |t.left| <= |b.bytes| && t.left == b.bytes[|b.bytes| - |t.left|..]
    && t.wire + t.left == s.wire + b.bytes[b.sent..] && s.wire <= t.wire
    && (b.open <= b.handles ==> t.open <= t.handles)
  }

  lemma ShipOneSends(indexed: bool, b: Batch, s: Ship, r: KernelResult)
    requires b.sent <= |b.bytes| && s.left == b.bytes[b.sent..] && s.handles == b.handles && s.open == b.open
    requires r.Sent? ==> r.n <= |s.left|
    ensures OneSend(b, s, ShipOne(indexed, s, r).s)
  {
    ShipOneKeeps(indexed, s, r);
    if r.Sent? {
      assert b.bytes[b.sent..][r.n..] == b.bytes[b.sent + r.n..];
    }
  }

  lemma ShippedTagged(c: Conn, t: Ship)
    requires Shape(c) && Tagged(c) && c.pc.Shipping? && |t.left| <= |c.batches[c.pc.idx].bytes|
    ensures Tagged(Shipped(c, t)) && Hand(Shipped(c, t)) == Hand(c)
  {
    var z := Shipped(c, t);
    assert Hand(z) == Hand(c);
    assert c.pc.idx == 0 || c.pc.idx == 1;
    TaggedFrame(c, z);
  }

  lemma ShippedRest(env: Env, c: Conn, t: Ship)
    requires Shape(c) && Ordered(env, c) && Batched(env, c) && Placed(c) && c.pc.Shipping?
    requires OneSend(c.batches[c.pc.idx], ShipOf(c), t)
    ensures var z := Shipped(c, t);
            && Shape(z) && Ordered(env, z) && Batched(env, z) && Placed(z) && !z.failed
            && Unsent(z.batches[c.pc.idx]) == t.left
  {
    var z := Shipped(c, t);
    var idx := c.pc.idx;
    assert Hand(z) == Hand(c);
    assert BatchAt(env, c, 0) && BatchAt(env, c, 1);
    assert InUse(c, 1 - idx) <==> InUse(z, 1 - idx);
    assert idx == 0 || idx == 1;
    assert BatchAt(env, z, idx) && BatchAt(env, z, 1 - idx);
  }

  /** The shipped batch with the tags its completion released taken off. */
  ghost function Unloaded(c: Conn, idx: nat): Conn
    requires idx < |c.batches|
  {
    var b := c.batches[idx];
    c.(slots := ReleaseAll(c.slots, b.atCqe), releases := c.releases + b.atCqe, batches := c.batches[idx := b.(atCqe := [])])
  }

  lemma CqeFirst(n: multiset<nat>, q: multiset<nat>, o: multiset<nat>)
    ensures n + q + o == q + multiset{} + (n + o)
    ensures n + multiset{} + o == n + o
  {
  }

  lemma UnloadTagged(c: Conn, idx: nat)
    requires |c.batches| == 2 && idx < 2 && Tagged(c)
    ensures Releasable(c.slots, c.batches[idx].atCqe)
    ensures Tagged(Unloaded(c, idx)) && |Unloaded(c, idx).slots.state| == |c.slots.state|
  {
    var b, z := c.batches[idx], Unloaded(c, idx);
    HeldSplits(c, idx);
    HeldSplits(z, idx);
    assert Hand(z) == Hand(c);
    OthersSame(c, z, idx);
    CqeFirst(multiset(b.atNotif), multiset(b.atCqe), OtherHeld(c, idx));
    BalanceRelease(c.slots, RespTags(c.pushed), multiset(c.releases), b.atCqe,
                   multiset(b.atNotif) + OtherHeld(c, idx), multiset{}, c.lost);
    assert c.lost + multiset{} == c.lost;
    assert multiset(z.releases) == multiset(c.releases) + multiset(b.atCqe);
  }

  /** What `Retire` and the next turn come to, with and without notifications outstanding. */
  lemma RetireIs(c: Conn, idx: nat)
    requires idx < |c.batches|
    ensures var y := Unloaded(c, idx);
            Next(Retire(c, idx)) ==
              Next(if c.batches[idx].handles == 0 then Recycle(y, idx) else y.(inflight := c.inflight + [idx]))
  {
  }

  lemma NextTagged(c: Conn, z: Conn)
    requires |c.batches| == 2 && Tagged(c) && c.pc.Shipping? && z == Next(c).(inflight := z.inflight)
    ensures Tagged(z)
  {
    assert Hand(z) == OptSeq(c.carry) && Hand(c) == OptSeq(c.carry);
    TaggedFrame(c, z);
  }

  lemma QuietTagged(c: Conn, idx: nat, z: Conn)
    requires |c.batches| == 2 && idx < 2 && Tagged(c) && c.pc.Shipping? && c.batches[idx].atCqe == []
    requires z == Next(Recycle(c, idx))
    ensures Tagged(z) && |z.slots.state| == |c.slots.state|
  {
    RecycleTagged(c, idx);
    NextTagged(Recycle(c, idx), z);
  }

  lemma WaitingTagged(c: Conn, idx: nat, z: Conn)
    requires |c.batches| == 2 && idx < 2 && Tagged(c) && c.pc.Shipping?
    requires z == Next(c.(inflight := c.inflight + [idx]))
    ensures Tagged(z) && |z.slots.state| == |c.slots.state|
  {
    NextTagged(c, z);
  }

  lemma RetiredTagged(c: Conn, idx: nat, z: Conn)
    requires |c.batches| == 2 && idx < 2 && c.pc.Shipping? && z == Next(Retire(c, idx)) && Tagged(c)
    ensures Tagged(z) && |z.slots.state| == |c.slots.state|
  {
    var y := Unloaded(c, idx);
    RetireIs(c, idx);
    UnloadTagged(c, idx);
    if c.batches[idx].handles == 0 {
      QuietTagged(y, idx, z);
    } else {
      WaitingTagged(y, idx, z);
    }
  }

  /** `z` follows the shipped batch of `c`, which was emptied or waits for its notifications. */
  ghost predicate Onward(c: Conn, z: Conn)
    requires Shape(c) && c.pc.Shipping?
  {
    && z == Next(c).(inflight := z.inflight, batches := z.batches, slots := z.slots, releases := z.releases, lost := z.lost)
    && |z.batches| == 2 && z.batches[1 - c.pc.idx] == c.batches[1 - c.pc.idx] && |z.slots.state| == |c.slots.state|
    && var b := z.batches[c.pc.idx];
       if z.inflight == c.inflight then b == Empty
       else z.inflight == c.inflight + [c.pc.idx] && b == c.batches[c.pc.idx].(atCqe := [])
  }

  lemma OnwardBatches(env: Env, c: Conn, z: Conn)
    requires Shape(c) && Batched(env, c) && c.pc.Shipping? && !c.failed && Onward(c, z)
    ensures BatchAt(env, z, 0) && BatchAt(env, z, 1)
  {
    var idx := c.pc.idx;
    assert BatchAt(env, c, 0) && BatchAt(env, c, 1);
    assert idx == 0 || idx == 1;
    assert EncAll(env, []) == [];
    assert InUse(c, 1 - idx) ==> InUse(z, 1 - idx);
    assert z.inflight != c.inflight ==> idx in z.inflight by {
      assert (c.inflight + [idx])[|c.inflight|] == idx;
    }
    assert BatchAt(env, z, idx);
    assert BatchAt(env, z, 1 - idx);
  }

  lemma OnwardPlaced(c: Conn, z: Conn)
    requires Shape(c) && Placed(c) && c.pc.Shipping? && Onward(c, z)
    ensures Shape(z) && Placed(z) && Hand(z) == Hand(c) && Hand(c) == OptSeq(c.carry)
  {
    assert Hand(z) == OptSeq(c.carry) && Hand(c) == OptSeq(c.carry);
    assert c.pc.idx == 0 || c.pc.idx == 1;
  }

  /** The whole batch is out: the wire holds everything staged. */
  lemma OnwardRest(env: Env, c: Conn, z: Conn)
    requires Shape(c) && Ordered(env, c) && Batched(env, c) && Placed(c) && c.pc.Shipping? && !c.failed
    requires Unsent(c.batches[c.pc.idx]) == [] && Onward(c, z)
    ensures Shape(z) && Ordered(env, z) && Batched(env, z) && Placed(z)
  {
    OnwardBatches(env, c, z);
    OnwardPlaced(c, z);
    assert c.wire + [] == c.wire;
  }

  lemma RetiredRest(env: Env, c: Conn, z: Conn)
    requires Shape(c) && Ordered(env, c) && Batched(env, c) && Placed(c) && c.pc.Shipping? && !c.failed
    requires Unsent(c.batches[c.pc.idx]) == [] && z == Next(Retire(c, c.pc.idx)) && |z.slots.state| == |c.slots.state|
    ensures Shape(z) && Ordered(env, z) && Batched(env, z) && Placed(z)
  {
    RetiresOnward(c, z);
    OnwardRest(env, c, z);
  }

  lemma RetiresOnward(c: Conn, z: Conn)
    requires Shape(c) && c.pc.Shipping? && z == Next(Retire(c, c.pc.idx)) && |z.slots.state| == |c.slots.state|
    ensures Onward(c, z)
  {
    RetireIs(c, c.pc.idx);
    assert |c.inflight + [c.pc.idx]| > |c.inflight|;
  }

  lemma FailedRest(env: Env, c: Conn)
    requires Shape(c) && Ordered(env, c) && Batched(env, c) && Placed(c) && c.pc.Shipping? && !c.failed
    ensures var z := StartDrain(c.(failed := true)); Shape(z) && Ordered(env, z) && Batched(env, z) && Placed(z)
  {
    var y := c.(failed := true);
    assert BatchAt(env, c, 0) && BatchAt(env, c, 1);
    assert Hand(y) == Hand(c) && Hand(StartDrain(y)) == Hand(c);
    StartDrainRest(env, y);
    assert c.wire <= EncAll(env, c.staged);
  }

  lemma FailedTagged(c: Conn)
    requires |c.batches| == 2 && Tagged(c) && c.pc.Shipping? && !c.failed
    ensures Tagged(StartDrain(c.(failed := true)))
  {
    var y := c.(failed := true);
    assert Hand(y) == Hand(c);
    assert Held(y) == Held(c);
    StartDrainTagged(y);
  }

  lemma SendKeeps(env: Env, c: Conn, r: KernelResult)
    requires Inv(env, c) && Enabled(c, SendOp(r))
    ensures Inv(env, DoSend(env, c, r))
  {
    var b := c.batches[c.pc.idx];
    var one := ShipOne(env.indexed, ShipOf(c), r);
    ShipOneSends(env.indexed, b, ShipOf(c), r);
    assert BatchAt(env, c, 0) && BatchAt(env, c, 1);
    var y := Shipped(c, one.s);
    ShippedTagged(c, one.s);
    ShippedRest(env, c, one.s);
    if one.Done? {
      ShipOneKeeps(env.indexed, ShipOf(c), r);
      var z := Next(Retire(y, c.pc.idx));
      RetiredTagged(y, c.pc.idx, z);
      RetiredRest(env, y, z);
    } else if one.Failed? {
      FailedTagged(y);
      FailedRest(env, y);
    }
  }

  // ----- every step, every run -----

  lemma StepKeeps(env: Env, c: Conn, s: Step)
    requires Inv(env, c) && Enabled(c, s)
    ensures Inv(env, Apply(env, c, s))
  {
    match s
    case Claim => EngineKeeps(env, c, s);
    case SubmitCmd(_) => EngineKeeps(env, c, s);
    case StartCmd(_) => EngineKeeps(env, c, s);
    case CloseSend => EngineKeeps(env, c, s);
    case Fill(tag, bytes) => FillKeeps(env, c, tag, bytes);
    case Complete(_, _, _) => QueueKeeps(env, c, s);
    case FailReceiving(_, _) => QueueKeeps(env, c, s);
    case Solicit(_, _, _, _) => QueueKeeps(env, c, s);
    case Take => TakeKeeps(env, c);
    case FinishUp => FinishUpKeeps(env, c);
    case ReapFront => ReapKeeps(env, c);
    case AwaitOldest => ReapKeeps(env, c);
    case StageBatch(zc) => StageKeeps(env, c, zc);
    case SendOp(r) => SendKeeps(env, c, r);
    case Notified(idx) => NotifiedKeeps(env, c, idx);
    case DrainNext => DrainKeeps(env, c);
  }

  ghost predicate Run(env: Env, c: Conn, steps: seq<Step>, z: Conn)
    decreases steps
  {
    if steps == [] then c == z
    else Shape(c) && Enabled(c, steps[0]) && Run(env, Apply(env, c, steps[0]), steps[1..], z)
  }

  lemma {:induction false} RunKeeps(env: Env, c: Conn, steps: seq<Step>, z: Conn)
    requires Inv(env, c) && Run(env, c, steps, z)
    ensures Inv(env, z)
    decreases steps
  {
    if steps != [] {
      StepKeeps(env, c, steps[0]);
      RunKeeps(env, Apply(env, c, steps[0]), steps[1..], z);
    }
  }

  lemma Reached(env: Env, c: Conn, steps: seq<Step>, z: Conn)
    requires Init(c) && Run(env, c, steps, z)
    ensures Inv(env, z)
  {
    InitKeeps(env, c);
    RunKeeps(env, c, steps, z);
  }

  // ----- what the send path promises -----

  lemma HandEmpty(env: Env, z: Conn)
    requires Shape(z) && Batched(env, z) && !z.failed && (z.pc == Idle || z.pc == Exited)
    ensures Hand(z) == []
  {
  }

  lemma WireOf(env: Env, z: Conn)
    requires Shape(z) && Ordered(env, z)
    ensures z.wire <= EncAll(env, z.pushed)
    ensures !z.failed && Hand(z) == [] && !z.pc.Shipping? ==>
      z.pushed == z.staged + z.queue && z.wire == EncAll(env, z.staged)
  {
    assert z.staged + Hand(z) + z.queue == z.staged + (Hand(z) + z.queue);
    EncAllAppend(env, z.staged, Hand(z) + z.queue);
    if Hand(z) == [] {
      assert z.staged + [] + z.queue == z.staged + z.queue;
    }
  }

  /**
    Send refinement: the wire is the pushed work in push order, each byte at
    most once and none skipped; it is all of it whenever the sender has nothing
    left, and an orderly exit leaves nothing behind that was queued before it.
   */
  lemma WireIsPushedWork(env: Env, c: Conn, steps: seq<Step>, z: Conn)
    requires Init(c) && Run(env, c, steps, z)
    ensures z.wire <= EncAll(env, z.pushed)
    ensures !z.failed && z.pc == Idle && z.queue == [] ==> z.wire == EncAll(env, z.pushed)
    ensures !z.failed && z.pc == Exited ==> z.pushed == z.staged + z.queue && z.wire == EncAll(env, z.staged)
  {
    Reached(env, c, steps, z);
    WireOf(env, z);
    if !z.failed && (z.pc == Idle || z.pc == Exited) {
      HandEmpty(env, z);
      if z.queue == [] {
        assert z.staged + [] == z.staged;
      }
    }
  }

  /**
    Tag conservation: in every reachable state a tag is free exactly when it is
    on the freelist, once; it is on its way out exactly when its slot responds,
    and then in one place; the gate counts the executing slots; and every
    response ever pushed is released, on its way out or lost, where only a
    failed connection loses any.
   */
  lemma TagsAreConserved(env: Env, c: Conn, steps: seq<Step>, z: Conn)
    requires Init(c) && Run(env, c, steps, z)
    ensures |z.batches| == 2 && Distinct(z.slots.free)
    ensures forall t: nat :: t in z.slots.free <==> z.slots.Is(t, Free)
    ensures forall t: nat :: (Held(z) + z.lost)[t] == if z.slots.Is(t, Responding) then 1 else 0
    ensures !z.failed ==> z.lost == multiset{}
    ensures !z.failed ==> forall t: nat :: Held(z)[t] == if z.slots.Is(t, Responding) then 1 else 0
    ensures RespTags(z.pushed) == multiset(z.releases) + Held(z) + z.lost
    ensures z.slots.executing == CountOf(z.slots.state, Executing)
  {
    Reached(env, c, steps, z);
    if !z.failed {
      assert Held(z) + z.lost == Held(z);
    }
  }

  // ----- what a failed connection loses -----

  /** The tags that were to be released when their send completed, gone or about to go. */
  ghost function Abandoned(c: Conn): multiset<nat>
    requires |c.batches| == 2
  {
    c.lost + multiset(c.batches[0].atCqe) + multiset(c.batches[1].atCqe)
  }

  lemma RecycleAbandons(c: Conn, idx: nat)
    requires |c.batches| == 2 && idx < 2
    ensures Abandoned(Recycle(c, idx)) == Abandoned(c)
  {
    assert idx == 0 || idx == 1;
    assert multiset(Empty.atCqe) == multiset{};
  }

  /** After a failure no step adds to them or takes any away. */
  lemma StepAbandons(env: Env, c: Conn, s: Step)
    requires Shape(c) && Enabled(c, s) && c.failed && (c.pc.Draining? || c.pc.Exited?)
    ensures var z := Apply(env, c, s);
            |z.batches| == 2 && z.failed && (z.pc.Draining? || z.pc.Exited?) && Abandoned(z) == Abandoned(c)
  {
    if s.DrainNext? {
      RecycleAbandons(c, c.pc.todo[0]);
    }
  }

  lemma {:induction false} RunAbandons(env: Env, c: Conn, steps: seq<Step>, z: Conn)
    requires Inv(env, c) && Run(env, c, steps, z) && c.failed
    ensures |z.batches| == 2 && z.failed && Abandoned(z) == Abandoned(c)
    decreases steps
  {
    if steps != [] {
      StepAbandons(env, c, steps[0]);
      StepKeeps(env, c, steps[0]);
      RunAbandons(env, Apply(env, c, steps[0]), steps[1..], z);
    }
  }

  /** At the failing send they are the completion-time tags of the batch being sent. */
  lemma FailureAbandons(env: Env, c: Conn, r: KernelResult, z: Conn)
    requires Shape(c) && c.pc.Shipping? && Enabled(c, SendOp(r)) && z == DoSend(env, c, r) && !c.failed && z.failed
    requires BatchAt(env, c, 0) && BatchAt(env, c, 1) && c.lost == multiset{}
    ensures |z.batches| == 2 && Abandoned(z) == multiset(TagsAt(c.batches[c.pc.idx].items, false))
  {
    var one := ShipOne(env.indexed, ShipOf(c), r);
    ShipOneKeeps(env.indexed, ShipOf(c), r);
    var y := Shipped(c, one.s);
    FailedSend(env, c, r, z, y);
    assert c.pc.idx == 0 || c.pc.idx == 1;
    assert y.batches[c.pc.idx].atCqe == c.batches[c.pc.idx].atCqe && y.batches[1 - c.pc.idx] == c.batches[1 - c.pc.idx];
  }

  lemma FailedSend(env: Env, c: Conn, r: KernelResult, z: Conn, y: Conn)
    requires Shape(c) && c.pc.Shipping? && Enabled(c, SendOp(r)) && z == DoSend(env, c, r) && !c.failed && z.failed
    requires |ShipOne(env.indexed, ShipOf(c), r).s.left| <= |c.batches[c.pc.idx].bytes|
    requires y == Shipped(c, ShipOne(env.indexed, ShipOf(c), r).s)
    ensures z.batches == y.batches && z.lost == c.lost
  {
    if ShipOne(env.indexed, ShipOf(c), r).Done? {
      RetireIs(y, c.pc.idx);
    }
  }

  /**
    A connection that fails in the middle of a batch loses exactly the tags of
    that batch that its completion would have released, and loses them by the
    time it exits.
   */
  lemma FailureLosesOneBatch(env: Env, c: Conn, before: seq<Step>, m: Conn, r: KernelResult, after: seq<Step>, z: Conn)
    requires Shape(m) && m.pc.Shipping? && !m.failed && Enabled(m, SendOp(r)) && DoSend(env, m, r).failed
    requires Init(c) && Run(env, c, before, m) && Run(env, DoSend(env, m, r), after, z)
    ensures |z.batches| == 2 && z.lost <= multiset(TagsAt(m.batches[m.pc.idx].items, false))
    ensures z.pc == Exited ==> z.lost == multiset(TagsAt(m.batches[m.pc.idx].items, false))
  {
    Reached(env, c, before, m);
    SendKeeps(env, m, r);
    FailureAbandons(env, m, r, DoSend(env, m, r));
    RunKeeps(env, DoSend(env, m, r), after, z);
    RunAbandons(env, DoSend(env, m, r), after, z);
    if z.pc == Exited {
      ExitedEmpty(env, z);
      assert multiset(Empty.atCqe) == multiset{};
    }
  }

  lemma ExitedEmpty(env: Env, z: Conn)
    requires Shape(z) && Batched(env, z) && z.pc == Exited
    ensures z.batches[0] == Empty && z.batches[1] == Empty
  {
    assert BatchAt(env, z, 0) && BatchAt(env, z, 1) && !InUse(z, 0) && !InUse(z, 1);
  }

  lemma Cancel(all: multiset<nat>, a: multiset<nat>, b: multiset<nat>, held: multiset<nat>, q: multiset<nat>)
    requires all == a + held + multiset{} && all == b + q && held == q
    ensures a == b
  {
    forall t ensures a[t] == b[t] {
      assert (a + held + multiset{})[t] == (b + q)[t];
    }
  }

  lemma ReleasedOf(z: Conn)
    requires |z.batches| == 2 && Tagged(z) && !z.failed && Hand(z) == [] && z.batches[0] == Empty && z.batches[1] == Empty
    requires z.pushed == z.staged + z.queue
    ensures multiset(z.releases) == RespTags(z.staged)
  {
    RespTagsAppend(z.staged, z.queue);
    assert BatchTags(Empty) == multiset{} && RespTags([]) == multiset{};
    Cancel(RespTags(z.pushed), multiset(z.releases), RespTags(z.staged), Held(z), RespTags(z.queue));
  }

  /**
    Each response's tag is released at most once, and on an orderly exit
    exactly once; on every exit, failed or not, no notification is left.
   */
  lemma ReleasedOnce(env: Env, c: Conn, steps: seq<Step>, z: Conn)
    requires Init(c) && Run(env, c, steps, z)
    ensures multiset(z.releases) <= RespTags(z.pushed)
    ensures z.pc == Exited && !z.failed ==> multiset(z.releases) == RespTags(z.staged)
    ensures z.pc == Exited ==> |z.batches| == 2 && z.batches[0] == Empty && z.batches[1] == Empty
  {
    Reached(env, c, steps, z);
    if z.pc == Exited {
      ExitedEmpty(env, z);
      if !z.failed {
        HandEmpty(env, z);
        WireOf(env, z);
        ReleasedOf(z);
      }
    }
  }

  /** Batch `i` of `z` still has the items and payload tags it had in `c`. */
  ghost predicate BatchKept(c: Conn, z: Conn, i: nat) {
    && i < |c.batches| && |z.batches| == |c.batches|
    && z.batches[i].items == c.batches[i].items && z.batches[i].atNotif == c.batches[i].atNotif
  }

  lemma GateRetire(c: Conn, idx: nat, i: nat)
    requires |c.batches| == 2 && idx < 2 && i < 2 && c.batches[i].handles > 0
    ensures BatchKept(c, Next(Retire(c, idx)), i)
  {
    RetireIs(c, idx);
  }

  lemma GateSend(env: Env, c: Conn, s: Step, z: Conn, i: nat)
    requires Shape(c) && Batched(env, c) && Enabled(c, s) && s.SendOp? && i < 2 && c.batches[i].open > 0
    requires z == Apply(env, c, s)
    ensures BatchKept(c, z, i)
  {
    var r := s.r;
    assert BatchAt(env, c, i);
    var one := ShipOne(env.indexed, ShipOf(c), r);
    ShipOneKeeps(env.indexed, ShipOf(c), r);
    var y := Shipped(c, one.s);
    assert BatchKept(c, y, i) && y.batches[i].handles > 0;
    if one.Done? {
      GateRetire(y, c.pc.idx, i);
    }
  }

  lemma GateStage(env: Env, c: Conn, s: Step, z: Conn, i: nat)
    requires Shape(c) && Batched(env, c) && Enabled(c, s) && s.StageBatch? && i < 2 && c.batches[i].open > 0
    requires z == Apply(env, c, s)
    ensures BatchKept(c, z, i)
  {
    assert BatchAt(env, c, i);
    assert i in c.inflight;
    assert FreeBatch(c.inflight) != i;
  }

  lemma GateRecycle(c: Conn, idx: nat, z: Conn, i: nat)
    requires |c.batches| == 2 && idx < 2 && i < 2 && c.batches[idx].open == 0 && c.batches[i].open > 0
    requires z.batches == Recycle(c, idx).batches
    ensures BatchKept(c, z, i)
  {
  }

  lemma GateReclaim(env: Env, c: Conn, s: Step, z: Conn, i: nat)
    requires Shape(c) && Enabled(c, s) && i < 2 && c.batches[i].open > 0 && z == Apply(env, c, s)
    requires s.ReapFront? || s.AwaitOldest? || s.DrainNext?
    ensures BatchKept(c, z, i)
  {
    GateRecycle(c, if s.DrainNext? then c.pc.todo[0] else c.inflight[0], z, i);
  }

  /** Every other step leaves the items alone. */
  lemma GateQuiet(env: Env, c: Conn, s: Step, z: Conn, i: nat)
    requires Shape(c) && Enabled(c, s) && i < 2 && z == Apply(env, c, s)
    requires !(s.SendOp? || s.StageBatch? || s.ReapFront? || s.AwaitOldest? || s.DrainNext?)
    ensures BatchKept(c, z, i)
  {
  }

  /** While the kernel owes a batch a notification, no step touches its items or releases its payload tags. */
  lemma GateHolds(env: Env, c: Conn, s: Step, z: Conn, i: nat)
    requires Shape(c) && Batched(env, c) && Enabled(c, s) && i < 2 && c.batches[i].open > 0 && z == Apply(env, c, s)
    ensures BatchKept(c, z, i)
  {
    match s
    case SendOp(_) => GateSend(env, c, s, z, i);
    case StageBatch(_) => GateStage(env, c, s, z, i);
    case ReapFront => GateReclaim(env, c, s, z, i);
    case AwaitOldest => GateReclaim(env, c, s, z, i);
    case DrainNext => GateReclaim(env, c, s, z, i);
    case _ => GateQuiet(env, c, s, z, i);
  }

  lemma BatchResponds(z: Conn, i: nat, t: nat)
    requires |z.batches| == 2 && Tagged(z) && i < 2 && t in z.batches[i].atNotif
    ensures z.slots.Is(t, Responding)
  {
    HeldSplits(z, i);
    assert multiset(z.batches[i].atNotif)[t] > 0;
    assert (Held(z) + z.lost)[t] > 0;
  }

  lemma HeldOn(m: Conn, z: Conn, i: nat)
    requires Shape(z) && Tagged(z) && Placed(z) && i < 2 && BatchKept(m, z, i)
    ensures BatchInPlace(z.data, m.batches[i])
    ensures forall t :: t in m.batches[i].atNotif ==> z.slots.Is(t, Responding)
  {
    assert i == 0 || i == 1;
    assert BatchInPlace(z.data, z.batches[i]);
    forall t | t in m.batches[i].atNotif ensures z.slots.Is(t, Responding) {
      BatchResponds(z, i, t);
    }
  }

  /**
    While the kernel owes a notification, no step releases the batch's payload
    tags, and every slot they name still holds the data being sent.
   */
  lemma PayloadIsHeld(env: Env, c: Conn, before: seq<Step>, m: Conn, s: Step, z: Conn, i: nat)
    requires Init(c) && Run(env, c, before, m) && Shape(m) && Enabled(m, s) && z == Apply(env, m, s)
    requires i < 2 && m.batches[i].open > 0
    ensures BatchKept(m, z, i) && BatchInPlace(z.data, m.batches[i])
    ensures forall t :: t in m.batches[i].atNotif ==> z.slots.Is(t, Responding)
  {
    Reached(env, c, before, m);
    GateHolds(env, m, s, z, i);
    StepKeeps(env, m, s);
    HeldOn(m, z, i);
  }
}
