/** The send path as the connection's objects run it, method by method. */
module StreamSenders {
  import opened Common
  import opened Digest
  import opened Pdu
  import opened Slots
  import opened SendItems
  import opened Sender

  /** The ordered send-work queue. `waker` is the parked send loop, `woken` its doorbell. */
  class SendList {
    var work: seq<Work>
    var closed: bool
    var waker: bool
    var woken: bool

    constructor ()
      ensures work == [] && !closed && !waker && !woken
    {
      work, closed, waker, woken := [], false, false, false;
    }

    /** A parked send loop has nothing to do: there is no work and the list is open. */
    ghost predicate Valid()
      reads this
    {
      waker ==> work == [] && !closed
    }

    method Push(w: Work)
      requires Valid()
      modifies this
      ensures Valid() && work == old(work) + [w] && closed == old(closed) && !waker
      ensures woken == (old(woken) || old(waker))
    {
      work := work + [w];
      if waker {
        waker, woken := false, true;
      }
    }

    method TryNext() returns (w: Option<Work>)
      requires Valid()
      modifies this
      ensures Valid() && closed == old(closed) && waker == old(waker) && woken == old(woken)
      ensures w.Some? <==> old(work) != []
      ensures OptSeq(w) + work == old(work)
    {
      if work == [] {
        return None;
      }
      w := Some(work[0]);
      work := work[1..];
    }

    /** Work first, the end once closed, else park. */
    method PollNext() returns (ready: bool, w: Option<Work>)
      requires Valid()
      modifies this
      ensures Valid() && closed == old(closed) && woken == old(woken)
      ensures ready <==> old(work) != [] || closed
      ensures OptSeq(w) + work == old(work)
      ensures w.Some? <==> old(work) != []
      ensures !ready ==> waker
    {
      if work != [] {
        w := TryNext();
        return true, w;
      }
      if closed {
        return true, None;
      }
      waker := true;
      return false, None;
    }

    method Close()
      requires Valid()
      modifies this
      ensures Valid() && closed && !waker && work == old(work) && woken == (old(woken) || old(waker))
    {
      closed := true;
      if waker {
        waker, woken := false, true;
      }
    }
  }

  /** The rendezvous of receive loop, slot tasks and send loop. */
  class NvmeTcpQueue {
    const slots: SlotArray
    const send: SendList
    var traffic: bool

    constructor (nslots: nat)
      ensures slots.Valid() && send.Valid() && fresh(slots) && fresh(send) && !traffic
      ensures send.work == [] && |slots.state| == nslots
    {
      slots := new SlotArray(nslots);
      send := new SendList();
      traffic := false;
    }

    method Submit(tag: nat)
      requires slots.Valid() && slots.View().Is(tag, Receiving)
      modifies this, slots
      ensures slots.Valid() && slots.View() == old(slots.View().Submit(tag)) && traffic
    {
      traffic := true;
      slots.Submit(tag);
    }

    /** Queue a completion: the slot responds and its work is last in the list. */
    method Complete(tag: nat, cqe: Cqe, data: seq<byte>)
      requires slots.Valid() && send.Valid() && slots.View().Is(tag, Executing)
      modifies slots, send
      ensures slots.Valid() && send.Valid() && slots.View() == old(slots.View().BeginRespond(tag))
      ensures send.work == old(send.work) + [Response(tag, cqe, data)] && !send.waker
    {
      slots.BeginRespond(tag);
      send.Push(Response(tag, cqe, data));
    }

    method CompleteReceiving(tag: nat, cqe: Cqe)
      requires slots.Valid() && send.Valid() && slots.View().Is(tag, Receiving)
      modifies slots, send
      ensures slots.Valid() && send.Valid() && slots.View() == old(slots.View().RespondReceiving(tag))
      ensures send.work == old(send.work) + [Response(tag, cqe, [])] && !send.waker
    {
      slots.RespondReceiving(tag);
      send.Push(Response(tag, cqe, []));
    }

    method Solicit(tag: nat, cid: u16, offset: u32, length: u32)
      requires slots.Valid() && send.Valid() && slots.View().Is(tag, Receiving)
      modifies send
      ensures send.Valid() && send.work == old(send.work) + [R2t(tag, cid, offset, length)] && !send.waker
    {
      send.Push(R2t(tag, cid, offset, length));
    }
  }

  // ----- the sender -----

  ghost function DrainTags(batches: seq<Batch>, todo: seq<nat>): seq<nat>
    requires forall k :: 0 <= k < |todo| ==> todo[k] < |batches|
    decreases |todo|
  {
    if todo == [] then []
    else batches[todo[0]].atNotif + DrainTags(batches[todo[0] := Empty], todo[1..])
  }

  lemma {:induction false} ReleaseSplits(slots: SlotsView, a: seq<nat>, b: seq<nat>)
    requires Releasable(slots, a + b)
    ensures Releasable(slots, a) && Releasable(ReleaseAll(slots, a), b)
    ensures ReleaseAll(slots, a + b) == ReleaseAll(ReleaseAll(slots, a), b)
    decreases |a|
  {
    if a == [] {
      assert a + b == b;
    } else {
      assert (a + b)[1..] == a[1..] + b;
      ReleaseSplits(slots.Release(a[0]), a[1..], b);
    }
  }

  function SwapRemove(s: seq<nat>, i: nat): seq<nat>
    requires i < |s|
  {
    var last := |s| - 1;
    if i == last then s[..last] else s[..last][i := s[last]]
  }

  lemma SwapRemoved(s: seq<nat>, i: nat)
    requires i < |s|
    ensures multiset(SwapRemove(s, i)) + multiset{s[i]} == multiset(s)
  {
    var last := |s| - 1;
    var front := s[..last];
    assert s == front + [s[last]];
    assert multiset(s) == multiset(front) + multiset{s[last]};
    if i < last {
      assert front[i] == s[i];
      assert multiset(front[i := s[last]]) + multiset{front[i]} == multiset(front) + multiset{s[last]};
    }
  }

  /** `left` is what polling has kept of `notifs`, `gone` what it found complete. */
  ghost predicate Polled(notifs: seq<nat>, ready: nat -> bool, left: seq<nat>, gone: multiset<nat>, i: nat) {
    && i <= |left| && multiset(left) + gone == multiset(notifs)
    && (forall h :: h in gone ==> ready(h))
    && (forall k :: 0 <= k < i ==> !ready(left[k]))
  }

  lemma PolledMore(notifs: seq<nat>, ready: nat -> bool, left: seq<nat>, gone: multiset<nat>, i: nat)
    requires Polled(notifs, ready, left, gone, i) && i < |left| && ready(left[i])
    ensures Polled(notifs, ready, SwapRemove(left, i), gone + multiset{left[i]}, i)
  {
    SwapRemoved(left, i);
    var z := SwapRemove(left, i);
    assert multiset(z) + (gone + multiset{left[i]}) == multiset(z) + multiset{left[i]} + gone;
  }

  lemma PolledAll(notifs: seq<nat>, ready: nat -> bool, left: seq<nat>, gone: multiset<nat>, h: nat)
    requires Polled(notifs, ready, left, gone, |left|)
    ensures multiset(left)[h] == if ready(h) then 0 else multiset(notifs)[h]
  {
    assert multiset(notifs)[h] == multiset(left)[h] + gone[h];
    assert h in multiset(left) <==> h in left;
  }

  /** Poll every pending notification once; the order of the rest is not kept, their number is. */
  method PollNotifs(notifs: seq<nat>, ready: nat -> bool) returns (left: seq<nat>, done: nat)
    ensures forall h :: multiset(left)[h] == if ready(h) then 0 else multiset(notifs)[h]
    ensures |left| + done == |notifs|
  {
    left, done := notifs, 0;
    var i := 0;
    ghost var gone: multiset<nat> := multiset{};
    while i < |left|
      invariant Polled(notifs, ready, left, gone, i) && |left| + done == |notifs|
      decreases |left| - i
    {
      if ready(left[i]) {
        PolledMore(notifs, ready, left, gone, i);
        gone := gone + multiset{left[i]};
        left := SwapRemove(left, i);
        done := done + 1;
      } else {
        i := i + 1;
      }
    }
    forall h ensures multiset(left)[h] == if ready(h) then 0 else multiset(notifs)[h] {
      PolledAll(notifs, ready, left, gone, h);
    }
  }

  lemma AddGrows(env: Env, b: Batch, w: Work)
    ensures var c := AddItem(env, b, w);
            |b.bytes| <= |c.bytes| && c.sent == b.sent && c.open == b.open && c.handles == b.handles
  {
  }

  class StreamSender {
    const slots: SlotArray
    const work: SendList
    var batches: seq<Batch>
    var inflight: seq<nat>
    var vecFixedOk: bool
    var zcBatches: nat
    var zcFallbacks: nat
    var wire: seq<byte>

    ghost predicate Valid()
      reads this, slots, work
    {
      && slots.Valid() && work.Valid() && |batches| == 2 && |inflight| <= 2
      && (forall k :: 0 <= k < |inflight| ==> inflight[k] < 2)
      && (forall i :: 0 <= i < 2 ==> batches[i].sent <= |batches[i].bytes| && batches[i].open <= batches[i].handles)
    }

    constructor (slots: SlotArray, work: SendList, arena: bool)
      requires slots.Valid() && work.Valid()
      ensures Valid() && this.slots == slots && this.work == work
      ensures batches == [Empty, Empty] && inflight == [] && wire == [] && vecFixedOk == arena
    {
      this.slots, this.work := slots, work;
      batches, inflight, vecFixedOk := [Empty, Empty], [], arena;
      zcBatches, zcFallbacks, wire := 0, 0, [];
    }

    /** `stage_batch`: gather `first` and whatever is queued behind it, as far as there is room. */
    method StageBatch(env: Env, idx: nat, first: Work) returns (carry: Option<Work>)
      requires Valid() && idx < 2
      modifies this`batches, work
      ensures Valid() && batches == old(batches)[idx := batches[idx]]
      ensures Staging(batches[idx], carry, work.work) == StageAll(env, old(batches[idx]), first, old(work.work))
      ensures work.closed == old(work.closed)
    {
      var item := first;
      var b := batches[idx];
      carry := None;
      while true
        invariant work.Valid() && work.closed == old(work.closed) && carry == None && batches == old(batches)
        invariant b.sent <= |b.bytes| && b.open <= b.handles
        invariant StageAll(env, b, item, work.work) == StageAll(env, old(batches[idx]), first, old(work.work))
        decreases |work.work|
      {
        if !env.fits(b.items) {
          carry := Some(item);
          break;
        }
        AddGrows(env, b, item);
        b := AddItem(env, b, item);
        if env.capped(b.items) {
          break;
        }
        var next := work.TryNext();
        if next.None? {
          break;
        }
        item := next.value;
      }
      batches := batches[idx := b];
    }

    /** The loop of `ship_batch`: resume short sends, and fall back as the kernel demands. */
    static method ShipLoop(indexed: bool, start: Ship, kernel: Kernel) returns (ok: bool, s: Ship)
      requires Abi(kernel)
      ensures (if ok then Done(s) else Failed(s)) == ShipAll(indexed, kernel, 0, start)
    {
      s := start;
      var i: nat := 0;
      while true
        invariant ShipAll(indexed, kernel, i, s) == ShipAll(indexed, kernel, 0, start)
        decreases |s.left|, Bit(s.zc), Bit(s.fixedOk)
      {
        var fixed := indexed && s.fixedOk;
        var r := kernel(i, |s.left|);
        i := i + 1;
        if s.zc {
          s := s.(handles := s.handles + 1, open := s.open + 1);
        }
        match r {
          case Sent(n) =>
            if n == 0 {
              return false, s;
            }
            s := s.(wire := s.wire + s.left[..n], left := s.left[n..]);
            if s.left == [] {
              return true, s;
            }
          case BadVector =>
            if !(s.zc && fixed) {
              return false, s;
            }
            s := s.(fixedOk := false);
          case NoMemory =>
            if !s.zc {
              return false, s;
            }
            s := s.(zc := false, fallbacks := s.fallbacks + 1);
          case Broken =>
            return false, s;
        }
      }
    }

    /** `ship_batch`: put the batch on the wire, all of it or, on failure, a prefix. */
    method ShipBatch(env: Env, idx: nat, zc: bool, kernel: Kernel) returns (ok: bool)
      requires Valid() && idx < 2 && Abi(kernel)
      modifies this`batches, this`vecFixedOk, this`zcFallbacks, this`wire
      ensures Valid()
      ensures var b := old(batches[idx]);
        var r := ShipAll(env.indexed, kernel, 0,
                         Ship(b.bytes[b.sent..], old(wire), zc, old(vecFixedOk), b.handles, b.open, old(zcFallbacks)));
        && ok == r.Done? && |r.s.left| <= |b.bytes|
        && batches == old(batches)[idx := b.(sent := |b.bytes| - |r.s.left|, handles := r.s.handles, open := r.s.open)]
        && wire == r.s.wire && vecFixedOk == r.s.fixedOk && zcFallbacks == r.s.fallbacks
      ensures ok ==> wire == old(wire) + old(batches[idx].bytes[batches[idx].sent..])
      ensures old(wire) <= wire <= old(wire) + old(batches[idx].bytes[batches[idx].sent..])
    {
      var b := batches[idx];
      var start := Ship(b.bytes[b.sent..], wire, zc, vecFixedOk, b.handles, b.open, zcFallbacks);
      var s: Ship;
      ok, s := ShipLoop(env.indexed, start, kernel);
      ShipAllKeeps(env.indexed, kernel, 0, start);
      assert |s.wire| + |s.left| == |start.wire| + |start.left| by {
        assert |s.wire + s.left| == |start.wire + start.left|;
      }
      wire := s.wire;
      vecFixedOk, zcFallbacks := s.fixedOk, s.fallbacks;
      batches := batches[idx := b.(sent := |b.bytes| - |s.left|, handles := s.handles, open := s.open)];
    }

    method ReleaseTags(tags: seq<nat>)
      requires slots.Valid() && Releasable(slots.View(), tags)
      modifies slots
      ensures slots.Valid() && slots.View() == ReleaseAll(old(slots.View()), tags)
    {
      var rest := tags;
      while rest != []
        invariant slots.Valid() && Releasable(slots.View(), rest)
        invariant ReleaseAll(slots.View(), rest) == ReleaseAll(old(slots.View()), tags)
        decreases |rest|
      {
        slots.ReleaseTag(rest[0]);
        rest := rest[1..];
      }
    }

    /** Release the notification-gated tags and empty the batch. */
    method Recycle(idx: nat)
      requires Valid() && idx < 2 && Releasable(slots.View(), batches[idx].atNotif)
      modifies this`batches, slots
      ensures Valid() && slots.View() == ReleaseAll(old(slots.View()), old(batches[idx].atNotif))
      ensures batches == old(batches)[idx := Empty]
    {
      ReleaseTags(batches[idx].atNotif);
      batches := batches[idx := Empty];
    }

    /** Await every notification of one batch, then recycle it. */
    method Reap(idx: nat)
      requires Valid() && idx < 2 && Releasable(slots.View(), batches[idx].atNotif)
      modifies this`batches, slots
      ensures Valid() && slots.View() == ReleaseAll(old(slots.View()), old(batches[idx].atNotif))
      ensures batches == old(batches)[idx := Empty]
    {
      while batches[idx].handles > 0
        invariant Valid() && slots.View() == old(slots.View())
        invariant batches == old(batches)[idx := old(batches[idx]).(handles := batches[idx].handles, open := batches[idx].open)]
        decreases batches[idx].handles
      {
        var b := batches[idx];
        batches := batches[idx := b.(handles := b.handles - 1, open := Min(b.open, b.handles - 1))];
      }
      Recycle(idx);
    }

    /** The batch is on the wire: release what the send completion allows, then recycle it or wait. */
    method Retire(idx: nat)
      requires Valid() && idx < 2 && |inflight| < 2 && Releasable(slots.View(), batches[idx].atCqe + batches[idx].atNotif)
      modifies this`batches, this`inflight, this`zcBatches, slots
      ensures Valid()
      ensures old(batches[idx].handles) == 0 ==>
        && slots.View() == ReleaseAll(old(slots.View()), old(batches[idx].atCqe + batches[idx].atNotif))
        && batches == old(batches)[idx := Empty] && inflight == old(inflight)
      ensures old(batches[idx].handles) > 0 ==>
        && slots.View() == ReleaseAll(old(slots.View()), old(batches[idx].atCqe))
        && batches == old(batches)[idx := old(batches[idx]).(atCqe := [])] && inflight == old(inflight) + [idx]
    {
      var b := batches[idx];
      ReleaseSplits(slots.View(), b.atCqe, b.atNotif);
      ReleaseTags(b.atCqe);
      batches := batches[idx := b.(atCqe := [])];
      if b.handles == 0 {
        Recycle(idx);
      } else {
        zcBatches := zcBatches + 1;
        inflight := inflight + [idx];
      }
    }

    /** A batch free for staging; when both wait for notifications, the oldest is reaped first. */
    method Acquire() returns (idx: nat)
      requires Valid()
      requires |inflight| == 2 ==> Releasable(slots.View(), batches[inflight[0]].atNotif)
      modifies this`batches, this`inflight, slots
      ensures Valid() && idx < 2 && idx !in inflight
      ensures old(|inflight|) < 2 ==> inflight == old(inflight) && batches == old(batches) && slots.View() == old(slots.View())
      ensures old(|inflight|) == 2 ==>
        && inflight == old(inflight)[1..] && batches == old(batches)[old(inflight[0]) := Empty]
        && slots.View() == ReleaseAll(old(slots.View()), old(batches[inflight[0]].atNotif))
    {
      if |inflight| == 2 {
        var oldest := inflight[0];
        inflight := inflight[1..];
        Reap(oldest);
      }
      idx := if 0 !in inflight then 0 else 1;
    }

    /** The batches of `todo` are still to be reaped, which ends with the slots at `final`. */
    ghost predicate Draining(todo: seq<nat>, final: SlotsView)
      reads this, slots, work
    {
      && Valid() && inflight == [] && (forall k :: 0 <= k < |todo| ==> todo[k] < 2)
      && (forall i :: 0 <= i < 2 && i !in todo ==> batches[i] == Empty)
      && Releasable(slots.View(), DrainTags(batches, todo)) && ReleaseAll(slots.View(), DrainTags(batches, todo)) == final
    }

    /** Reap the first of the batches still to drain. */
    method DrainOne(todo: seq<nat>, ghost final: SlotsView)
      requires Draining(todo, final) && todo != []
      modifies this`batches, slots
      ensures Draining(todo[1..], final)
    {
      ReleaseSplits(slots.View(), batches[todo[0]].atNotif, DrainTags(batches[todo[0] := Empty], todo[1..]));
      Reap(todo[0]);
    }

    /** Every exit waits for all notifications: the waiting batches, then both, for one abandoned mid-send. */
    method Drain()
      requires Valid() && Releasable(slots.View(), DrainTags(batches, inflight + [0, 1]))
      modifies this`batches, this`inflight, slots
      ensures Valid() && batches == [Empty, Empty] && inflight == []
      ensures slots.View() == ReleaseAll(old(slots.View()), DrainTags(old(batches), old(inflight) + [0, 1]))
    {
      var todo := inflight + [0, 1];
      ghost var final := ReleaseAll(slots.View(), DrainTags(batches, todo));
      assert todo[|inflight|] == 0 && todo[|inflight| + 1] == 1;
      inflight := [];
      while todo != []
        invariant Draining(todo, final)
        decreases |todo|
      {
        DrainOne(todo, final);
        todo := todo[1..];
      }
      assert batches == [Empty, Empty];
    }
  }
}
