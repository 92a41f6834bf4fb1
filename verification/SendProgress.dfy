/**
  What the sender does, and not only what it never does: which answers of the
  kernel fail a connection, when the sender leaves, what is on the wire when it
  has, what a pushed item is, what may wait for a notification, and that no
  reachable state is stuck.
 */
module SendProgress {
  import opened Common
  import opened Slots
  import opened SendItems
  import opened Sender
  import opened SendSystem

  // ----- failing -----

  /** The step is a send that leaves nothing to try. */
  ghost predicate FatalStep(env: Env, c: Conn, s: Step) {
    s.SendOp? && c.pc.Shipping? &&
    match s.r
    case Sent(n) => n == 0
    case BadVector => !(c.pc.zc && env.indexed && c.fixedOk)
    case NoMemory => !c.pc.zc
    case Broken => true
  }

  ghost function Fatals(env: Env, c: Conn, steps: seq<Step>): nat
    decreases steps
  {
    if steps == [] || !Shape(c) || !Enabled(c, steps[0]) then 0
    else (if FatalStep(env, c, steps[0]) then 1 else 0) + Fatals(env, Apply(env, c, steps[0]), steps[1..])
  }

  lemma RetiredIs(c: Conn, idx: nat, z: Conn)
    requires idx < |c.batches| && z == Retire(c, idx)
    ensures z.closed == c.closed && z.pushed == c.pushed && z.staged == c.staged && z.data == c.data
    ensures z.failed == c.failed && z.carry == c.carry
  {
  }

  lemma ShippedIs(c: Conn, t: Ship, y: Conn)
    requires Shape(c) && c.pc.Shipping? && |t.left| <= |c.batches[c.pc.idx].bytes| && y == Shipped(c, t)
    ensures y.closed == c.closed && y.pushed == c.pushed && y.staged == c.staged && y.data == c.data && y.failed == c.failed
    ensures y.pc.Shipping? && |y.batches| == 2
  {
  }

  lemma TurnFails(env: Env, c: Conn, r: KernelResult)
    requires Shape(c) && Enabled(c, SendOp(r))
    ensures ShipOne(env.indexed, ShipOf(c), r).Failed? <==> FatalStep(env, c, SendOp(r))
  {
  }

  /** What a send leaves alone, and what it makes of the sender. */
  lemma SendIs(env: Env, c: Conn, r: KernelResult, z: Conn)
    requires Shape(c) && Enabled(c, SendOp(r)) && z == DoSend(env, c, r)
    ensures z.closed == c.closed && z.pushed == c.pushed && z.staged == c.staged && z.data == c.data
    ensures z.failed <==> c.failed || FatalStep(env, c, SendOp(r))
    ensures z.pc.Draining? <==> FatalStep(env, c, SendOp(r))
    ensures !z.pc.Exited? && (z.pc.Draining? ==> z.pc.todo != [])
  {
    var one := ShipOne(env.indexed, ShipOf(c), r);
    ShipOneKeeps(env.indexed, ShipOf(c), r);
    TurnFails(env, c, r);
    var c1 := Shipped(c, one.s);
    ShippedIs(c, one.s, c1);
    AfterTurnIs(c1, c.pc.idx, one);
  }

  lemma AfterTurnIs(c: Conn, idx: nat, one: ShipResult)
    requires idx < |c.batches| && c.pc.Shipping?
    ensures var z := AfterTurn(c, idx, one);
            && z.closed == c.closed && z.pushed == c.pushed && z.staged == c.staged && z.data == c.data
            && (z.failed <==> c.failed || one.Failed?) && (z.pc.Draining? <==> one.Failed?)
            && !z.pc.Exited? && (z.pc.Draining? ==> z.pc.todo != [])
  {
    RetiredIs(c, idx, Retire(c, idx));
  }

  lemma StepFails(env: Env, c: Conn, s: Step)
    requires Shape(c) && Enabled(c, s)
    ensures Apply(env, c, s).failed <==> c.failed || FatalStep(env, c, s)
  {
    if s.SendOp? {
      SendIs(env, c, s.r, DoSend(env, c, s.r));
    }
  }

  lemma {:induction false} RunFails(env: Env, c: Conn, steps: seq<Step>, z: Conn)
    requires Run(env, c, steps, z)
    ensures z.failed <==> c.failed || Fatals(env, c, steps) > 0
    decreases steps
  {
    if steps != [] {
      StepFails(env, c, steps[0]);
      RunFails(env, Apply(env, c, steps[0]), steps[1..], z);
    }
  }

  /**
    A connection fails if and only if some send came back broken or with
    nothing sent, or with no fallback left: a short send, the first refusal of
    the vector and the first want of memory never fail it.
   */
  lemma FailsIff(env: Env, c: Conn, steps: seq<Step>, z: Conn)
    requires Init(c) && Run(env, c, steps, z)
    ensures z.failed <==> Fatals(env, c, steps) > 0
  {
    RunFails(env, c, steps, z);
  }

  // ----- leaving -----

  ghost predicate Leaving(c: Conn) {
    c.pc.Draining? || c.pc.Exited?
  }

  lemma RecycledIs(c: Conn, idx: nat)
    requires idx < |c.batches|
    ensures var z := Recycle(c, idx); z.closed == c.closed && z.pushed == c.pushed && z.staged == c.staged && z.pc == c.pc
  {
  }

  lemma StagedGrows(env: Env, c: Conn, zc: bool)
    requires Shape(c) && Enabled(c, StageBatch(zc))
    ensures var z := DoStage(env, c, zc); z.closed == c.closed && z.pushed == c.pushed && c.staged <= z.staged && z.pc.Shipping?
  {
  }

  /** The sender starts to leave when it is told to, or fails. */
  lemma StepLeaves(env: Env, c: Conn, s: Step)
    requires Shape(c) && Enabled(c, s)
    ensures var z := Apply(env, c, s);
            && (Leaving(z) <==> Leaving(c) || s == FinishUp || FatalStep(env, c, s))
            && (z.closed <==> c.closed || s == CloseSend)
            && c.pushed <= z.pushed && c.staged <= z.staged
  {
    match s
    case SendOp(r) => SendIs(env, c, r, DoSend(env, c, r));
    case ReapFront => RecycledIs(c, c.inflight[0]);
    case AwaitOldest => RecycledIs(c, c.inflight[0]);
    case DrainNext => RecycledIs(c, c.pc.todo[0]);
    case StageBatch(zc) => StagedGrows(env, c, zc);
    case _ =>
  }

  /** When it is told to it has sent everything. */
  lemma FinishedAll(env: Env, c: Conn)
    requires Shape(c) && Ordered(env, c) && Batched(env, c) && Enabled(c, FinishUp)
    ensures c.closed && c.staged == c.pushed
  {
    assert Hand(c) == [] && c.queue == [];
    assert c.staged + [] + [] == c.staged;
  }

  /** Everything of `early` has been staged once the sender leaves unfailed. */
  ghost predicate Promised(c: Conn, early: seq<Work>) {
    c.closed && early <= c.pushed && (Leaving(c) && !c.failed ==> early <= c.staged)
  }

  lemma PrefixOf(a: seq<Work>, b: seq<Work>, c: seq<Work>)
    requires a <= b <= c
    ensures a <= c
  {
  }

  lemma StepPromises(env: Env, c: Conn, s: Step, early: seq<Work>)
    requires Inv(env, c) && Enabled(c, s) && Promised(c, early)
    ensures Promised(Apply(env, c, s), early)
  {
    var z := Apply(env, c, s);
    StepLeaves(env, c, s);
    StepFails(env, c, s);
    if s == FinishUp {
      FinishedAll(env, c);
    }
    PrefixOf(early, c.pushed, z.pushed);
    if early <= c.staged {
      PrefixOf(early, c.staged, z.staged);
    }
  }

  lemma {:induction false} RunPromises(env: Env, c: Conn, steps: seq<Step>, z: Conn, early: seq<Work>)
    requires Inv(env, c) && Run(env, c, steps, z) && Promised(c, early)
    ensures Inv(env, z) && Promised(z, early)
    decreases steps
  {
    if steps != [] {
      StepPromises(env, c, steps[0], early);
      StepKeeps(env, c, steps[0]);
      RunPromises(env, Apply(env, c, steps[0]), steps[1..], z, early);
    }
  }

  lemma {:induction false} RunLeaves(env: Env, c: Conn, steps: seq<Step>, z: Conn)
    requires Inv(env, c) && Run(env, c, steps, z) && (Leaving(c) ==> c.failed || c.closed)
    ensures Leaving(z) ==> z.failed || z.closed
    decreases steps
  {
    if steps != [] {
      StepLeaves(env, c, steps[0]);
      StepFails(env, c, steps[0]);
      if steps[0] == FinishUp {
        FinishedAll(env, c);
      }
      StepKeeps(env, c, steps[0]);
      RunLeaves(env, Apply(env, c, steps[0]), steps[1..], z);
    }
  }

  /** The sender never leaves a connection that has neither failed nor been closed. */
  lemma LeavesOnlyWhenTold(env: Env, c: Conn, steps: seq<Step>, z: Conn)
    requires Init(c) && Run(env, c, steps, z)
    ensures Leaving(z) ==> z.failed || z.closed
  {
    InitKeeps(env, c);
    RunLeaves(env, c, steps, z);
  }

  /** A close is orderly: all work pushed before it is on the wire when the sender is gone. */
  lemma CloseSendsEverything(env: Env, c: Conn, before: seq<Step>, m: Conn, after: seq<Step>, z: Conn)
    requires Init(c) && Run(env, c, before, m) && Shape(m) && !Leaving(m)
    requires Run(env, Apply(env, m, CloseSend), after, z) && z.pc == Exited && !z.failed
    ensures EncAll(env, m.pushed) <= z.wire
  {
    Reached(env, c, before, m);
    StepKeeps(env, m, CloseSend);
    RunPromises(env, Apply(env, m, CloseSend), after, z, m.pushed);
    GoneHasSent(env, z, m.pushed);
  }

  lemma GoneHasSent(env: Env, z: Conn, early: seq<Work>)
    requires Shape(z) && Ordered(env, z) && z.pc == Exited && !z.failed && early <= z.staged
    ensures EncAll(env, early) <= z.wire
  {
    EncAllAppend(env, early, z.staged[|early|..]);
    assert z.staged == early + z.staged[|early|..];
  }

  // ----- what is pushed -----

  /**
    The work a run's commands push, from its steps alone: a completed command's
    entry with the first `len` bytes last put in its slot, a refused one's
    without data, and the R2Ts.
   */
  function Pushes(data: seq<seq<byte>>, steps: seq<Step>): seq<Work>
    decreases steps
  {
    if steps == [] then []
    else match steps[0]
      case Fill(tag, bytes) => Pushes(if tag < |data| then data[tag := bytes] else data, steps[1..])
      case Complete(tag, cqe, len) =>
        (if tag < |data| && len <= |data[tag]| then [Response(tag, cqe, data[tag][..len])] else []) + Pushes(data, steps[1..])
      case FailReceiving(tag, cqe) => [Response(tag, cqe, [])] + Pushes(data, steps[1..])
      case Solicit(tag, cid, offset, length) => [R2t(tag, cid, offset, length)] + Pushes(data, steps[1..])
      case _ => Pushes(data, steps[1..])
  }

  lemma StepPushes(env: Env, c: Conn, s: Step)
    requires Shape(c) && Enabled(c, s)
    ensures var z := Apply(env, c, s);
            && z.data == (if s.Fill? then c.data[s.tag := s.bytes] else c.data)
            && z.pushed == c.pushed + Pushes(c.data, [s])
  {
    assert [s][1..] == [];
    if s.SendOp? {
      SendIs(env, c, s.r, DoSend(env, c, s.r));
    }
  }

  lemma PushesOne(data: seq<seq<byte>>, steps: seq<Step>)
    requires steps != []
    ensures var s := steps[0];
            Pushes(data, steps) ==
            Pushes(data, [s]) + Pushes(if s.Fill? && s.tag < |data| then data[s.tag := s.bytes] else data, steps[1..])
  {
    assert [steps[0]][1..] == [];
  }

  lemma {:induction false} RunPushes(env: Env, c: Conn, steps: seq<Step>, z: Conn)
    requires Run(env, c, steps, z)
    ensures z.pushed == c.pushed + Pushes(c.data, steps)
    decreases steps
  {
    if steps != [] {
      var s := steps[0];
      StepPushes(env, c, s);
      PushesOne(c.data, steps);
      RunPushes(env, Apply(env, c, s), steps[1..], z);
      Regroup(c.pushed, Pushes(c.data, [s]), Pushes(Apply(env, c, s).data, steps[1..]));
    }
  }

  lemma Regroup(a: seq<Work>, b: seq<Work>, c: seq<Work>)
    ensures (a + b) + c == a + (b + c)
  {
  }

  /** What is pushed, and so what the wire carries, is what the run's commands completed, in that order. */
  lemma PushedIsCompleted(env: Env, c: Conn, steps: seq<Step>, z: Conn)
    requires Init(c) && Run(env, c, steps, z)
    ensures z.pushed == Pushes(c.data, steps)
    ensures z.wire <= EncAll(env, Pushes(c.data, steps))
    ensures !z.failed && z.pc == Idle && z.queue == [] ==> z.wire == EncAll(env, Pushes(c.data, steps))
  {
    RunPushes(env, c, steps, z);
    WireIsPushedWork(env, c, steps, z);
    assert [] + Pushes(c.data, steps) == Pushes(c.data, steps);
  }

  // ----- what waits -----

  lemma {:induction false} WaitsForPayload(works: seq<Work>, t: nat)
    requires t in TagsAt(works, true)
    ensures exists i :: 0 <= i < |works| && works[i].Response? && works[i].tag == t && works[i].data != []
    decreases |works|
  {
    if works[0].Response? && works[0].tag == t && works[0].data != [] {
    } else {
      WaitsForPayload(works[1..], t);
      var i :| 0 <= i < |works[1..]| && works[1..][i].Response? && works[1..][i].tag == t && works[1..][i].data != [];
      assert works[i + 1] == works[1..][i];
    }
  }

  /**
    Only data waits for a notification: unless the connection failed, a tag that
    a sent batch still holds is that of a response with data in that batch.
   */
  lemma OnlyPayloadWaits(env: Env, c: Conn, steps: seq<Step>, z: Conn, idx: nat, t: nat)
    requires Init(c) && Run(env, c, steps, z) && !z.failed && idx < 2
    requires |z.batches| == 2 && !(z.pc.Shipping? && z.pc.idx == idx) && BatchTags(z.batches[idx])[t] > 0
    ensures var works := z.batches[idx].items;
            exists i :: 0 <= i < |works| && works[i].Response? && works[i].tag == t && works[i].data != []
  {
    Reached(env, c, steps, z);
    SentBatch(env, z, idx);
    WaitsForPayload(z.batches[idx].items, t);
  }

  lemma SentBatch(env: Env, z: Conn, idx: nat)
    requires Shape(z) && Batched(env, z) && !z.failed && idx < 2 && !(z.pc.Shipping? && z.pc.idx == idx)
    ensures BatchTags(z.batches[idx]) == multiset(TagsAt(z.batches[idx].items, true))
  {
    assert idx == 0 || idx == 1;
    assert BatchAt(env, z, idx);
    assert z.batches[idx].atCqe == [];
  }

  // ----- waiting for notifications -----

  /** Every batch in flight was sent at least once without copying. */
  ghost predicate Owed(batches: seq<Batch>, inflight: seq<nat>) {
    forall k :: 0 <= k < |inflight| ==> inflight[k] < |batches| && batches[inflight[k]].handles > 0
  }

  lemma OwedElsewhere(batches: seq<Batch>, inflight: seq<nat>, i: nat, b: Batch)
    requires Owed(batches, inflight) && i < |batches| && (i in inflight ==> b.handles > 0)
    ensures Owed(batches[i := b], inflight)
  {
  }

  lemma RecycleOwes(c: Conn)
    requires c.inflight != [] && c.inflight[0] < |c.batches| && Distinct(c.inflight) && Owed(c.batches, c.inflight)
    ensures Owed(Recycle(c, c.inflight[0]).batches, c.inflight[1..])
  {
    assert Owed(c.batches, c.inflight[1..]);
    assert c.inflight[0] !in c.inflight[1..];
    OwedElsewhere(c.batches, c.inflight[1..], c.inflight[0], Empty);
  }

  lemma RetireOwes(c: Conn, idx: nat)
    requires idx < |c.batches| && idx !in c.inflight && Owed(c.batches, c.inflight)
    ensures var z := Next(Retire(c, idx)); Owed(z.batches, z.inflight)
  {
    var b := c.batches[idx];
    OwedElsewhere(c.batches, c.inflight, idx, b.(atCqe := []));
    OwedElsewhere(c.batches, c.inflight, idx, Empty);
  }

  lemma SendOwes(env: Env, c: Conn, r: KernelResult)
    requires Shape(c) && Enabled(c, SendOp(r)) && c.pc.idx !in c.inflight && Owed(c.batches, c.inflight)
    ensures var z := DoSend(env, c, r); Owed(z.batches, z.inflight)
  {
    var one := ShipOne(env.indexed, ShipOf(c), r);
    ShipOneKeeps(env.indexed, ShipOf(c), r);
    var c1 := Shipped(c, one.s);
    OwedElsewhere(c.batches, c.inflight, c.pc.idx, c1.batches[c.pc.idx]);
    RetireOwes(c1, c.pc.idx);
  }

  lemma StageOwes(env: Env, c: Conn, zc: bool)
    requires Shape(c) && Enabled(c, StageBatch(zc)) && FreeBatch(c.inflight) !in c.inflight && Owed(c.batches, c.inflight)
    ensures var z := DoStage(env, c, zc); Owed(z.batches, z.inflight)
  {
    var idx := FreeBatch(c.inflight);
    OwedElsewhere(c.batches, c.inflight, idx, StageAll(env, c.batches[idx], c.pc.first, c.queue).batch);
  }

  lemma StepOwes(env: Env, c: Conn, s: Step)
    requires Shape(c) && Enabled(c, s) && Owed(c.batches, c.inflight)
    requires Distinct(c.inflight) && (c.pc.Shipping? ==> c.pc.idx !in c.inflight) && (c.pc.Draining? ==> c.inflight == [])
    ensures var z := Apply(env, c, s); Owed(z.batches, z.inflight)
  {
    match s
    case SendOp(r) => SendOwes(env, c, r);
    case StageBatch(zc) =>
      OneIsFree(c.inflight);
      StageOwes(env, c, zc);
    case ReapFront => RecycleOwes(c);
    case AwaitOldest => RecycleOwes(c);
    case Notified(idx) =>
      OwedElsewhere(c.batches, c.inflight, idx, c.batches[idx].(open := c.batches[idx].open - 1));
    case _ =>
  }

  lemma OneIsFree(inflight: seq<nat>)
    requires |inflight| < 2
    ensures FreeBatch(inflight) !in inflight
  {
  }

  lemma {:induction false} RunOwes(env: Env, c: Conn, steps: seq<Step>, z: Conn)
    requires Inv(env, c) && Run(env, c, steps, z) && Owed(c.batches, c.inflight)
    ensures Owed(z.batches, z.inflight)
    decreases steps
  {
    if steps != [] {
      StepOwes(env, c, steps[0]);
      StepKeeps(env, c, steps[0]);
      RunOwes(env, Apply(env, c, steps[0]), steps[1..], z);
    }
  }

  /** No batch waits for notifications, and no tag with it, unless it was sent at least once without copying. */
  lemma OnlyZeroCopyWaits(env: Env, c: Conn, steps: seq<Step>, z: Conn, idx: nat)
    requires Init(c) && Run(env, c, steps, z) && idx in z.inflight
    ensures idx < |z.batches| && z.batches[idx].handles > 0
  {
    InitKeeps(env, c);
    RunOwes(env, c, steps, z);
  }

  // ----- no state is stuck -----

  /** A step of the sender, or of the kernel for it, that is not a failure. */
  ghost predicate Onward(c: Conn, s: Step)
    requires Shape(c)
  {
    Enabled(c, s) &&
    match s
    case Take => true
    case FinishUp => true
    case ReapFront => true
    case AwaitOldest => true
    case StageBatch(_) => true
    case Notified(_) => true
    case DrainNext => true
    case SendOp(r) => r == Sent(|Unsent(c.batches[c.pc.idx])|)
    case _ => false
  }

  /** The sender has nothing to do: no work, no notification to wait for, and it was not told to leave. */
  ghost predicate AtRest(c: Conn) {
    c.pc == Idle && c.queue == [] && !c.closed && c.inflight == []
  }

  /** Until it is gone or at rest, the sender can go on, or the kernel owes it a notification. */
  lemma NeverStuck(env: Env, c: Conn, steps: seq<Step>, z: Conn)
    requires Init(c) && Run(env, c, steps, z) && z.pc != Exited && !AtRest(z)
    ensures Shape(z) && exists s: Step :: Onward(z, s)
  {
    Reached(env, c, steps, z);
    if z.pc.Draining? {
      DrainingHasWork(env, c, steps, z);
    }
    MovesOn(env, z);
  }

  lemma MovesOn(env: Env, z: Conn)
    requires Shape(z) && Batched(env, z) && z.pc != Exited && !AtRest(z) && (z.pc.Draining? ==> z.pc.todo != [])
    ensures exists s: Step :: Onward(z, s)
  {
    match z.pc {
      case Idle =>
        if z.queue != [] {
          assert Onward(z, Take);
        } else if z.closed {
          assert Onward(z, FinishUp);
        } else {
          OldestMoves(z, ReapFront);
        }
      case Holding(_) =>
        AtMost(z.inflight, {0, 1});
        if |z.inflight| < 2 {
          assert Onward(z, StageBatch(false));
        } else {
          OldestMoves(z, AwaitOldest);
        }
      case Shipping(idx, _) => assert Onward(z, SendOp(Sent(|Unsent(z.batches[idx])|)));
      case Draining(todo) =>
        assert z.batches[todo[0]].open == 0 ==> Onward(z, DrainNext);
        assert z.batches[todo[0]].open > 0 ==> Onward(z, Notified(todo[0]));
    }
  }

  lemma OldestMoves(z: Conn, s: Step)
    requires Shape(z) && z.inflight != []
    requires z.batches[z.inflight[0]].open == 0 ==> Onward(z, s)
    ensures exists s: Step :: Onward(z, s)
  {
    if z.batches[z.inflight[0]].open > 0 {
      assert Onward(z, Notified(z.inflight[0]));
    }
  }

  lemma {:induction false} AtMost(s: seq<nat>, all: set<nat>)
    requires Distinct(s) && forall k :: 0 <= k < |s| ==> s[k] in all
    ensures |s| <= |all|
    decreases |s|
  {
    if s != [] {
      var rest := s[1..];
      assert forall k :: 0 <= k < |rest| ==> rest[k] == s[k + 1];
      AtMost(rest, all - {s[0]});
    }
  }

  /** Draining always has a batch left to visit. */
  lemma StepDrains(env: Env, c: Conn, s: Step)
    requires Shape(c) && Enabled(c, s) && (c.pc.Draining? ==> c.pc.todo != [])
    ensures var z := Apply(env, c, s); z.pc.Draining? ==> z.pc.todo != []
  {
    match s
    case SendOp(r) => SendIs(env, c, r, DoSend(env, c, r));
    case ReapFront => RecycledIs(c, c.inflight[0]);
    case AwaitOldest => RecycledIs(c, c.inflight[0]);
    case _ =>
  }

  lemma {:induction false} RunDrains(env: Env, c: Conn, steps: seq<Step>, z: Conn)
    requires Run(env, c, steps, z) && (c.pc.Draining? ==> c.pc.todo != [])
    ensures z.pc.Draining? ==> z.pc.todo != []
    decreases steps
  {
    if steps != [] {
      StepDrains(env, c, steps[0]);
      RunDrains(env, Apply(env, c, steps[0]), steps[1..], z);
    }
  }

  lemma DrainingHasWork(env: Env, c: Conn, steps: seq<Step>, z: Conn)
    requires Init(c) && Run(env, c, steps, z) && z.pc.Draining?
    ensures z.pc.todo != []
  {
    RunDrains(env, c, steps, z);
  }
}
