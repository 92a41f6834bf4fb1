/**
  What ring-mode receive does, and not only what it never does: when it closes,
  when it parks and when it arms again, what a fill hands out, and that no
  reachable state is stuck.
 */
module RingProgress {
  import opened Common
  import opened RingReceive
  import opened RingSystem

  lemma Reached(y: Sys, steps: seq<Step>, z: Sys)
    requires Init(y) && Run(y, steps, z)
    ensures Inv(z)
  {
    InitKeeps(y);
    RunKeeps(y, steps, z);
  }

  // ----- closing -----

  /** The step takes an end of stream, or a failure, from the completion queue. */
  ghost predicate TakesEnd(y: Sys, s: Step) {
    s == Pop && y.cq != [] && (y.cq[0] == Eof || y.cq[0] == Failed)
  }

  /** How many steps of the run do. */
  ghost function Ends(y: Sys, steps: seq<Step>): nat
    decreases steps
  {
    if steps == [] || !Shape(y) || !Enabled(y, steps[0]) then 0
    else (if TakesEnd(y, steps[0]) then 1 else 0) + Ends(Apply(y, steps[0]), steps[1..])
  }

  /** Only such a step closes, and nothing opens again. */
  lemma StepCloses(y: Sys, s: Step)
    requires Inv(y) && Enabled(y, s)
    ensures Apply(y, s).u.mode == Closed <==> y.u.mode == Closed || TakesEnd(y, s)
  {
  }

  lemma {:induction false} RunCloses(y: Sys, steps: seq<Step>, z: Sys)
    requires Inv(y) && Run(y, steps, z)
    ensures z.u.mode == Closed <==> y.u.mode == Closed || Ends(y, steps) > 0
    decreases steps
  {
    if steps != [] {
      StepCloses(y, steps[0]);
      StepKeeps(y, steps[0]);
      RunCloses(Apply(y, steps[0]), steps[1..], z);
    }
  }

  /**
    The reader closes if and only if it has been told that the stream ended or
    failed: running out of buffers, in particular, never closes it.
   */
  lemma ClosedIff(y: Sys, steps: seq<Step>, z: Sys)
    requires Init(y) && Run(y, steps, z)
    ensures z.u.mode == Closed <==> Ends(y, steps) > 0
  {
    InitKeeps(y);
    RunCloses(y, steps, z);
  }

  // ----- filling -----

  /**
    A fill hands out the window in hand exactly while it has unread bytes. If
    not it leaves the reader waiting, with no window, for a receive that is
    live or has completed.
   */
  lemma FillWaitsIff(y: Sys, steps: seq<Step>, z: Sys)
    requires Init(y) && Run(y, steps, z) && z.u.mode == Idle
    ensures Shape(z) && Enabled(z, Fill)
    ensures var w := Apply(z, Fill);
            if z.u.cur.Some? && z.u.cur.value.pos < z.u.cur.value.len then w == z
            else w.u.mode == Waiting && w.u.cur == None && (w.armed || w.cq != []) && w.cq == z.cq && w.out == z.out
  {
    Reached(y, steps, z);
    StepKeeps(z, Fill);
  }

  /** A chunk that arrives is the window in hand, whole and unread, and the caller's turn. */
  lemma ChunkIsHandedOut(y: Sys, steps: seq<Step>, z: Sys)
    requires Init(y) && Run(y, steps, z) && z.u.mode == Waiting && z.cq != [] && z.cq[0].Chunk?
    ensures Shape(z) && Enabled(z, Pop)
    ensures var c, w := z.cq[0], Apply(z, Pop);
            w.u.mode == Idle && w.u.cur == Some(Cur(c.bid, c.at, c.len, 0, c.bufMore)) && w.cq == z.cq[1..]
  {
    Reached(y, steps, z);
    ReceivedIsStream(y, steps, z);
  }

  // ----- running out of buffers -----

  /** The step submits a receive. */
  ghost predicate Arms(y: Sys, s: Step)
    requires Shape(y) && Enabled(y, s)
  {
    Apply(y, s).u.op && (!y.u.op || (s == Pop && y.cq[0] == NoBufs))
  }

  /** No step of the run does. */
  ghost predicate NeverArms(y: Sys, steps: seq<Step>)
    decreases steps
  {
    steps != [] && Shape(y) && Enabled(y, steps[0]) ==> !Arms(y, steps[0]) && NeverArms(Apply(y, steps[0]), steps[1..])
  }

  /** The generation counts the provides. */
  ghost predicate Counted(y: Sys) {
    y.u.ring.gen == |y.u.ring.log|
  }

  lemma StepCounts(y: Sys, s: Step)
    requires Shape(y) && Arming(y) && Enabled(y, s) && Counted(y)
    ensures Counted(Apply(y, s)) && y.u.ring.log <= Apply(y, s).u.ring.log
    ensures Apply(y, s).u.armedGen == if Arms(y, s) then |Apply(y, s).u.ring.log| else y.u.armedGen
  {
  }

  lemma {:induction false} RunCounts(y: Sys, steps: seq<Step>, z: Sys)
    requires Inv(y) && Run(y, steps, z) && Counted(y)
    ensures Counted(z) && y.u.ring.log <= z.u.ring.log
    ensures NeverArms(y, steps) ==> z.u.armedGen == y.u.armedGen
    decreases steps
  {
    if steps != [] {
      StepCounts(y, steps[0]);
      StepKeeps(y, steps[0]);
      RunCounts(Apply(y, steps[0]), steps[1..], z);
    }
  }

  /** `z` is reached by a run in which `arming`, taken in `m`, was the last step to submit a receive. */
  ghost predicate ArmedIn(y: Sys, before: seq<Step>, m: Sys, arming: Step, after: seq<Step>, z: Sys) {
    && Init(y) && Run(y, before, m) && Shape(m) && Enabled(m, arming) && Arms(m, arming)
    && Run(Apply(m, arming), after, z) && NeverArms(Apply(m, arming), after)
  }

  lemma SinceArming(y: Sys, before: seq<Step>, m: Sys, arming: Step, after: seq<Step>, z: Sys)
    requires ArmedIn(y, before, m, arming, after, z)
    ensures Inv(z) && (z.u.ring.gen == z.u.armedGen <==> z.u.ring.log == Apply(m, arming).u.ring.log)
  {
    InitKeeps(y);
    RunCounts(y, before, m);
    RunKeeps(y, before, m);
    StepCounts(m, arming);
    StepKeeps(m, arming);
    RunCounts(Apply(m, arming), after, z);
    RunKeeps(Apply(m, arming), after, z);
  }

  /** Waiting on a receive that the kernel has, or parked with the waker registered. */
  ghost predicate LiveReceive(w: Sys) {
    w.u.mode == Waiting && w.u.op && w.armed
  }

  ghost predicate ParkedFor(w: Sys) {
    w.u.mode == Parked && !w.u.op && !w.armed && w.u.ring.waker
  }

  /**
    Out of buffers. When the receive armed last is refused for want of buffers,
    the reader parks if and only if no sub-buffer has been provided since it
    was armed, and if one has, it waits on a new receive.
   */
  lemma ParksIff(y: Sys, before: seq<Step>, m: Sys, arming: Step, after: seq<Step>, z: Sys)
    requires ArmedIn(y, before, m, arming, after, z) && Shape(z)
    requires z.u.mode == Waiting && z.cq != [] && z.cq[0] == NoBufs
    ensures var w := Apply(z, Pop);
            if z.u.ring.log == Apply(m, arming).u.ring.log then ParkedFor(w) else LiveReceive(w)
  {
    SinceArming(y, before, m, arming, after, z);
    StepKeeps(z, Pop);
  }

  /** A parked reader that is polled does the same. */
  lemma WakeArmsIff(y: Sys, before: seq<Step>, m: Sys, arming: Step, after: seq<Step>, z: Sys)
    requires ArmedIn(y, before, m, arming, after, z) && Shape(z) && z.u.mode == Parked && z.u.ring.woken
    ensures var w := Apply(z, Wake);
            if z.u.ring.log == Apply(m, arming).u.ring.log then ParkedFor(w) else LiveReceive(w)
  {
    SinceArming(y, before, m, arming, after, z);
    StepKeeps(z, Wake);
  }

  // ----- keeping a payload -----

  /** A payload is kept in place exactly when all of it lies in the sub-buffer. */
  lemma RetainsIff(y: Sys, steps: seq<Step>, z: Sys, tag: nat, k: nat, len: nat)
    requires Init(y) && Run(y, steps, z) && Shape(z) && Enabled(z, Retain(tag, k, len))
    ensures var w := Apply(z, Retain(tag, k, len));
            && (tag in w.pinned <==> z.u.cur.value.off + k + len <= z.cap)
            && (tag in w.pinned ==> w.pinned[tag].bid == z.u.cur.value.bid && w.pinned[tag].len == len)
            && (tag !in w.pinned ==> w == z)
  {
    Reached(y, steps, z);
  }

  // ----- no state is stuck -----

  /** Some step other than a failure of the socket can happen. */
  ghost predicate CanMove(z: Sys)
    requires Shape(z)
  {
    exists s: Step :: s != KFail && Enabled(z, s)
  }

  lemma ArmedMoves(z: Sys)
    requires Inv(z) && z.armed
    ensures CanMove(z)
  {
    if Q(z) == [] {
      assert Enabled(z, KNoBufs);
    } else if z.fed == |z.stream| {
      assert Enabled(z, KEof);
    } else {
      RoomLeft(z);
      assert Enabled(z, KFill(1, true));
    }
  }

  /** The kernel's next sub-buffer has room, and the stream has not been overrun. */
  lemma RoomLeft(z: Sys)
    requires Inv(z) && Q(z) != []
    ensures Filled(z, Q(z)[0]) < z.cap && z.fed <= |z.stream|
  {
    assert MemOk(z, Q(z)[0]) && PlaceOk(z, Q(z)[0], None);
  }

  /** Until it has closed, the reader or the kernel or the end of a borrow can always go on. */
  lemma NeverStuck(y: Sys, steps: seq<Step>, z: Sys)
    requires Init(y) && Run(y, steps, z) && z.u.mode != Closed
    ensures Shape(z) && CanMove(z)
  {
    Reached(y, steps, z);
    match z.u.mode {
      case Idle => assert Enabled(z, Fill);
      case Waiting =>
        if z.cq != [] {
          assert Enabled(z, Pop);
        } else {
          ArmedMoves(z);
        }
      case Parked =>
        if z.u.ring.woken {
          assert Enabled(z, Wake);
        } else {
          InvHeldBack(z, 0);
          var tag :| tag in z.pinned && z.pinned[tag].bid == 0;
          assert Enabled(z, Release(tag));
        }
    }
  }
}
