/**
  First come, first served: received capsules, parked commands, writes waiting
  for pages and queued responses each leave their queue in the order they
  joined it, whatever happens in between.
 */
module RdmaOrder {
  import opened Common
  import opened Slots
  import opened RdmaState
  import opened RdmaSystem

  /** What is left of `a` in the later queue `b`: its latest, in order, in front of all that joined since. */
  ghost predicate Later<T>(a: seq<T>, b: seq<T>) {
    exists n: nat :: n <= |a| && a[n..] <= b
  }

  lemma Same<T>(a: seq<T>)
    ensures Later(a, a)
  {
    assert a[0..] <= a;
  }

  lemma Joins<T>(a: seq<T>, x: T)
    ensures Later(a, a + [x])
  {
    assert a[0..] <= a + [x];
  }

  lemma Leaves<T>(a: seq<T>)
    requires a != []
    ensures Later(a, a[1..])
  {
  }

  lemma Onward<T>(a: seq<T>, b: seq<T>, c: seq<T>)
    requires Later(a, b) && Later(b, c)
    ensures Later(a, c)
  {
    var n: nat :| n <= |a| && a[n..] <= b;
    var m: nat :| m <= |b| && b[m..] <= c;
    if m <= |a| - n {
      assert a[n + m..] == b[m..|a| - n];
      assert a[n + m..] <= c;
    } else {
      assert a[|a|..] <= c;
    }
  }

  ghost predicate InTurn(q: Q, z: Q) {
    Later(q.arrived, z.arrived) && Later(q.parked, z.parked) && Later(q.wait, z.wait) && Later(q.resps, z.resps)
  }

  lemma Unmoved(q: Q, z: Q)
    requires z.arrived == q.arrived && z.parked == q.parked && z.wait == q.wait && z.resps == q.resps
    ensures InTurn(q, z)
  {
    Same(q.arrived);
    Same(q.parked);
    Same(q.wait);
    Same(q.resps);
  }

  lemma Through(q: Q, m: Q, z: Q)
    requires InTurn(q, m) && InTurn(m, z)
    ensures InTurn(q, z)
  {
    Onward(q.arrived, m.arrived, z.arrived);
    Onward(q.parked, m.parked, z.parked);
    Onward(q.wait, m.wait, z.wait);
    Onward(q.resps, m.resps, z.resps);
  }

  lemma RouteInTurn(env: Env, q: Q, tag: nat, cmd: Held)
    requires Sized(env, q) && tag < env.nslots && q.slots.Is(tag, Receiving) && EnvOk(env)
    ensures InTurn(q, RouteCmd(env, q, tag, cmd))
  {
    Unmoved(q, q);
    Joins(q.wait, Wait(tag, cmd));
    Joins(q.resps, Resp(tag, false));
  }

  lemma RecvInTurn(env: Env, q: Q)
    requires Sized(env, q) && q.arrived != [] && EnvOk(env)
    requires q.slots.free != [] ==> q.slots.free[|q.slots.free| - 1] < env.nslots
    ensures InTurn(q, HandleRecv(env, q))
  {
    var a := q.arrived[0];
    var cmd := Held(a.sqe, if env.inline(a.sqe) then a.idx else None);
    var q1 := q.(arrived := q.arrived[1..], slots := q.slots.Claim().0);
    var q2 := if env.inline(a.sqe) then q1 else PostRecv(q1, a.idx);
    Unmoved(q, q);
    Leaves(q.arrived);
    Joins(q.parked, cmd);
    if q.slots.free != [] {
      var tag := q.slots.free[|q.slots.free| - 1];
      RouteInTurn(env, q2, tag, cmd);
      Through(q, q2, RouteCmd(env, q2, tag, cmd));
    }
  }

  lemma HandleInTurn(env: Env, q: Q, c: Comp)
    requires CanHandle(env, q, c)
    ensures InTurn(q, Handle(env, q, c))
  {
    if c.Recv? {
      RecvInTurn(env, q);
    } else {
      Unmoved(q, Handle(env, q, c));
    }
  }

  lemma {:induction false} HandleAllInTurn(env: Env, q: Q, comps: seq<Comp>)
    ensures InTurn(q, HandleAll(env, q, comps))
    decreases |comps|
  {
    if comps == [] || !CanHandle(env, q, comps[0]) {
      Unmoved(q, q);
    } else {
      var z := Handle(env, q, comps[0]);
      HandleInTurn(env, q, comps[0]);
      HandleAllInTurn(env, z, comps[1..]);
      Through(q, z, HandleAll(env, z, comps[1..]));
    }
  }

  lemma {:induction false} DrainWaitInTurn(env: Env, q: Q)
    ensures InTurn(q, DrainWait(env, q))
    decreases |q.wait|
  {
    Unmoved(q, q);
    if q.wait != [] {
      var w := q.wait[0];
      if Stageable(env, q, w) {
        var z := StageCmd(env, q, w.tag, w.cmd).(wait := q.wait[1..]);
        Leaves(q.wait);
        assert InTurn(q, z);
        DrainWaitInTurn(env, z);
        Through(q, z, DrainWait(env, z));
      }
    }
  }

  lemma {:induction false} DrainParkedInTurn(env: Env, q: Q)
    requires Sized(env, q) && EnvOk(env) && q.slots.Sound()
    ensures InTurn(q, DrainParked(env, q))
    decreases |q.parked|
  {
    Unmoved(q, q);
    if q.parked != [] && q.slots.free != [] {
      ClaimSound(q.slots);
      var tag := q.slots.free[|q.slots.free| - 1];
      var q1 := q.(slots := q.slots.Claim().0, parked := q.parked[1..]);
      var q2 := RouteCmd(env, q1, tag, q.parked[0]);
      Leaves(q.parked);
      RouteInTurn(env, q1, tag, q.parked[0]);
      Through(q, q1, q2);
      RouteKeepsSound(env, q1, tag, q.parked[0]);
      DrainParkedInTurn(env, q2);
      Through(q, q2, DrainParked(env, q2));
    }
  }

  lemma PollInTurn(env: Env, q: Q, comps: seq<Comp>)
    ensures InTurn(q, DoPoll(env, q, comps))
  {
    var q0 := HandleAll(env, q, comps);
    var q1 := DrainWait(env, q0);
    HandleAllInTurn(env, q, comps);
    DrainWaitInTurn(env, q0);
    Through(q, q0, q1);
    if Sized(env, q1) && EnvOk(env) && q1.slots.Sound() {
      var q2 := DrainParked(env, q1);
      DrainParkedInTurn(env, q1);
      Through(q, q1, q2);
      if |q2.readsOut| == |q2.runs| {
        PostReadsInTurn(q2);
        Through(q, q2, PostReads(q2));
      }
    }
  }

  lemma {:induction false} PostReadsInTurn(q: Q)
    requires |q.readsOut| == |q.runs|
    ensures InTurn(q, PostReads(q))
    decreases |q.batch|
  {
    Unmoved(q, q);
    if q.batch != [] {
      var tag := q.batch[0];
      var z := q.(batch := q.batch[1..], readsOut := if tag < |q.runs| then q.readsOut[tag := q.runs[tag]] else q.readsOut);
      Unmoved(q, z);
      PostReadsInTurn(z);
      Through(q, z, PostReads(z));
    }
  }

  lemma StepInTurn(env: Env, q: Q, s: Step)
    requires Sized(env, q) && Enabled(env, q, s)
    ensures InTurn(q, Apply(env, q, s))
  {
    Unmoved(q, q);
    match s
    case HostSend(sqe, idx) => Joins(q.arrived, Held(sqe, Some(idx)));
    case Finish(tag, data) => Joins(q.resps, Resp(tag, data));
    case PostResponse => Leaves(q.resps);
    case Poll(comps) => PollInTurn(env, q, comps);
    case _ =>
  }

  /** Over any run, each queue is served in the order it was joined. */
  lemma {:induction false} ServedInTurn(env: Env, q: Q, steps: seq<Step>, z: Q)
    requires Run(env, q, steps, z)
    ensures InTurn(q, z)
    decreases steps
  {
    if steps == [] {
      Unmoved(q, q);
    } else {
      var m := Apply(env, q, steps[0]);
      StepInTurn(env, q, steps[0]);
      ServedInTurn(env, m, steps[1..], z);
      Through(q, m, z);
    }
  }
}
