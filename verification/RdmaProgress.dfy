/**
  What the queue's invariant means for every run: pages and capsule buffers are
  conserved, deferred work always has something ahead of it that moves, the
  send queue has room, and when a new write overtakes the waiting ones.
 */
module RdmaProgress {
  import opened Common
  import opened Slots
  import opened RdmaState
  import opened RdmaSystem

  lemma Reached(env: Env, q: Q, steps: seq<Step>, z: Q)
    requires Init(env, q) && EnvOk(env) && Run(env, q, steps, z)
    ensures Inv(env, z, multiset(q.posted)) && Simple(multiset(q.posted))
  {
    InitKeeps(env, q);
    RunKeeps(env, q, multiset(q.posted), steps, z);
  }

  /**
    Conservation: in every reachable state the leased and the free pages are the
    pool, and every capsule buffer is posted or held by exactly one command that
    has arrived, is parked or waits for pages.
   */
  lemma PagesAndBuffersAreConserved(env: Env, q: Q, steps: seq<Step>, z: Q)
    requires Init(env, q) && EnvOk(env) && Run(env, q, steps, z)
    ensures Sum(z.lease) + z.free == env.pool
    ensures multiset(z.posted) + HeldBufs(z.arrived) + HeldBufs(z.parked) + WaitBufs(z.wait) == multiset(q.posted)
    ensures forall t :: 0 <= t < env.nslots ==> |z.lease| == env.nslots && (z.slots.Is(t, Free) ==> z.lease[t] == 0)
  {
    Reached(env, q, steps, z);
    forall t | 0 <= t < env.nslots ensures z.slots.Is(t, Free) ==> z.lease[t] == 0 {
      assert TagOk(Tag(z, t));
    }
  }

  // ----- progress -----

  /** The command is on its way: to run, running, reading its data, or answering. */
  ghost predicate Moving(z: Q, t: nat) {
    || z.slots.Is(t, Ready) || z.slots.Is(t, Executing)
    || (t < |z.readsOut| && z.readsOut[t] > 0)
    || (z.slots.Is(t, Responding) && (t in RespTags(z.resps) || (t < |z.inflight| && z.inflight[t] > 0)))
  }

  /** Between polls a tag that is taken and does not wait for pages is on its way. */
  lemma TakenMoves(env: Env, z: Q, full: multiset<nat>, t: nat)
    requires Inv(env, z, full) && t < env.nslots && !z.slots.Is(t, Free) && t !in WaitTags(z.wait)
    ensures Moving(z, t)
  {
    assert TagOk(Tag(z, t));
    assert multiset(WaitTags(z.wait))[t] == 0 && multiset(z.batch)[t] == 0;
    assert t in RespTags(z.resps) <==> multiset(RespTags(z.resps))[t] > 0;
  }

  /** A tag that holds pages is not waiting for any, so it is on its way. */
  lemma HolderMoves(env: Env, z: Q, full: multiset<nat>)
    requires Inv(env, z, full) && Sum(z.lease) > 0
    ensures exists t :: 0 <= t < |z.lease| && z.lease[t] > 0 && Moving(z, t)
  {
    SomeLease(z.lease);
    var t :| 0 <= t < env.nslots && z.lease[t] > 0;
    assert TagOk(Tag(z, t));
    assert t in WaitTags(z.wait) <==> multiset(WaitTags(z.wait))[t] > 0;
    TakenMoves(env, z, full, t);
  }

  lemma ParkedMoves(env: Env, z: Q, full: multiset<nat>)
    requires Inv(env, z, full) && z.parked != [] && z.wait == []
    ensures |z.lease| > 0 && Moving(z, 0)
  {
    assert env.nslots > 0;
    assert 0 in z.slots.free <==> z.slots.Is(0, Free);
    TakenMoves(env, z, full, 0);
  }

  /**
    Deferral makes progress: in every reachable state with a pool of at least one
    largest transfer, if a command is parked or waits for pages, some tag is on
    its way that already holds pages, or could get any it asks for; and if one
    waits for pages, it is a tag that holds some.
   */
  lemma DeferralMakesProgress(env: Env, q: Q, steps: seq<Step>, z: Q)
    requires Init(env, q) && EnvOk(env) && Run(env, q, steps, z) && env.pool >= MAX_PAGES && (z.parked != [] || z.wait != [])
    ensures exists t :: 0 <= t < |z.lease| && Moving(z, t) && (z.lease[t] > 0 || (z.wait == [] && z.free >= MAX_PAGES))
  {
    Reached(env, q, steps, z);
    if z.free < MAX_PAGES {
      HolderMoves(env, z, multiset(q.posted));
    } else {
      ParkedMoves(env, z, multiset(q.posted));
    }
  }

  // ----- the send queue -----

  function CountTrue(s: seq<bool>): nat {
    if s == [] then 0 else Bit(s[0]) + CountTrue(s[1..])
  }

  /** Work requests the NIC has not completed: READs, WRITEs and SENDs. */
  function Outstanding(q: Q): nat {
    Sum(q.readsOut) + Sum(q.writesOut) + CountTrue(q.sendOut)
  }

  /** The send queue's size, as it is built for an IO queue. */
  function SqWrs(grains: nat, sqsize: nat): nat {
    var want := 2 * (if grains > 1 then grains else 1) + sqsize + 16;
    var low := sqsize * 2 + 8;
    if want < low then low else if want > 16384 then 16384 else want
  }

  lemma {:induction false} CountTrueBound(s: seq<bool>)
    ensures CountTrue(s) <= |s|
  {
    if s != [] {
      CountTrueBound(s[1..]);
    }
  }

  /** Two tables that together never exceed a third, tag by tag. */
  lemma {:induction false} SumsBelow(a: seq<nat>, b: seq<nat>, c: seq<nat>)
    requires |a| == |b| == |c| && forall t :: 0 <= t < |a| ==> a[t] + b[t] <= c[t]
    ensures Sum(a) + Sum(b) <= Sum(c)
  {
    if a != [] {
      SumsBelow(a[1..], b[1..], c[1..]);
    }
  }

  lemma {:induction false} SumAtMost(c: seq<nat>)
    requires forall t :: 0 <= t < |c| ==> c[t] <= MAX_PAGES
    ensures Sum(c) <= MAX_PAGES * |c|
  {
    if c != [] {
      SumAtMost(c[1..]);
    }
  }

  /** A tag's READs and WRITEs exclude each other, and neither exceeds the runs of its lease. */
  lemma OutstandingBound(env: Env, z: Q, full: multiset<nat>)
    requires Core(env, z, full)
    ensures Outstanding(z) <= env.pool + env.nslots && Outstanding(z) <= MAX_PAGES * env.nslots + env.nslots
  {
    forall t | 0 <= t < env.nslots ensures z.readsOut[t] + z.writesOut[t] <= z.lease[t] <= MAX_PAGES {
      assert TagOk(Tag(z, t));
    }
    SumsBelow(z.readsOut, z.writesOut, z.lease);
    SumAtMost(z.lease);
    CountTrueBound(z.sendOut);
  }

  /**
    Send-queue bound, on an IO queue: the outstanding work requests never exceed
    one per pool page plus one per slot, nor 33 per slot; so they fit the send
    queue unless its clamp is below both.
   */
  lemma SendQueueNeverOverflows(env: Env, q: Q, steps: seq<Step>, z: Q)
    requires Init(env, q) && EnvOk(env) && Run(env, q, steps, z)
    ensures Outstanding(z) <= env.pool + env.nslots && Outstanding(z) <= 33 * env.nslots
    ensures env.pool + env.nslots <= 16384 || 33 * env.nslots <= 16384 ==> Outstanding(z) <= SqWrs(env.pool, env.nslots)
  {
    Reached(env, q, steps, z);
    OutstandingBound(env, z, multiset(q.posted));
  }

  // ----- one poll -----

  /** A poll of one completion after which nothing that was deferred can go ahead. */
  lemma PollOne(env: Env, q: Q, c: Comp, h: Q)
    requires CanHandle(env, q, c) && h == Handle(env, q, c)
    requires Sized(env, h) && EnvOk(env) && h.slots.Sound() && h.parked == []
    requires h.wait != [] ==> !Fits(env, h, h.wait[0].cmd.sqe)
    ensures DoPoll(env, q, [c]) == PostReads(h) && Reportable(env, q, [c])
  {
    assert [c][1..] == [];
    assert HandleAll(env, h, []) == h;
    assert HandleAll(env, q, [c]) == HandleAll(env, h, [c][1..]);
  }

  lemma {:induction false} PostReadsFrame(q: Q)
    requires |q.readsOut| == |q.runs|
    ensures var z := PostReads(q); z == q.(batch := [], readsOut := z.readsOut) && |z.readsOut| == |q.readsOut|
    decreases |q.batch|
  {
    if q.batch != [] {
      var tag := q.batch[0];
      PostReadsFrame(q.(batch := q.batch[1..],
                        readsOut := if tag < |q.runs| then q.readsOut[tag := q.runs[tag]] else q.readsOut));
    }
  }

  // ----- overtaking -----

  ghost function LastFree(q: Q): nat
    requires q.slots.free != []
  {
    q.slots.free[|q.slots.free| - 1]
  }

  /** The command a newly received capsule becomes. */
  function Arrival(env: Env, a: Held): Held {
    Held(a.sqe, if env.inline(a.sqe) then a.idx else None)
  }

  /** A received write that finds a free tag is staged if its pages are free, and waits behind the others if not. */
  ghost predicate Placed(env: Env, z: Q, a: Held, y: Q) {
    && z.slots.free != [] && |z.lease| == |y.lease| && LastFree(z) < |z.lease| && env.route(a.sqe).Stage?
    && (if env.route(a.sqe).pages <= z.free
        then y.wait == z.wait && y.lease == z.lease[LastFree(z) := env.route(a.sqe).pages]
        else y.wait == z.wait + [Wait(LastFree(z), Arrival(env, a))] && y.lease == z.lease)
  }

  /** The tag `tag` is claimed for a write, and the write has its pages or waits. */
  lemma RouteIs(env: Env, q: Q, tag: nat, cmd: Held, h: Q)
    requires Sized(env, q) && EnvOk(env) && q.slots.Is(tag, Receiving) && env.route(cmd.sqe).Stage? && h == RouteCmd(env, q, tag, cmd)
    ensures Sized(env, h) && h.parked == q.parked && h.free <= q.free
    ensures h.slots == q.slots || h.slots == q.slots.Submit(tag)
    ensures if env.route(cmd.sqe).pages <= q.free then h.wait == q.wait && h.lease == q.lease[tag := env.route(cmd.sqe).pages]
            else h.wait == q.wait + [Wait(tag, cmd)] && h.lease == q.lease
  {
  }

  lemma ArrivalIs(env: Env, z: Q, h: Q)
    requires Sized(env, z) && EnvOk(env) && z.arrived != [] && z.slots.free != [] && LastFree(z) < env.nslots
    requires env.route(z.arrived[0].sqe).Stage? && h == HandleRecv(env, z)
    ensures Sized(env, h) && h.parked == z.parked && h.free <= z.free && Placed(env, z, z.arrived[0], h)
    ensures var s := z.slots.Claim().0; s.Is(LastFree(z), Receiving) && (h.slots == s || h.slots == s.Submit(LastFree(z)))
  {
    var a := z.arrived[0];
    var q1 := z.(arrived := z.arrived[1..], slots := z.slots.Claim().0);
    var q := if env.inline(a.sqe) then q1 else PostRecv(q1, a.idx);
    RouteIs(env, q, LastFree(z), Arrival(env, a), h);
  }

  lemma PollArrival(env: Env, z: Q, full: multiset<nat>)
    requires z.wait != [] && z.arrived != [] && z.slots.free != [] && env.route(z.arrived[0].sqe).Stage?
    requires EnvOk(env) && Inv(env, z, full)
    ensures Reportable(env, z, [Recv]) && Placed(env, z, z.arrived[0], DoPoll(env, z, [Recv]))
  {
    assert LastFree(z) in z.slots.free;
    var h := HandleRecv(env, z);
    ArrivalIs(env, z, h);
    ClaimSound(z.slots);
    LifeSound(z.slots.Claim().0, LastFree(z));
    PollOne(env, z, Recv, h);
    PostReadsFrame(h);
  }

  /**
    Overtaking. In every reachable state in which a write waits for pages, a
    poll that receives a new write can happen, and stages the new one ahead of
    every waiting one exactly when its own pages are free, which are then fewer
    than the first of them asks for; otherwise it waits behind them.
   */
  lemma OvertakesIff(env: Env, q: Q, steps: seq<Step>, z: Q)
    requires Init(env, q) && EnvOk(env) && Run(env, q, steps, z)
    requires z.wait != [] && z.arrived != [] && z.slots.free != [] && env.route(z.arrived[0].sqe).Stage?
    ensures Reportable(env, z, [Recv]) && Placed(env, z, z.arrived[0], DoPoll(env, z, [Recv]))
    ensures env.route(z.wait[0].cmd.sqe).Stage?
    ensures env.route(z.arrived[0].sqe).pages <= z.free ==>
              env.route(z.arrived[0].sqe).pages < env.route(z.wait[0].cmd.sqe).pages
  {
    Reached(env, q, steps, z);
    PollArrival(env, z, multiset(q.posted));
  }
}
