/**
  Every command the host sends is served as its route says: over any run the
  accepted ones have started or are on their way to, the refused ones have been
  answered or are about to be, and what one completion or one arrival leads to
  is exactly this.
 */
module RdmaServes {
  import opened Common
  import opened Pdu
  import opened Slots
  import opened RdmaState
  import opened RdmaSystem
  import opened RdmaProgress

  // ----- the ledger -----

  predicate Refuses(env: Env, sqe: Sqe) {
    env.route(sqe) == Reject
  }

  /** The commands of the list that will be refused, or those that will not. */
  function Count(env: Env, h: seq<Held>, refused: bool): nat {
    if h == [] then 0 else Bit(Refuses(env, h[0].sqe) == refused) + Count(env, h[1..], refused)
  }

  lemma {:induction false} CountSnocs(env: Env, h: seq<Held>, x: Held, refused: bool)
    ensures Count(env, h + [x], refused) == Count(env, h, refused) + Bit(Refuses(env, x.sqe) == refused)
  {
    if h != [] {
      assert (h + [x])[1..] == h[1..] + [x];
      CountSnocs(env, h[1..], x, refused);
    } else {
      assert h + [x] == [x] && [x][1..] == [];
    }
  }

  /** Tags whose command is to run: ready, or receiving its data. */
  function ToRun(state: seq<SlotState>): nat {
    CountOf(state, Ready) + CountOf(state, Receiving)
  }

  function Weight(s: SlotState): nat {
    Bit(s == Ready || s == Receiving)
  }

  lemma ToRunMoves(state: seq<SlotState>, tag: nat, v: SlotState)
    requires tag < |state|
    ensures ToRun(state[tag := v]) + Weight(state[tag]) == ToRun(state) + Weight(v)
  {
    CountUpdate(state, tag, v, Ready);
    CountUpdate(state, tag, v, Receiving);
  }

  /** Commands that will still run, and answers without a run that are still to be posted. */
  datatype Ledger = Ledger(live: nat, refusing: nat)

  function Books(env: Env, q: Q): Ledger {
    Ledger(ToRun(q.slots.state) + Count(env, q.arrived, false) + Count(env, q.parked, false),
           |q.resps| + Count(env, q.arrived, true) + Count(env, q.parked, true))
  }

  // ----- routing and drains -----

  /** A claimed tag goes on to run, or to answer, as its command's route says. */
  lemma RouteBooks(env: Env, q: Q, tag: nat, cmd: Held, z: Q)
    requires Sized(env, q) && tag < env.nslots && q.slots.Is(tag, Receiving) && EnvOk(env) && z == RouteCmd(env, q, tag, cmd)
    ensures z.arrived == q.arrived && z.parked == q.parked
    ensures ToRun(z.slots.state) + Bit(Refuses(env, cmd.sqe)) == ToRun(q.slots.state)
    ensures |z.resps| == |q.resps| + Bit(Refuses(env, cmd.sqe))
  {
    ToRunMoves(q.slots.state, tag, Ready);
    ToRunMoves(q.slots.state, tag, Responding);
  }

  lemma ClaimCounts(s: SlotsView)
    requires s.Sound() && s.free != []
    ensures ToRun(s.Claim().0.state) == ToRun(s.state) + 1
  {
    ClaimSound(s);
    ToRunMoves(s.state, s.free[|s.free| - 1], Receiving);
  }

  lemma {:induction false} DrainWaitBooks(env: Env, q: Q)
    ensures Books(env, DrainWait(env, q)) == Books(env, q)
    decreases |q.wait|
  {
    if q.wait != [] {
      var w := q.wait[0];
      if Sized(env, q) && w.tag < env.nslots && Fits(env, q, w.cmd.sqe) && 0 < env.route(w.cmd.sqe).pages
         && q.slots.Is(w.tag, Receiving) {
        var z := StageCmd(env, q, w.tag, w.cmd);
        StageBooks(env, q, w.tag, w.cmd, z);
        DrainWaitBooks(env, z.(wait := q.wait[1..]));
      }
    }
  }

  /** A waiting write that is staged still runs, and is never refused. */
  lemma StageBooks(env: Env, q: Q, tag: nat, cmd: Held, z: Q)
    requires Sized(env, q) && tag < env.nslots && Fits(env, q, cmd.sqe) && 0 < env.route(cmd.sqe).pages
    requires q.slots.Is(tag, Receiving) && z == StageCmd(env, q, tag, cmd)
    ensures ToRun(z.slots.state) == ToRun(q.slots.state) && z.resps == q.resps && z.arrived == q.arrived && z.parked == q.parked
  {
    ToRunMoves(q.slots.state, tag, Ready);
  }

  lemma {:induction false} DrainParkedBooks(env: Env, q: Q)
    requires Sized(env, q) && EnvOk(env) && q.slots.Sound()
    ensures Books(env, DrainParked(env, q)) == Books(env, q)
    decreases |q.parked|
  {
    if q.parked != [] && q.slots.free != [] {
      ClaimSound(q.slots);
      ClaimCounts(q.slots);
      var tag := q.slots.free[|q.slots.free| - 1];
      var q1 := q.(slots := q.slots.Claim().0, parked := q.parked[1..]);
      var q2 := RouteCmd(env, q1, tag, q.parked[0]);
      RouteKeepsSound(env, q1, tag, q.parked[0]);
      RouteBooks(env, q1, tag, q.parked[0], q2);
      DrainParkedBooks(env, q2);
    }
  }

  // ----- completions -----

  lemma ParkBooks(env: Env, q: Q, z: Q, cmd: Held, a: Held)
    requires q.arrived != [] && a == q.arrived[0] && cmd.sqe == a.sqe
    requires z.slots == q.slots && z.resps == q.resps && z.arrived == q.arrived[1..] && z.parked == q.parked + [cmd]
    ensures Books(env, z) == Books(env, q)
  {
    CountSnocs(env, q.parked, cmd, false);
    CountSnocs(env, q.parked, cmd, true);
  }

  lemma ClaimedBooks(env: Env, q: Q, q2: Q, tag: nat, cmd: Held)
    requires q.arrived != [] && cmd.sqe == q.arrived[0].sqe && q.slots.Sound() && q.slots.free != [] && EnvOk(env)
    requires tag == q.slots.free[|q.slots.free| - 1] && Sized(env, q2) && tag < env.nslots && q2.slots == q.slots.Claim().0
    requires q2.slots.Is(tag, Receiving) && q2.resps == q.resps && q2.arrived == q.arrived[1..] && q2.parked == q.parked
    ensures Books(env, RouteCmd(env, q2, tag, cmd)) == Books(env, q)
  {
    ClaimCounts(q.slots);
    RouteBooks(env, q2, tag, cmd, RouteCmd(env, q2, tag, cmd));
  }

  lemma RecvBooks(env: Env, q: Q)
    requires Sized(env, q) && q.slots.Sound() && q.arrived != [] && EnvOk(env)
    requires q.slots.free != [] ==> q.slots.free[|q.slots.free| - 1] < env.nslots
    requires !HandleRecv(env, q).overflow
    ensures Books(env, HandleRecv(env, q)) == Books(env, q)
  {
    var a := q.arrived[0];
    var cmd := Arrival(env, a);
    var q1 := q.(arrived := q.arrived[1..]);
    var q2 := if env.inline(a.sqe) then q1 else PostRecv(q1, a.idx);
    if q.slots.free == [] {
      ParkBooks(env, q, HandleRecv(env, q), cmd, a);
    } else {
      ClaimSound(q.slots);
      var tag := q.slots.free[|q.slots.free| - 1];
      ClaimedBooks(env, q, q2.(slots := q.slots.Claim().0), tag, cmd);
    }
  }

  lemma DoneBooks(env: Env, q: Q, tag: nat)
    requires tag < |q.inflight| && tag < |q.lease| && tag < |q.runs| && tag < |q.delivered| && q.slots.Is(tag, Responding)
    ensures Books(env, ResponseDone(q, tag)) == Books(env, q)
  {
    ToRunMoves(q.slots.state, tag, Free);
  }

  lemma HandleBooks(env: Env, q: Q, c: Comp)
    requires CanHandle(env, q, c) && q.slots.Sound() && !Handle(env, q, c).overflow
    ensures Books(env, Handle(env, q, c)) == Books(env, q)
  {
    match c
    case Recv => RecvBooks(env, q);
    case Read(tag) => ToRunMoves(q.slots.state, tag, Ready);
    case Write(tag) => DoneBooks(env, q.(writesOut := q.writesOut[tag := 0]), tag);
    case Send(tag) => DoneBooks(env, q.(sendOut := q.sendOut[tag := false]), tag);
  }

  lemma {:induction false} HandleAllBooks(env: Env, q: Q, full: multiset<nat>, comps: seq<Comp>)
    requires Core(env, q, full) && EnvOk(env) && Simple(full) && Reportable(env, q, comps)
    ensures Books(env, HandleAll(env, q, comps)) == Books(env, q)
    decreases |comps|
  {
    if comps != [] {
      HandleAllIs(env, q, full, comps);
      var z := Handle(env, q, comps[0]);
      HandleBooks(env, q, comps[0]);
      HandleAllBooks(env, z, full, comps[1..]);
    }
  }

  lemma LastBooks(env: Env, q: Q, z: Q)
    requires Sized(env, q) && EnvOk(env) && q.slots.Sound() && z == DrainParked(env, q)
    ensures |z.readsOut| == |z.runs| && Books(env, PostReads(z)) == Books(env, q)
  {
    DrainParkedBooks(env, q);
    DrainParkedSized(env, q);
    PostReadsFrame(z);
  }

  /** A poll, whatever it reports and whatever its drains do, neither loses a command nor refuses one it may run. */
  lemma PollBooks(env: Env, q: Q, full: multiset<nat>, comps: seq<Comp>)
    requires Core(env, q, full) && EnvOk(env) && Simple(full) && Reportable(env, q, comps)
    ensures Books(env, DoPoll(env, q, comps)) == Books(env, q)
  {
    var q0 := HandleAll(env, q, comps);
    HandleAllKeeps(env, q, full, comps);
    DrainWaitKeeps(env, q0, full);
    var q1 := DrainWait(env, q0);
    var q2 := DrainParked(env, q1);
    LastBooks(env, q1, q2);
    calc {
      Books(env, DoPoll(env, q, comps));
      Books(env, PostReads(q2));
      Books(env, q1);
      { DrainWaitBooks(env, q0); }
      Books(env, q0);
      { HandleAllBooks(env, q, full, comps); }
      Books(env, q);
    }
  }

  // ----- runs -----

  function Sends(env: Env, steps: seq<Step>, refused: bool): nat {
    if steps == [] then 0
    else Bit(steps[0].HostSend? && Refuses(env, steps[0].sqe) == refused) + Sends(env, steps[1..], refused)
  }

  function Starts(steps: seq<Step>): nat {
    if steps == [] then 0 else Bit(steps[0].StartCmd?) + Starts(steps[1..])
  }

  function Finishes(steps: seq<Step>): nat {
    if steps == [] then 0 else Bit(steps[0].Finish?) + Finishes(steps[1..])
  }

  function Posts(steps: seq<Step>): nat {
    if steps == [] then 0 else Bit(steps[0].PostResponse?) + Posts(steps[1..])
  }

  lemma SendBooks(env: Env, q: Q, sqe: Sqe, idx: nat, z: Q)
    requires z.slots == q.slots && z.parked == q.parked && z.resps == q.resps && z.arrived == q.arrived + [Held(sqe, Some(idx))]
    ensures Books(env, z).live == Books(env, q).live + Bit(!Refuses(env, sqe))
    ensures Books(env, z).refusing == Books(env, q).refusing + Bit(Refuses(env, sqe))
  {
    CountSnocs(env, q.arrived, Held(sqe, Some(idx)), false);
    CountSnocs(env, q.arrived, Held(sqe, Some(idx)), true);
  }

  lemma MoveBooks(env: Env, q: Q, s: Step, tag: nat)
    requires Sized(env, q) && EnvOk(env) && Enabled(env, q, s) && (s == StartCmd(tag) || (s.Finish? && s.tag == tag))
    ensures var a, z := Books(env, q), Books(env, Apply(env, q, s));
            z.live + Bit(s.StartCmd?) == a.live && z.refusing == a.refusing + Bit(s.Finish?)
  {
    ToRunMoves(q.slots.state, tag, if s.StartCmd? then Executing else Responding);
  }

  lemma StepBooks(env: Env, q: Q, full: multiset<nat>, s: Step)
    requires Inv(env, q, full) && EnvOk(env) && Simple(full) && Enabled(env, q, s)
    ensures var a, z := Books(env, q), Books(env, Apply(env, q, s));
            && z.live + Bit(s.StartCmd?) == a.live + Bit(s.HostSend? && !Refuses(env, s.sqe))
            && z.refusing + Bit(s.PostResponse?) == a.refusing + Bit(s.Finish?) + Bit(s.HostSend? && Refuses(env, s.sqe))
  {
    match s
    case HostSend(sqe, idx) => SendBooks(env, q, sqe, idx, Apply(env, q, s));
    case StartCmd(tag) => MoveBooks(env, q, s, tag);
    case Finish(tag, _) => MoveBooks(env, q, s, tag);
    case Poll(comps) => PollBooks(env, q, full, comps);
    case _ =>
  }

  lemma {:induction false} RunBooks(env: Env, q: Q, full: multiset<nat>, steps: seq<Step>, z: Q)
    requires Inv(env, q, full) && EnvOk(env) && Simple(full) && Run(env, q, steps, z)
    ensures Books(env, z).live + Starts(steps) == Books(env, q).live + Sends(env, steps, false)
    ensures Books(env, z).refusing + Posts(steps) == Books(env, q).refusing + Finishes(steps) + Sends(env, steps, true)
    decreases steps
  {
    if steps != [] {
      StepBooks(env, q, full, steps[0]);
      StepKeeps(env, q, full, steps[0]);
      RunBooks(env, Apply(env, q, steps[0]), full, steps[1..], z);
    }
  }

  lemma {:induction false} NoneToRun(state: seq<SlotState>)
    requires forall t :: 0 <= t < |state| ==> state[t] == Free
    ensures ToRun(state) == 0
  {
    if state != [] {
      NoneToRun(state[1..]);
    }
  }

  /**
    Every command runs or is refused. Over any run, the commands the host sent
    that are not to be refused have started, or are ready, receiving, parked or
    arriving; and the answers posted or queued are those of finished commands
    and of the refused ones, no more and no fewer.
   */
  lemma EveryCommandIsServed(env: Env, q: Q, steps: seq<Step>, z: Q)
    requires Init(env, q) && EnvOk(env) && Run(env, q, steps, z)
    ensures Starts(steps) + ToRun(z.slots.state) + Count(env, z.arrived, false) + Count(env, z.parked, false) ==
            Sends(env, steps, false)
    ensures Posts(steps) + |z.resps| + Count(env, z.arrived, true) + Count(env, z.parked, true) ==
            Finishes(steps) + Sends(env, steps, true)
  {
    InitKeeps(env, q);
    NoneToRun(q.slots.state);
    RunBooks(env, q, multiset(q.posted), steps, z);
  }

  // ----- one completion -----

  /** All of a lease's READs, or WRITEs, are outstanding, or none. */
  lemma OnePerRun(env: Env, q: Q, steps: seq<Step>, z: Q, t: nat)
    requires Init(env, q) && EnvOk(env) && Run(env, q, steps, z) && t < env.nslots
    ensures Sized(env, z) && (z.readsOut[t] > 0 ==> z.readsOut[t] == z.runs[t]) && (z.writesOut[t] > 0 ==> z.writesOut[t] == z.runs[t])
    ensures z.slots.Is(t, Receiving) && t !in WaitTags(z.wait) ==> z.readsOut[t] == z.runs[t] > 0
  {
    Reached(env, q, steps, z);
    assert TagOk(Tag(z, t));
    assert t in WaitTags(z.wait) <==> multiset(WaitTags(z.wait))[t] > 0;
  }

  /** Posting a response: one WRITE per run if it has data, none if not, and a SEND. */
  lemma ResponseIsPosted(env: Env, q: Q, steps: seq<Step>, z: Q)
    requires Init(env, q) && EnvOk(env) && Run(env, q, steps, z) && z.resps != []
    ensures Sized(env, z) && Enabled(env, z, PostResponse)
    ensures var r, w := z.resps[0], Apply(env, z, PostResponse);
            && w.resps == z.resps[1..] && w.sendOut[r.tag] && w.writesOut[r.tag] == (if r.data then z.runs[r.tag] else 0)
            && (r.data ==> z.runs[r.tag] > 0) && w.inflight[r.tag] == 1 + Bit(r.data)
  {
    Reached(env, q, steps, z);
    RespHas(z.resps, 0);
    assert TagOk(Tag(z, z.resps[0].tag));
  }

  /** The READs of a command complete: it is ready to run. */
  lemma ReadMakesReady(env: Env, q: Q, steps: seq<Step>, z: Q, t: nat)
    requires Init(env, q) && EnvOk(env) && Run(env, q, steps, z) && t < env.nslots && Sized(env, z) && z.readsOut[t] > 0
    ensures CanHandle(env, z, Read(t)) && Handle(env, z, Read(t)).slots.Is(t, Ready)
  {
    Reached(env, q, steps, z);
    CompLands(env, z, Read(t));
  }

  /** A lease may come in any number of runs from one to its pages. */
  lemma AnyRuns(env: Env, q: Q, tag: nat, pages: nat, runs: nat)
    requires tag < |q.lease| && tag < |q.runs| && 0 < runs <= pages <= q.free && env.frag(q.leased) == runs - 1
    ensures TakeLease(env, q, tag, pages).runs[tag] == runs
  {
  }

  // ----- one arrival -----

  /** What a command's route makes of a received command that finds the free tag `tag`. */
  ghost predicate Routed(env: Env, z: Q, y: Q, a: Held, tag: nat)
    requires Sized(env, z) && Sized(env, y) && tag < env.nslots
  {
    match env.route(a.sqe)
    case Pass => y.slots.Is(tag, Ready) && y.resps == z.resps && y.wait == z.wait && y.lease == z.lease
    case Reject => y.slots.Is(tag, Responding) && y.resps == z.resps + [Resp(tag, false)] && y.wait == z.wait && y.lease == z.lease
    case Stage(pages) =>
      && y.resps == z.resps
      && if pages > z.free then y.slots.Is(tag, Receiving) && y.wait == z.wait + [Wait(tag, Arrival(env, a))]
         else
           && y.wait == z.wait && y.lease == z.lease[tag := pages]
           && y.slots.Is(tag, if env.inline(a.sqe) then Ready else Receiving)
  }

  lemma RouteRoutes(env: Env, q: Q, tag: nat, cmd: Held, h: Q)
    requires Sized(env, q) && tag < env.nslots && EnvOk(env) && q.slots.Is(tag, Receiving) && h == RouteCmd(env, q, tag, cmd)
    requires cmd.idx.Some? <==> env.inline(cmd.sqe)
    ensures Sized(env, h) && h.parked == q.parked && h.free <= q.free
    ensures match env.route(cmd.sqe)
            case Pass => h.slots == q.slots.Submit(tag) && h.resps == q.resps && h.wait == q.wait && h.lease == q.lease
            case Reject =>
              h.slots == q.slots.RespondReceiving(tag) && h.resps == q.resps + [Resp(tag, false)] && h.wait == q.wait && h.lease == q.lease
            case Stage(pages) =>
              && h.resps == q.resps
              && if pages > q.free then h.slots == q.slots && h.wait == q.wait + [Wait(tag, cmd)]
                 else h.wait == q.wait && h.lease == q.lease[tag := pages]
                      && h.slots == if env.inline(cmd.sqe) then q.slots.Submit(tag) else q.slots
  {
  }

  lemma RecvRoutes(env: Env, z: Q, h: Q)
    requires Sized(env, z) && EnvOk(env) && z.arrived != [] && z.slots.free != [] && LastFree(z) < env.nslots
    requires z.arrived[0].idx.Some? && z.slots.Sound() && h == HandleRecv(env, z)
    ensures Sized(env, h) && h.parked == z.parked && h.free <= z.free && h.slots.Sound() && Routed(env, z, h, z.arrived[0], LastFree(z))
  {
    var a := z.arrived[0];
    var q1 := z.(arrived := z.arrived[1..], slots := z.slots.Claim().0);
    var q := if env.inline(a.sqe) then q1 else PostRecv(q1, a.idx);
    ClaimSound(z.slots);
    LifeSound(q.slots, LastFree(z));
    RouteRoutes(env, q, LastFree(z), Arrival(env, a), h);
  }

  /**
    In every reachable state, a poll that receives a command: with no tag free
    the command is parked, last; with one it is routed as its route says, and
    nothing else changes hands.
   */
  lemma ArrivalIsServed(env: Env, q: Q, steps: seq<Step>, z: Q)
    requires Init(env, q) && EnvOk(env) && Run(env, q, steps, z) && z.arrived != []
    ensures Sized(env, z) && Reportable(env, z, [Recv]) && Sized(env, DoPoll(env, z, [Recv]))
    ensures var y := DoPoll(env, z, [Recv]);
            if z.slots.free == [] then y.parked == z.parked + [Arrival(env, z.arrived[0])] && y.slots == z.slots && y.resps == z.resps
            else LastFree(z) < env.nslots && Routed(env, z, y, z.arrived[0], LastFree(z))
  {
    Reached(env, q, steps, z);
    ArrivalPolls(env, z, multiset(q.posted));
  }

  lemma ArrivalPolls(env: Env, z: Q, full: multiset<nat>)
    requires EnvOk(env) && z.arrived != [] && Inv(env, z, full)
    ensures Reportable(env, z, [Recv]) && Sized(env, DoPoll(env, z, [Recv]))
    ensures var y := DoPoll(env, z, [Recv]);
            if z.slots.free == [] then y.parked == z.parked + [Arrival(env, z.arrived[0])] && y.slots == z.slots && y.resps == z.resps
            else LastFree(z) < env.nslots && Routed(env, z, y, z.arrived[0], LastFree(z))
  {
    if z.slots.free != [] {
      assert LastFree(z) in z.slots.free;
      ClaimPolls(env, z, HandleRecv(env, z));
    } else {
      ParkPolls(env, z, HandleRecv(env, z));
    }
  }

  lemma PostedStaysRouted(env: Env, z: Q, h: Q, y: Q, a: Held, tag: nat)
    requires Sized(env, z) && Sized(env, h) && tag < env.nslots && Routed(env, z, h, a, tag) && y == PostReads(h)
    ensures Sized(env, y) && Routed(env, z, y, a, tag)
  {
    PostReadsFrame(h);
  }

  lemma StillWaits(env: Env, z: Q, h: Q, a: Held, tag: nat)
    requires Sized(env, z) && Sized(env, h) && tag < env.nslots && Routed(env, z, h, a, tag) && h.free <= z.free
    requires z.wait != [] ==> !Fits(env, z, z.wait[0].cmd.sqe)
    ensures h.wait != [] ==> !Fits(env, h, h.wait[0].cmd.sqe)
  {
  }

  lemma ClaimPolls(env: Env, z: Q, h: Q)
    requires Sized(env, z) && EnvOk(env) && z.slots.Sound() && z.arrived != [] && z.arrived[0].idx.Some?
    requires z.slots.free != [] && LastFree(z) < env.nslots && z.parked == [] && h == HandleRecv(env, z)
    requires z.wait != [] ==> !Fits(env, z, z.wait[0].cmd.sqe)
    ensures Reportable(env, z, [Recv])
    ensures var y := DoPoll(env, z, [Recv]); Sized(env, y) && Routed(env, z, y, z.arrived[0], LastFree(z))
  {
    RecvRoutes(env, z, h);
    StillWaits(env, z, h, z.arrived[0], LastFree(z));
    PollOne(env, z, Recv, h);
    PostedStaysRouted(env, z, h, DoPoll(env, z, [Recv]), z.arrived[0], LastFree(z));
  }

  lemma ParkPolls(env: Env, z: Q, h: Q)
    requires Sized(env, z) && EnvOk(env) && z.slots.Sound() && z.arrived != [] && z.slots.free == [] && h == HandleRecv(env, z)
    requires |z.parked| < env.nslots && z.batch == [] && (z.wait != [] ==> !Fits(env, z, z.wait[0].cmd.sqe))
    ensures Reportable(env, z, [Recv]) && DoPoll(env, z, [Recv]) == h && h.parked == z.parked + [Arrival(env, z.arrived[0])]
    ensures h.slots == z.slots && h.resps == z.resps && Sized(env, h)
  {
    assert [Recv][1..] == [];
    assert HandleAll(env, h, []) == h && HandleAll(env, z, [Recv]) == HandleAll(env, h, [Recv][1..]);
  }
}
