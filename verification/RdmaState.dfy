/**
  The RDMA queue after Connect: capsule receive buffers, commands parked for a
  tag, writes waiting for pool pages, host-data READs and response WRs, as
  functions of the queue's state.
 */
module RdmaState {
  import opened Common
  import opened Pdu
  import opened Slots

  /** What a command asks of the transport: nothing, a refusal, or a staging buffer. */
  datatype Route = Pass | Reject | Stage(pages: nat)

  /**
    The decode of a command (`inline` if its payload is in the capsule), and how
    many runs the pool happens to give the `k`-th lease.
   */
  datatype Env = Env(route: Sqe -> Route, inline: Sqe -> bool, frag: nat -> nat, nslots: nat, pool: nat)

  /** The largest transfer is 128 KiB. */
  const MAX_PAGES: nat := 32

  /** Staged lengths are at most the largest transfer; only staged commands carry inline data. */
  ghost predicate EnvOk(env: Env) {
    && (forall s: Sqe :: env.route(s).Stage? ==> 1 <= env.route(s).pages <= MAX_PAGES)
    && (forall s: Sqe :: env.inline(s) ==> env.route(s) != Pass)
  }

  /** A received command; `idx` is the capsule buffer it still holds. */
  datatype Held = Held(sqe: Sqe, idx: Option<nat>)

  datatype Wait = Wait(tag: nat, cmd: Held)

  datatype Resp = Resp(tag: nat, data: bool)

  /**
    `lease` is each tag's pool pages, `runs` the contiguous runs they come in,
    `free` the pages left. `readsOut` and `writesOut` are work requests outstanding
    per tag, `sendOut` an outstanding SEND, `delivered` that the host has the
    response. `arrived` are capsules received but not processed, `unanswered`
    the commands the host waits for.
   */
  datatype Q = Q(
    slots: SlotsView,
    parked: seq<Held>,
    wait: seq<Wait>,
    batch: seq<nat>,
    resps: seq<Resp>,
    lease: seq<nat>,
    runs: seq<nat>,
    readsOut: seq<nat>,
    writesOut: seq<nat>,
    sendOut: seq<bool>,
    delivered: seq<bool>,
    inflight: seq<nat>,
    free: nat,
    leased: nat,
    posted: set<nat>,
    arrived: seq<Held>,
    unanswered: nat,
    overflow: bool)

  predicate Sized(env: Env, q: Q) {
    && |q.slots.state| == env.nslots && |q.lease| == env.nslots && |q.runs| == env.nslots
    && |q.readsOut| == env.nslots && |q.writesOut| == env.nslots && |q.sendOut| == env.nslots
    && |q.delivered| == env.nslots && |q.inflight| == env.nslots
  }

  // ----- staging -----

  function PostRecv(q: Q, idx: Option<nat>): Q {
    match idx
    case None => q
    case Some(i) => q.(posted := q.posted + {i})
  }

  predicate Fits(env: Env, q: Q, sqe: Sqe) {
    env.route(sqe).Stage? && env.route(sqe).pages <= q.free
  }

  /** Lease the pages; a lease of `n` pages comes in at least one and at most `n` runs. */
  function TakeLease(env: Env, q: Q, tag: nat, pages: nat): Q
    requires tag < |q.lease| && tag < |q.runs| && 0 < pages <= q.free
  {
    q.(lease := q.lease[tag := pages],
       runs := q.runs[tag := 1 + env.frag(q.leased) % pages],
       leased := q.leased + 1,
       free := q.free - pages)
  }

  /** `try_stage_inline` and `try_stage_write` once the lease fits. */
  function StageCmd(env: Env, q: Q, tag: nat, cmd: Held): Q
    requires Sized(env, q) && tag < env.nslots && Fits(env, q, cmd.sqe) && 0 < env.route(cmd.sqe).pages
    requires q.slots.Is(tag, Receiving)
  {
    var q1 := TakeLease(env, q, tag, env.route(cmd.sqe).pages);
    if cmd.idx.Some? then PostRecv(q1.(slots := q.slots.Submit(tag)), cmd.idx)
    else q1.(batch := q.batch + [tag])
  }

  function FailRecv(q: Q, tag: nat): Q
    requires q.slots.Is(tag, Receiving)
  {
    q.(slots := q.slots.RespondReceiving(tag), resps := q.resps + [Resp(tag, false)])
  }

  /** `route_cmd`: the command has a tag. */
  function RouteCmd(env: Env, q: Q, tag: nat, cmd: Held): Q
    requires Sized(env, q) && tag < env.nslots && q.slots.Is(tag, Receiving) && EnvOk(env)
  {
    match env.route(cmd.sqe)
    case Pass => q.(slots := q.slots.Submit(tag))
    case Reject => PostRecv(FailRecv(q, tag), cmd.idx)
    case Stage(pages) =>
      if pages <= q.free then StageCmd(env, q, tag, cmd)
      else q.(wait := q.wait + [Wait(tag, cmd)])
  }

  // ----- completions -----

  datatype Comp = Recv | Read(tag: nat) | Write(tag: nat) | Send(tag: nat)

  /** A completion the NIC can report now. */
  predicate CompOk(env: Env, q: Q, c: Comp)
    requires |q.readsOut| == env.nslots && |q.writesOut| == env.nslots && |q.sendOut| == env.nslots && |q.delivered| == env.nslots
  {
    match c
    case Recv => q.arrived != []
    case Read(tag) => tag < env.nslots && q.readsOut[tag] > 0
    case Write(tag) => tag < env.nslots && q.writesOut[tag] > 0
    case Send(tag) => tag < env.nslots && q.sendOut[tag] && q.delivered[tag]
  }

  /** `handle_recv`: re-arm the buffer unless its payload is still needed, then route or park. */
  function HandleRecv(env: Env, q: Q): Q
    requires Sized(env, q) && q.arrived != [] && EnvOk(env)
    requires q.slots.free != [] ==> q.slots.free[|q.slots.free| - 1] < env.nslots
  {
    var a := q.arrived[0];
    var inline := env.inline(a.sqe);
    var cmd := Held(a.sqe, if inline then a.idx else None);
    var q1 := q.(arrived := q.arrived[1..]);
    var q2 := if inline then q1 else PostRecv(q1, a.idx);
    if q.slots.free == [] then
      if |q.parked| >= env.nslots then q2.(overflow := true)
      else q2.(parked := q.parked + [cmd])
    else
      var tag := q.slots.free[|q.slots.free| - 1];
      RouteCmd(env, q2.(slots := q.slots.Claim().0), tag, cmd)
  }

  /** The last response completion of a tag releases it and its lease. */
  function ResponseDone(q: Q, tag: nat): Q
    requires tag < |q.inflight| && tag < |q.lease| && tag < |q.runs| && tag < |q.delivered| && q.slots.Is(tag, Responding)
  {
    var n := if q.inflight[tag] > 0 then q.inflight[tag] - 1 else 0;
    var q1 := q.(inflight := q.inflight[tag := n]);
    if n > 0 then q1
    else q1.(slots := q.slots.Release(tag), free := q.free + q.lease[tag], lease := q.lease[tag := 0],
             runs := q.runs[tag := 0], delivered := q.delivered[tag := false])
  }

  function Handle(env: Env, q: Q, c: Comp): Q
    requires Sized(env, q) && EnvOk(env) && CompOk(env, q, c)
    requires q.slots.free != [] ==> q.slots.free[|q.slots.free| - 1] < env.nslots
    requires c.Read? ==> q.slots.Is(c.tag, Receiving)
    requires c.Write? || c.Send? ==> q.slots.Is(c.tag, Responding)
  {
    match c
    case Recv => HandleRecv(env, q)
    case Read(tag) => q.(readsOut := q.readsOut[tag := 0], slots := q.slots.Submit(tag))
    case Write(tag) => ResponseDone(q.(writesOut := q.writesOut[tag := 0]), tag)
    case Send(tag) => ResponseDone(q.(sendOut := q.sendOut[tag := false]), tag)
  }

  // ----- the drains after a poll -----

  /** Retry waiting writes, oldest first, until one does not fit. */
  function DrainWait(env: Env, q: Q): Q
    decreases |q.wait|
  {
    if q.wait == [] then q
    else
      var w := q.wait[0];
      if Sized(env, q) && w.tag < env.nslots && Fits(env, q, w.cmd.sqe) && 0 < env.route(w.cmd.sqe).pages
         && q.slots.Is(w.tag, Receiving)
      then DrainWait(env, StageCmd(env, q, w.tag, w.cmd).(wait := q.wait[1..]))
      else q
  }

  /** Route parked commands, oldest first, while tags are free. */
  function DrainParked(env: Env, q: Q): Q
    requires Sized(env, q) && EnvOk(env) && q.slots.Sound()
    decreases |q.parked|
  {
    if q.parked == [] || q.slots.free == [] then q
    else
      ClaimSound(q.slots);
      var tag := q.slots.free[|q.slots.free| - 1];
      var q1 := q.(slots := q.slots.Claim().0, parked := q.parked[1..]);
      var q2 := RouteCmd(env, q1, tag, q.parked[0]);
      RouteKeepsSound(env, q1, tag, q.parked[0]);
      DrainParked(env, q2)
  }

  lemma RouteKeepsSound(env: Env, q: Q, tag: nat, cmd: Held)
    requires Sized(env, q) && tag < env.nslots && q.slots.Is(tag, Receiving) && EnvOk(env) && q.slots.Sound()
    ensures var z := RouteCmd(env, q, tag, cmd); Sized(env, z) && z.slots.Sound() && z.parked == q.parked
  {
    LifeSound(q.slots, tag);
  }

  /** Post the collected host-data READs: one per run of each lease. */
  function PostReads(q: Q): Q
    requires |q.readsOut| == |q.runs|
    decreases |q.batch|
  {
    if q.batch == [] then q
    else
      var tag := q.batch[0];
      PostReads(q.(batch := q.batch[1..],
                   readsOut := if tag < |q.runs| then q.readsOut[tag := q.runs[tag]] else q.readsOut))
  }

  /** Post the collected responses: a WRITE per run when there is data, then the SEND. */
  function PostResp(q: Q, r: Resp): Q
    requires r.tag < |q.inflight| && r.tag < |q.runs| && r.tag < |q.writesOut| && r.tag < |q.sendOut|
  {
    q.(writesOut := if r.data then q.writesOut[r.tag := q.runs[r.tag]] else q.writesOut,
       sendOut := q.sendOut[r.tag := true],
       inflight := q.inflight[r.tag := if r.data then 2 else 1])
  }

  /** Every queued response posted, in order. */
  function PostResps(q: Q): Q
    decreases |q.resps|
  {
    if q.resps == [] || !Postable(q, q.resps[0].tag) then q
    else PostResps(PostResp(q.(resps := q.resps[1..]), q.resps[0]))
  }

  predicate Postable(q: Q, tag: nat) {
    tag < |q.inflight| && tag < |q.runs| && tag < |q.writesOut| && tag < |q.sendOut|
  }
}
