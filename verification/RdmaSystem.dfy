/**
  The RDMA queue, a conforming host and a NIC that completes what was posted,
  in any interleaving: resource bounds, exact release, and why deferral never
  stalls.
 */
module RdmaSystem {
  import opened Common
  import opened Pdu
  import opened Slots
  import opened RdmaState

  datatype Step =
    | HostSend(sqe: Sqe, idx: nat)
    | Deliver(tag: nat)
    | StartCmd(tag: nat)
    | LeaseRead(tag: nat, pages: nat)
    | Finish(tag: nat, data: bool)
    | PostResponse
    | Poll(comps: seq<Comp>)

  // ----- one tag -----

  /** Everything the queue knows about one tag; `w`, `b` and `r` count its entries in the three lists. */
  datatype TagView = TagView(
    state: SlotState, w: nat, b: nat, r: nat, lease: nat, runs: nat, readsOut: nat, writesOut: nat,
    sendOut: bool, delivered: bool, inflight: nat)

  function WaitTags(wait: seq<Wait>): seq<nat> {
    if wait == [] then [] else [wait[0].tag] + WaitTags(wait[1..])
  }

  function RespTags(resps: seq<Resp>): seq<nat> {
    if resps == [] then [] else [resps[0].tag] + RespTags(resps[1..])
  }

  ghost function Tag(q: Q, t: nat): TagView
    requires t < |q.slots.state| && t < |q.lease| && t < |q.runs| && t < |q.readsOut| && t < |q.writesOut|
    requires t < |q.sendOut| && t < |q.delivered| && t < |q.inflight|
  {
    TagView(q.slots.state[t], multiset(WaitTags(q.wait))[t], multiset(q.batch)[t], multiset(RespTags(q.resps))[t],
            q.lease[t], q.runs[t], q.readsOut[t], q.writesOut[t], q.sendOut[t], q.delivered[t], q.inflight[t])
  }

  function Bit(b: bool): nat {
    if b then 1 else 0
  }

  predicate Quiet(v: TagView) {
    v.writesOut == 0 && !v.sendOut && !v.delivered && v.r == 0
  }

  /** A receiving tag with host data waits for pages, is about to read, or is reading. */
  predicate Staged(v: TagView) {
    || (v.w == 1 && v.b == 0 && v.readsOut == 0 && v.lease == 0)
    || (v.w == 0 && v.b == 1 && v.readsOut == 0 && v.lease > 0)
    || (v.w == 0 && v.b == 0 && v.readsOut > 0)
  }

  predicate TagOk(v: TagView) {
    && v.inflight == Bit(v.writesOut > 0) + Bit(v.sendOut)
    && (v.readsOut == 0 || v.readsOut == v.runs) && (v.writesOut == 0 || v.writesOut == v.runs)
    && v.runs <= v.lease <= MAX_PAGES && (v.lease > 0 ==> v.runs > 0)
    && match v.state
       case Free => Quiet(v) && v.w == 0 && v.b == 0 && v.lease == 0
       case Receiving => Quiet(v) && Staged(v)
       case Ready => Quiet(v) && v.w == 0 && v.b == 0 && v.readsOut == 0
       case Executing => Quiet(v) && v.w == 0 && v.b == 0 && v.readsOut == 0
       case Responding =>
         && v.w == 0 && v.b == 0 && v.readsOut == 0 && v.r <= 1
         && (v.r == 1 ==> v.writesOut == 0 && !v.sendOut && !v.delivered)
         && (v.r == 0 ==> v.inflight > 0 && (v.sendOut || v.delivered))
  }

  /** Just claimed: the tag is receiving and nothing else yet. */
  predicate Fresh(v: TagView) {
    v.state == Receiving && Quiet(v) && v.w == 0 && v.b == 0 && v.lease == 0 && v.runs == 0 && v.readsOut == 0 && v.inflight == 0
  }

  // ----- the invariant -----

  ghost function HeldBufs(h: seq<Held>): multiset<nat> {
    if h == [] then multiset{}
    else (if h[0].idx.Some? then multiset{h[0].idx.value} else multiset{}) + HeldBufs(h[1..])
  }

  ghost function WaitBufs(w: seq<Wait>): multiset<nat> {
    if w == [] then multiset{}
    else (if w[0].cmd.idx.Some? then multiset{w[0].cmd.idx.value} else multiset{}) + WaitBufs(w[1..])
  }

  /** Tags whose command the host is still waiting for. */
  ghost function Pending(state: seq<SlotState>, delivered: seq<bool>): set<nat> {
    set t: nat | t < |state| && t < |delivered| && state[t] != Free && !delivered[t]
  }

  ghost predicate ListsOk(env: Env, q: Q)
    requires Sized(env, q)
  {
    && (forall i :: 0 <= i < |q.parked| && q.parked[i].idx.Some? ==> env.inline(q.parked[i].sqe))
    && (forall i :: 0 <= i < |q.wait| ==> q.wait[i].tag < env.nslots && env.route(q.wait[i].cmd.sqe).Stage?)
    && (forall i :: 0 <= i < |q.wait| && q.wait[i].cmd.idx.Some? ==> env.inline(q.wait[i].cmd.sqe))
    && (forall i :: 0 <= i < |q.batch| ==> q.batch[i] < env.nslots)
    && (forall i :: 0 <= i < |q.resps| ==> q.resps[i].tag < env.nslots)
    && (forall i :: 0 <= i < |q.resps| && q.resps[i].data ==> q.lease[q.resps[i].tag] > 0)
    && (forall i :: 0 <= i < |q.arrived| ==> q.arrived[i].idx.Some?)
  }

  ghost predicate TagsOk(env: Env, q: Q)
    requires Sized(env, q)
  {
    forall t :: 0 <= t < env.nslots ==> TagOk(Tag(q, t))
  }

  /** Every capsule buffer is posted, or held by exactly one command. */
  ghost predicate BufsOk(q: Q, full: multiset<nat>) {
    Bufs(q) == full
  }

  /** The host waits for the arrived, the parked and the undelivered commands. */
  ghost predicate CountOk(env: Env, q: Q) {
    && q.unanswered == |q.arrived| + |q.parked| + |Pending(q.slots.state, q.delivered)|
    && q.unanswered <= env.nslots
    && !q.overflow
  }

  ghost predicate PagesOk(env: Env, q: Q) {
    Sum(q.lease) + q.free == env.pool
  }

  /** Between polls: a parked command means no tag is free, a waiting one that the first cannot be met. */
  ghost predicate Settled(env: Env, q: Q) {
    && (q.parked != [] ==> q.slots.free == [])
    && (q.wait != [] ==> !Fits(env, q, q.wait[0].cmd.sqe))
    && q.batch == []
  }

  ghost predicate Core(env: Env, q: Q, full: multiset<nat>) {
    Sized(env, q) && q.slots.Sound() && ListsOk(env, q) && TagsOk(env, q) && BufsOk(q, full) && CountOk(env, q) && PagesOk(env, q)
  }

  // ----- lists and sums -----

  lemma {:induction false} WaitTagsSnoc(wait: seq<Wait>, w: Wait)
    ensures WaitTags(wait + [w]) == WaitTags(wait) + [w.tag]
  {
    if wait != [] {
      assert (wait + [w])[1..] == wait[1..] + [w];
      WaitTagsSnoc(wait[1..], w);
    }
  }

  lemma {:induction false} RespTagsSnoc(resps: seq<Resp>, r: Resp)
    ensures RespTags(resps + [r]) == RespTags(resps) + [r.tag]
  {
    if resps != [] {
      assert (resps + [r])[1..] == resps[1..] + [r];
      RespTagsSnoc(resps[1..], r);
    }
  }

  lemma {:induction false} HeldBufsSnoc(h: seq<Held>, x: Held)
    ensures HeldBufs(h + [x]) == HeldBufs(h) + if x.idx.Some? then multiset{x.idx.value} else multiset{}
  {
    if h != [] {
      assert (h + [x])[1..] == h[1..] + [x];
      HeldBufsSnoc(h[1..], x);
    }
  }

  lemma {:induction false} WaitBufsSnoc(w: seq<Wait>, x: Wait)
    ensures WaitBufs(w + [x]) == WaitBufs(w) + if x.cmd.idx.Some? then multiset{x.cmd.idx.value} else multiset{}
  {
    if w != [] {
      assert (w + [x])[1..] == w[1..] + [x];
      WaitBufsSnoc(w[1..], x);
    }
  }

  ghost function OneBuf(idx: Option<nat>): multiset<nat> {
    if idx.Some? then multiset{idx.value} else multiset{}
  }

  // ----- routing a command that has a tag -----

  ghost function Bufs(q: Q): multiset<nat> {
    multiset(q.posted) + HeldBufs(q.arrived) + HeldBufs(q.parked) + WaitBufs(q.wait)
  }

  /** The tag-by-tag part of the invariant, but for `tag`, just claimed. */
  ghost predicate TagsBut(env: Env, q: Q, tag: nat) {
    && Sized(env, q) && tag < env.nslots && Fresh(Tag(q, tag))
    && (forall t :: 0 <= t < env.nslots && t != tag ==> TagOk(Tag(q, t)))
  }

  /** All is well but for `tag`, just claimed for `cmd`, which still owns its capsule buffer. */
  ghost predicate Claimed(env: Env, q: Q, full: multiset<nat>, tag: nat, cmd: Held) {
    && TagsBut(env, q, tag)
    && q.slots.Sound() && ListsOk(env, q) && CountOk(env, q) && PagesOk(env, q) && EnvOk(env)
    && (cmd.idx.Some? ==> env.inline(cmd.sqe))
    && Bufs(q) + OneBuf(cmd.idx) == full
    && (cmd.idx.Some? ==> cmd.idx.value !in q.posted)
  }

  /** Nothing about the other tags changed. */
  ghost predicate OthersSame(env: Env, q: Q, z: Q, tag: nat)
    requires Sized(env, q) && Sized(env, z)
  {
    forall t :: 0 <= t < env.nslots && t != tag ==> Tag(z, t) == Tag(q, t)
  }

  lemma OthersKeep(env: Env, q: Q, z: Q, tag: nat)
    requires Sized(env, q) && Sized(env, z) && tag < env.nslots && OthersSame(env, q, z, tag) && TagOk(Tag(z, tag))
    requires forall t :: 0 <= t < env.nslots && t != tag ==> TagOk(Tag(q, t))
    ensures TagsOk(env, z)
  {
    forall t | 0 <= t < env.nslots ensures TagOk(Tag(z, t)) {
      if t != tag {
        assert Tag(z, t) == Tag(q, t);
        assert TagOk(Tag(q, t));
      }
    }
  }

  lemma CountSnoc(s: seq<nat>, x: nat)
    ensures forall t :: multiset(s + [x])[t] == multiset(s)[t] + Bit(x == t)
  {
    assert multiset(s + [x]) == multiset(s) + multiset{x};
  }

  lemma PendingMove(state: seq<SlotState>, delivered: seq<bool>, tag: nat, v: SlotState)
    requires tag < |state| && state[tag] != Free && v != Free
    ensures Pending(state[tag := v], delivered) == Pending(state, delivered)
  {
  }

  lemma MoveBuf(p: multiset<nat>, a: multiset<nat>, k: multiset<nat>, w: multiset<nat>, b: multiset<nat>)
    ensures p + a + k + w + b == (p + b) + a + k + w
    ensures p + a + k + w + b == p + a + k + (w + b)
    ensures p + a + k + w + b == p + a + (k + b) + w
  {
  }

  /** Posting the buffer of a command gives it back to the ring. */
  lemma PostBufs(q: Q, z: Q, idx: Option<nat>)
    requires idx.Some? ==> idx.value !in q.posted
    requires z.posted == (if idx.Some? then q.posted + {idx.value} else q.posted)
    requires z.arrived == q.arrived && z.parked == q.parked && z.wait == q.wait
    ensures Bufs(z) == Bufs(q) + OneBuf(idx)
  {
    assert multiset(z.posted) == multiset(q.posted) + OneBuf(idx);
    MoveBuf(multiset(q.posted), HeldBufs(q.arrived), HeldBufs(q.parked), WaitBufs(q.wait), OneBuf(idx));
  }

  /** A tag that only changes its slot state and leaves the lists alone. */
  ghost predicate SameLists(q: Q, z: Q) {
    z.wait == q.wait && z.batch == q.batch && z.resps == q.resps
  }

  ghost predicate SameTables(q: Q, z: Q) {
    && z.lease == q.lease && z.runs == q.runs && z.readsOut == q.readsOut && z.writesOut == q.writesOut
    && z.sendOut == q.sendOut && z.delivered == q.delivered && z.inflight == q.inflight
  }

  lemma SubmitTags(env: Env, q: Q, z: Q, tag: nat)
    requires TagsBut(env, q, tag) && SameLists(q, z) && SameTables(q, z) && z.slots.state == q.slots.state[tag := Ready]
    ensures TagsOk(env, z)
  {
    OthersKeep(env, q, z, tag);
  }

  lemma PassKeeps(env: Env, q: Q, full: multiset<nat>, tag: nat, cmd: Held)
    requires Claimed(env, q, full, tag, cmd) && env.route(cmd.sqe) == Pass
    ensures Core(env, q.(slots := q.slots.Submit(tag)), full)
  {
    var z := q.(slots := q.slots.Submit(tag));
    LifeSound(q.slots, tag);
    SubmitTags(env, q, z, tag);
    PendingMove(q.slots.state, q.delivered, tag, Ready);
    assert OneBuf(cmd.idx) == multiset{};
    assert Bufs(z) == Bufs(q);
  }

  /** A tag that is only queued for its response. */
  lemma AnswerTags(env: Env, q: Q, z: Q, tag: nat, data: bool)
    requires Sized(env, q) && tag < env.nslots && SameTables(q, z) && z.slots.state == q.slots.state[tag := Responding]
    requires z.wait == q.wait && z.batch == q.batch && z.resps == q.resps + [Resp(tag, data)]
    requires forall t :: 0 <= t < env.nslots && t != tag ==> TagOk(Tag(q, t))
    requires var v := Tag(q, tag);
             && Quiet(v) && v.w == 0 && v.b == 0 && v.inflight == 0 && v.readsOut == 0
             && v.runs <= v.lease <= MAX_PAGES && (v.lease > 0 ==> v.runs > 0)
    ensures TagsOk(env, z)
  {
    RespTagsSnoc(q.resps, Resp(tag, data));
    CountSnoc(RespTags(q.resps), tag);
    OthersKeep(env, q, z, tag);
  }

  lemma AnswerLists(env: Env, q: Q, z: Q, tag: nat, data: bool)
    requires Sized(env, q) && Sized(env, z) && ListsOk(env, q) && tag < env.nslots && z.lease == q.lease
    requires z.parked == q.parked && z.wait == q.wait && z.batch == q.batch && z.arrived == q.arrived
    requires z.resps == q.resps + [Resp(tag, data)] && (data ==> q.lease[tag] > 0)
    ensures ListsOk(env, z)
  {
  }

  lemma RejectTags(env: Env, q: Q, full: multiset<nat>, tag: nat, cmd: Held, z: Q)
    requires Claimed(env, q, full, tag, cmd) && z == PostRecv(FailRecv(q, tag), cmd.idx)
    ensures Sized(env, z) && TagsOk(env, z) && ListsOk(env, z)
  {
    AnswerTags(env, q, z, tag, false);
    AnswerLists(env, q, z, tag, false);
  }

  lemma RejectRest(env: Env, q: Q, full: multiset<nat>, tag: nat, cmd: Held, z: Q)
    requires Claimed(env, q, full, tag, cmd) && z == PostRecv(FailRecv(q, tag), cmd.idx)
    ensures z.slots.Sound() && BufsOk(z, full) && CountOk(env, z) && PagesOk(env, z)
  {
    LifeSound(q.slots, tag);
    PendingMove(q.slots.state, q.delivered, tag, Responding);
    PostBufs(q, z, cmd.idx);
  }

  lemma RejectKeeps(env: Env, q: Q, full: multiset<nat>, tag: nat, cmd: Held)
    requires Claimed(env, q, full, tag, cmd)
    ensures Core(env, PostRecv(FailRecv(q, tag), cmd.idx), full)
  {
    var z := PostRecv(FailRecv(q, tag), cmd.idx);
    RejectTags(env, q, full, tag, cmd, z);
    RejectRest(env, q, full, tag, cmd, z);
  }

  lemma WaitTagged(env: Env, q: Q, z: Q, tag: nat, cmd: Held)
    requires TagsBut(env, q, tag) && SameTables(q, z) && z.slots.state == q.slots.state
    requires z.wait == q.wait + [Wait(tag, cmd)] && z.batch == q.batch && z.resps == q.resps
    ensures TagsOk(env, z)
  {
    WaitTagsSnoc(q.wait, Wait(tag, cmd));
    CountSnoc(WaitTags(q.wait), tag);
    OthersKeep(env, q, z, tag);
  }

  lemma WaitKeeps(env: Env, q: Q, full: multiset<nat>, tag: nat, cmd: Held)
    requires Claimed(env, q, full, tag, cmd) && env.route(cmd.sqe).Stage?
    ensures Core(env, q.(wait := q.wait + [Wait(tag, cmd)]), full)
  {
    var z := q.(wait := q.wait + [Wait(tag, cmd)]);
    WaitTagged(env, q, z, tag, cmd);
    WaitBufsSnoc(q.wait, Wait(tag, cmd));
    MoveBuf(multiset(q.posted), HeldBufs(q.arrived), HeldBufs(q.parked), WaitBufs(q.wait), OneBuf(cmd.idx));
    assert Bufs(z) == full;
  }

  /** `z` is `q` with `tag` leased `pages` pages in `runs` runs and moved on. */
  ghost predicate LeasedTo(q: Q, z: Q, tag: nat, pages: nat, runs: nat)
    requires tag < |q.lease| && tag < |q.runs| && tag < |q.slots.state|
  {
    && 0 < runs <= pages <= MAX_PAGES && z.lease == q.lease[tag := pages] && z.runs == q.runs[tag := runs]
    && z.readsOut == q.readsOut && z.writesOut == q.writesOut && z.sendOut == q.sendOut
    && z.delivered == q.delivered && z.inflight == q.inflight && z.wait == q.wait && z.resps == q.resps
    && ((z.batch == q.batch && z.slots.state == q.slots.state[tag := Ready])
        || (z.batch == q.batch + [tag] && z.slots.state == q.slots.state))
  }

  lemma LeasedTags(env: Env, q: Q, z: Q, tag: nat, pages: nat, runs: nat)
    requires TagsBut(env, q, tag) && LeasedTo(q, z, tag, pages, runs)
    ensures Sized(env, z) && TagsOk(env, z)
  {
    CountSnoc(q.batch, tag);
    OthersKeep(env, q, z, tag);
  }

  /** Staging leases the pages; inline data is there at once, remote data joins the read batch. */
  lemma StageIs(env: Env, q: Q, tag: nat, cmd: Held, z: Q)
    requires EnvOk(env) && TagsBut(env, q, tag) && Fits(env, q, cmd.sqe) && z == StageCmd(env, q, tag, cmd)
    ensures LeasedTo(q, z, tag, env.route(cmd.sqe).pages, 1 + env.frag(q.leased) % env.route(cmd.sqe).pages)
    ensures z.free == q.free - env.route(cmd.sqe).pages && z.unanswered == q.unanswered && z.overflow == q.overflow
    ensures z.parked == q.parked && z.arrived == q.arrived
    ensures z.posted == if cmd.idx.Some? then q.posted + {cmd.idx.value} else q.posted
    ensures z.slots == q.slots || z.slots == q.slots.Submit(tag)
  {
  }

  lemma StageLists(env: Env, q: Q, z: Q, tag: nat, pages: nat, runs: nat)
    requires Sized(env, q) && Sized(env, z) && ListsOk(env, q) && tag < env.nslots && LeasedTo(q, z, tag, pages, runs)
    requires z.parked == q.parked && z.arrived == q.arrived
    ensures ListsOk(env, z)
  {
  }

  lemma StageTags(env: Env, q: Q, full: multiset<nat>, tag: nat, cmd: Held, z: Q)
    requires Claimed(env, q, full, tag, cmd) && Fits(env, q, cmd.sqe) && z == StageCmd(env, q, tag, cmd)
    ensures Sized(env, z) && TagsOk(env, z) && ListsOk(env, z)
  {
    var pages := env.route(cmd.sqe).pages;
    var runs := 1 + env.frag(q.leased) % pages;
    StageIs(env, q, tag, cmd, z);
    LeasedTags(env, q, z, tag, pages, runs);
    StageLists(env, q, z, tag, pages, runs);
  }

  lemma StageRest(env: Env, q: Q, full: multiset<nat>, tag: nat, cmd: Held, z: Q)
    requires Claimed(env, q, full, tag, cmd) && Fits(env, q, cmd.sqe) && z == StageCmd(env, q, tag, cmd)
    ensures z.slots.Sound() && BufsOk(z, full) && CountOk(env, z) && PagesOk(env, z)
  {
    StageIs(env, q, tag, cmd, z);
    LifeSound(q.slots, tag);
    SumUpdate(q.lease, tag, env.route(cmd.sqe).pages);
    PendingMove(q.slots.state, q.delivered, tag, Ready);
    PostBufs(q, z, cmd.idx);
  }

  lemma StageKeeps(env: Env, q: Q, full: multiset<nat>, tag: nat, cmd: Held)
    requires Claimed(env, q, full, tag, cmd) && Fits(env, q, cmd.sqe)
    ensures Core(env, StageCmd(env, q, tag, cmd), full)
  {
    var z := StageCmd(env, q, tag, cmd);
    StageTags(env, q, full, tag, cmd, z);
    StageRest(env, q, full, tag, cmd, z);
  }

  lemma RouteKeeps(env: Env, q: Q, full: multiset<nat>, tag: nat, cmd: Held)
    requires Claimed(env, q, full, tag, cmd)
    ensures Core(env, RouteCmd(env, q, tag, cmd), full)
  {
    match env.route(cmd.sqe)
    case Pass => PassKeeps(env, q, full, tag, cmd);
    case Reject => RejectKeeps(env, q, full, tag, cmd);
    case Stage(pages) =>
      if pages <= q.free {
        StageKeeps(env, q, full, tag, cmd);
      } else {
        WaitKeeps(env, q, full, tag, cmd);
      }
  }

  // ----- taking a command in hand -----

  /** No buffer is counted twice. */
  ghost predicate Simple(full: multiset<nat>) {
    forall i :: full[i] <= 1
  }

  /** All is well but for `cmd`, taken off its list: it owns its buffer and the host waits for it. */
  ghost predicate InHand(env: Env, q: Q, full: multiset<nat>, cmd: Held) {
    && Sized(env, q) && q.slots.Sound() && ListsOk(env, q) && TagsOk(env, q) && PagesOk(env, q) && EnvOk(env)
    && (cmd.idx.Some? ==> env.inline(cmd.sqe))
    && Bufs(q) + OneBuf(cmd.idx) == full && Simple(full)
    && q.unanswered == |q.arrived| + |q.parked| + |Pending(q.slots.state, q.delivered)| + 1
    && q.unanswered <= env.nslots && !q.overflow
  }

  lemma NotPosted(q: Q, full: multiset<nat>, idx: Option<nat>)
    requires Bufs(q) + OneBuf(idx) == full && Simple(full)
    ensures idx.Some? ==> idx.value !in q.posted
  {
    if idx.Some? {
      var b := multiset(q.posted) + HeldBufs(q.arrived) + HeldBufs(q.parked) + WaitBufs(q.wait);
      assert (b + OneBuf(idx))[idx.value] <= 1;
      assert multiset(q.posted)[idx.value] == 0;
    }
  }

  lemma PendingClaim(state: seq<SlotState>, delivered: seq<bool>, tag: nat)
    requires tag < |state| && tag < |delivered| && state[tag] == Free && !delivered[tag]
    ensures |Pending(state[tag := Receiving], delivered)| == |Pending(state, delivered)| + 1
  {
    assert Pending(state[tag := Receiving], delivered) == Pending(state, delivered) + {tag};
  }

  lemma ClaimTags(env: Env, q: Q, z: Q, tag: nat)
    requires Sized(env, q) && TagsOk(env, q) && tag < env.nslots && q.slots.state[tag] == Free
    requires SameLists(q, z) && SameTables(q, z) && z.slots.state == q.slots.state[tag := Receiving]
    ensures TagsBut(env, z, tag) && !q.delivered[tag]
  {
    assert TagOk(Tag(q, tag));
    forall t | 0 <= t < env.nslots && t != tag ensures TagOk(Tag(z, t)) {
      assert Tag(z, t) == Tag(q, t);
      assert TagOk(Tag(q, t));
    }
  }

  /** A command in hand claims the top free tag. */
  lemma ClaimKeeps(env: Env, q: Q, full: multiset<nat>, cmd: Held)
    requires InHand(env, q, full, cmd) && q.slots.free != []
    ensures q.slots.free[|q.slots.free| - 1] < env.nslots
    ensures Claimed(env, q.(slots := q.slots.Claim().0), full, q.slots.free[|q.slots.free| - 1], cmd)
  {
    var tag := q.slots.free[|q.slots.free| - 1];
    var z := q.(slots := q.slots.Claim().0);
    ClaimSound(q.slots);
    ClaimTags(env, q, z, tag);
    PendingClaim(q.slots.state, q.delivered, tag);
    NotPosted(q, full, cmd.idx);
    assert Bufs(z) == Bufs(q);
  }

  /** With every tag held, a command in hand finds room in the parking lot. */
  lemma ParkKeeps(env: Env, q: Q, full: multiset<nat>, cmd: Held)
    requires InHand(env, q, full, cmd)
    ensures |q.parked| < env.nslots
    ensures Core(env, q.(parked := q.parked + [cmd]), full)
  {
    var z := q.(parked := q.parked + [cmd]);
    HeldBufsSnoc(q.parked, cmd);
    MoveBuf(multiset(q.posted), HeldBufs(q.arrived), HeldBufs(q.parked), WaitBufs(q.wait), OneBuf(cmd.idx));
    assert Bufs(z) == full;
    assert TagsOk(env, z) by {
      forall t | 0 <= t < env.nslots ensures TagOk(Tag(z, t)) {
        assert Tag(z, t) == Tag(q, t) && TagOk(Tag(q, t));
      }
    }
  }

  lemma TagsFrame(env: Env, q: Q, z: Q)
    requires Sized(env, q) && TagsOk(env, q) && SameLists(q, z) && SameTables(q, z) && z.slots.state == q.slots.state
    ensures Sized(env, z) && TagsOk(env, z)
  {
    forall t | 0 <= t < env.nslots ensures TagOk(Tag(z, t)) {
      assert Tag(z, t) == Tag(q, t) && TagOk(Tag(q, t));
    }
  }

  lemma ArrivedBufs(q: Q, z: Q)
    requires q.arrived != [] && z == q.(arrived := q.arrived[1..])
    ensures Bufs(z) + OneBuf(q.arrived[0].idx) == Bufs(q)
  {
    FirstBuf(multiset(q.posted), OneBuf(q.arrived[0].idx), HeldBufs(z.arrived), HeldBufs(q.parked), WaitBufs(q.wait));
  }

  lemma ArrivedLists(env: Env, q: Q, z: Q)
    requires Sized(env, q) && ListsOk(env, q) && q.arrived != [] && z == q.(arrived := q.arrived[1..], posted := z.posted)
    ensures ListsOk(env, z) && q.arrived[0].idx.Some?
  {
  }

  lemma AsInHand(env: Env, q: Q, z: Q, full: multiset<nat>, cmd: Held)
    requires Core(env, q, full) && EnvOk(env) && Simple(full)
    requires z == q.(arrived := z.arrived, posted := z.posted, parked := z.parked) && ListsOk(env, z)
    requires |z.arrived| + |z.parked| + 1 == |q.arrived| + |q.parked|
    requires Bufs(z) + OneBuf(cmd.idx) == full && (cmd.idx.Some? ==> env.inline(cmd.sqe))
    ensures InHand(env, z, full, cmd)
  {
    TagsFrame(env, q, z);
  }

  /** The oldest arrived capsule in hand, its buffer re-armed unless its payload is still needed. */
  lemma ArrivalInHand(env: Env, q: Q, full: multiset<nat>)
    requires Core(env, q, full) && EnvOk(env) && Simple(full) && q.arrived != []
    ensures var a := q.arrived[0];
            var inline := env.inline(a.sqe);
            var q1 := q.(arrived := q.arrived[1..]);
            InHand(env, if inline then q1 else PostRecv(q1, a.idx), full, Held(a.sqe, if inline then a.idx else None))
  {
    var a := q.arrived[0];
    var q1 := q.(arrived := q.arrived[1..]);
    ArrivedBufs(q, q1);
    if env.inline(a.sqe) {
      ArrivedLists(env, q, q1);
      AsInHand(env, q, q1, full, Held(a.sqe, a.idx));
    } else {
      var q2 := PostRecv(q1, a.idx);
      NotPosted(q1, full, a.idx);
      PostBufs(q1, q2, a.idx);
      ArrivedLists(env, q, q2);
      assert Bufs(q2) + multiset{} == Bufs(q2);
      AsInHand(env, q, q2, full, Held(a.sqe, None));
    }
  }

  lemma FirstBuf(p: multiset<nat>, x: multiset<nat>, a: multiset<nat>, k: multiset<nat>, w: multiset<nat>)
    ensures p + (x + a) + k + w == p + a + k + w + x
    ensures p + a + (x + k) + w == p + a + k + w + x
    ensures p + a + k + (x + w) == p + a + k + w + x
  {
  }

  lemma RecvKeeps(env: Env, q: Q, full: multiset<nat>)
    requires Core(env, q, full) && EnvOk(env) && Simple(full) && q.arrived != []
    requires q.slots.free != [] ==> q.slots.free[|q.slots.free| - 1] < env.nslots
    ensures Core(env, HandleRecv(env, q), full)
  {
    var a := q.arrived[0];
    var inline := env.inline(a.sqe);
    var q1 := q.(arrived := q.arrived[1..]);
    var q2 := if inline then q1 else PostRecv(q1, a.idx);
    var cmd := Held(a.sqe, if inline then a.idx else None);
    ArrivalInHand(env, q, full);
    if q.slots.free == [] {
      ParkKeeps(env, q2, full, cmd);
    } else {
      ClaimKeeps(env, q2, full, cmd);
      RouteKeeps(env, q2.(slots := q.slots.Claim().0), full, q.slots.free[|q.slots.free| - 1], cmd);
    }
  }

  lemma ParkedBufs(q: Q, z: Q)
    requires q.parked != [] && z == q.(parked := q.parked[1..])
    ensures Bufs(z) + OneBuf(q.parked[0].idx) == Bufs(q)
  {
    FirstBuf(multiset(q.posted), OneBuf(q.parked[0].idx), HeldBufs(q.arrived), HeldBufs(z.parked), WaitBufs(q.wait));
  }

  lemma ParkedLists(env: Env, q: Q, z: Q)
    requires Sized(env, q) && ListsOk(env, q) && q.parked != [] && z == q.(parked := q.parked[1..])
    ensures ListsOk(env, z) && (q.parked[0].idx.Some? ==> env.inline(q.parked[0].sqe))
  {
  }

  /** The oldest parked command in hand. */
  lemma ParkedInHand(env: Env, q: Q, full: multiset<nat>)
    requires Core(env, q, full) && EnvOk(env) && Simple(full) && q.parked != []
    ensures InHand(env, q.(parked := q.parked[1..]), full, q.parked[0])
  {
    var z := q.(parked := q.parked[1..]);
    ParkedBufs(q, z);
    ParkedLists(env, q, z);
    AsInHand(env, q, z, full, q.parked[0]);
  }

  /** The oldest waiting write, taken off the list, is like one just claimed. */
  lemma WaiterClaimed(env: Env, q: Q, full: multiset<nat>)
    requires Core(env, q, full) && EnvOk(env) && Simple(full) && q.wait != []
    ensures Claimed(env, q.(wait := q.wait[1..]), full, q.wait[0].tag, q.wait[0].cmd)
  {
    var z := q.(wait := q.wait[1..]);
    var w := q.wait[0];
    assert WaitBufs(q.wait) == OneBuf(w.cmd.idx) + WaitBufs(z.wait);
    FirstBuf(multiset(q.posted), OneBuf(w.cmd.idx), HeldBufs(q.arrived), HeldBufs(q.parked), WaitBufs(z.wait));
    assert Bufs(z) + OneBuf(w.cmd.idx) == full;
    NotPosted(z, full, w.cmd.idx);
    WaiterTags(env, q, z);
  }

  lemma WaiterTags(env: Env, q: Q, z: Q)
    requires Sized(env, q) && TagsOk(env, q) && q.wait != [] && q.wait[0].tag < env.nslots && z == q.(wait := q.wait[1..])
    ensures TagsBut(env, z, q.wait[0].tag)
  {
    var tag := q.wait[0].tag;
    assert WaitTags(q.wait) == [tag] + WaitTags(z.wait);
    assert multiset(WaitTags(q.wait)) == multiset{tag} + multiset(WaitTags(z.wait));
    assert TagOk(Tag(q, tag)) && Tag(q, tag).w > 0;
    forall t | 0 <= t < env.nslots && t != tag ensures TagOk(Tag(z, t)) {
      assert Tag(z, t) == Tag(q, t) && TagOk(Tag(q, t));
    }
  }

  // ----- completions of posted work -----

  /** A completion the NIC can report finds its tag in the state its handler expects. */
  lemma CompLands(env: Env, q: Q, c: Comp)
    requires Sized(env, q) && q.slots.Sound() && TagsOk(env, q) && CompOk(env, q, c)
    ensures q.slots.free != [] ==> q.slots.free[|q.slots.free| - 1] < env.nslots
    ensures c.Read? ==> q.slots.Is(c.tag, Receiving)
    ensures c.Write? || c.Send? ==> q.slots.Is(c.tag, Responding)
  {
    ClaimSound(q.slots);
    if !c.Recv? {
      assert TagOk(Tag(q, c.tag));
    }
  }

  /** One tag's tables and state changed, its lists did not. */
  lemma OneTag(env: Env, q: Q, z: Q, tag: nat)
    requires Sized(env, q) && Sized(env, z) && TagsOk(env, q) && tag < env.nslots && SameLists(q, z)
    requires z.slots.state == q.slots.state[tag := z.slots.state[tag]]
    requires z.lease == q.lease[tag := z.lease[tag]] && z.runs == q.runs[tag := z.runs[tag]]
    requires z.readsOut == q.readsOut[tag := z.readsOut[tag]] && z.writesOut == q.writesOut[tag := z.writesOut[tag]]
    requires z.sendOut == q.sendOut[tag := z.sendOut[tag]] && z.delivered == q.delivered[tag := z.delivered[tag]]
    requires z.inflight == q.inflight[tag := z.inflight[tag]]
    requires TagOk(Tag(z, tag))
    ensures TagsOk(env, z)
  {
    OthersKeep(env, q, z, tag);
  }

  lemma SameBufs(q: Q, z: Q)
    requires z.posted == q.posted && z.arrived == q.arrived && z.parked == q.parked && z.wait == q.wait
    ensures Bufs(z) == Bufs(q)
  {
  }

  lemma ReadKeeps(env: Env, q: Q, full: multiset<nat>, tag: nat)
    requires Core(env, q, full) && tag < env.nslots && q.readsOut[tag] > 0 && q.slots.Is(tag, Receiving)
    ensures Core(env, q.(readsOut := q.readsOut[tag := 0], slots := q.slots.Submit(tag)), full)
  {
    var z := q.(readsOut := q.readsOut[tag := 0], slots := q.slots.Submit(tag));
    assert TagOk(Tag(q, tag));
    LifeSound(q.slots, tag);
    OneTag(env, q, z, tag);
    PendingMove(q.slots.state, q.delivered, tag, Ready);
    SameBufs(q, z);
  }

  function Released(q: Q, tag: nat): Q
    requires tag < |q.inflight| && tag < |q.lease| && tag < |q.runs| && tag < |q.delivered| && q.slots.Is(tag, Responding)
    requires tag < |q.writesOut| && tag < |q.sendOut|
  {
    q.(slots := q.slots.Release(tag), free := q.free + q.lease[tag], lease := q.lease[tag := 0],
       runs := q.runs[tag := 0], delivered := q.delivered[tag := false],
       inflight := q.inflight[tag := 0], writesOut := q.writesOut[tag := 0], sendOut := q.sendOut[tag := false])
  }

  lemma ReleaseTags(env: Env, q: Q, tag: nat, z: Q)
    requires Sized(env, q) && TagsOk(env, q) && tag < env.nslots && q.slots.Is(tag, Responding) && q.delivered[tag]
    requires z == Released(q, tag)
    ensures Sized(env, z) && TagsOk(env, z) && multiset(RespTags(q.resps))[tag] == 0
  {
    assert TagOk(Tag(q, tag));
    OneTag(env, q, z, tag);
  }

  lemma ReleasePending(state: seq<SlotState>, delivered: seq<bool>, tag: nat)
    requires tag < |state| && tag < |delivered| && delivered[tag]
    ensures Pending(state[tag := Free], delivered[tag := false]) == Pending(state, delivered)
  {
  }

  /** The last response completion: the tag and its pages are free again. */
  lemma ReleaseKeeps(env: Env, q: Q, full: multiset<nat>, tag: nat, z: Q)
    requires Core(env, q, full) && tag < env.nslots && q.slots.Is(tag, Responding) && q.delivered[tag]
    requires z == Released(q, tag)
    ensures Core(env, z, full)
  {
    LifeSound(q.slots, tag);
    ReleaseTags(env, q, tag, z);
    SumUpdate(q.lease, tag, 0);
    ReleasePending(q.slots.state, q.delivered, tag);
    SameBufs(q, z);
    ReleaseLists(env, q, z, tag);
  }

  lemma ReleaseLists(env: Env, q: Q, z: Q, tag: nat)
    requires Sized(env, q) && Sized(env, z) && ListsOk(env, q) && tag < env.nslots
    requires multiset(RespTags(q.resps))[tag] == 0
    requires SameLists(q, z) && z.parked == q.parked && z.arrived == q.arrived && z.lease == q.lease[tag := 0]
    ensures ListsOk(env, z)
  {
    forall i | 0 <= i < |q.resps| && q.resps[i].data ensures z.lease[q.resps[i].tag] > 0 {
      RespHas(q.resps, i);
    }
  }

  lemma {:induction false} RespHas(resps: seq<Resp>, i: nat)
    requires i < |resps|
    ensures resps[i].tag in RespTags(resps)
  {
    if i > 0 {
      RespHas(resps[1..], i - 1);
    }
  }

  /** A response completion that is not the last only lowers the count. */
  lemma LowerKeeps(env: Env, q: Q, full: multiset<nat>, tag: nat, z: Q)
    requires Core(env, q, full) && tag < env.nslots && q.slots.Is(tag, Responding)
    requires z == q.(inflight := z.inflight, writesOut := z.writesOut, sendOut := z.sendOut)
    requires |z.inflight| == env.nslots && |z.writesOut| == env.nslots && |z.sendOut| == env.nslots
    requires z.inflight == q.inflight[tag := z.inflight[tag]] && z.writesOut == q.writesOut[tag := z.writesOut[tag]]
    requires z.sendOut == q.sendOut[tag := z.sendOut[tag]] && TagOk(Tag(z, tag))
    ensures Core(env, z, full)
  {
    OneTag(env, q, z, tag);
    SameBufs(q, z);
  }

  lemma WriteDone(env: Env, q: Q, tag: nat, z: Q)
    requires Sized(env, q) && tag < env.nslots && q.slots.Is(tag, Responding) && TagOk(Tag(q, tag)) && q.writesOut[tag] > 0
    requires z == ResponseDone(q.(writesOut := q.writesOut[tag := 0]), tag)
    ensures q.sendOut[tag] ==>
      z == q.(writesOut := q.writesOut[tag := 0], inflight := q.inflight[tag := 1]) && TagOk(Tag(z, tag))
    ensures !q.sendOut[tag] ==> q.delivered[tag] && z == Released(q, tag)
  {
    if !q.sendOut[tag] {
      assert q.sendOut[tag := false] == q.sendOut;
    }
  }

  lemma SendDone(env: Env, q: Q, tag: nat, z: Q)
    requires Sized(env, q) && tag < env.nslots && q.slots.Is(tag, Responding) && TagOk(Tag(q, tag))
    requires q.sendOut[tag] && q.delivered[tag] && z == ResponseDone(q.(sendOut := q.sendOut[tag := false]), tag)
    ensures q.writesOut[tag] > 0 ==>
      z == q.(sendOut := q.sendOut[tag := false], inflight := q.inflight[tag := 1]) && TagOk(Tag(z, tag))
    ensures q.writesOut[tag] == 0 ==> z == Released(q, tag)
  {
    if q.writesOut[tag] == 0 {
      assert q.writesOut[tag := 0] == q.writesOut;
    }
  }

  lemma WriteKeeps(env: Env, q: Q, full: multiset<nat>, tag: nat)
    requires Core(env, q, full) && tag < env.nslots && q.writesOut[tag] > 0 && q.slots.Is(tag, Responding)
    ensures Core(env, ResponseDone(q.(writesOut := q.writesOut[tag := 0]), tag), full)
  {
    var z := ResponseDone(q.(writesOut := q.writesOut[tag := 0]), tag);
    assert TagOk(Tag(q, tag));
    WriteDone(env, q, tag, z);
    if q.sendOut[tag] {
      LowerKeeps(env, q, full, tag, z);
    } else {
      ReleaseKeeps(env, q, full, tag, z);
    }
  }

  lemma SendKeeps(env: Env, q: Q, full: multiset<nat>, tag: nat)
    requires Core(env, q, full) && tag < env.nslots && q.sendOut[tag] && q.delivered[tag] && q.slots.Is(tag, Responding)
    ensures Core(env, ResponseDone(q.(sendOut := q.sendOut[tag := false]), tag), full)
  {
    var z := ResponseDone(q.(sendOut := q.sendOut[tag := false]), tag);
    assert TagOk(Tag(q, tag));
    SendDone(env, q, tag, z);
    if q.writesOut[tag] > 0 {
      LowerKeeps(env, q, full, tag, z);
    } else {
      ReleaseKeeps(env, q, full, tag, z);
    }
  }

  lemma HandleKeeps(env: Env, q: Q, full: multiset<nat>, c: Comp)
    requires Core(env, q, full) && EnvOk(env) && Simple(full) && CompOk(env, q, c)
    requires q.slots.free != [] ==> q.slots.free[|q.slots.free| - 1] < env.nslots
    requires c.Read? ==> q.slots.Is(c.tag, Receiving)
    requires c.Write? || c.Send? ==> q.slots.Is(c.tag, Responding)
    ensures Core(env, Handle(env, q, c), full)
  {
    match c
    case Recv => RecvKeeps(env, q, full);
    case Read(tag) => ReadKeeps(env, q, full, tag);
    case Write(tag) => WriteKeeps(env, q, full, tag);
    case Send(tag) => SendKeeps(env, q, full, tag);
  }

  // ----- the drains -----

  ghost predicate Head(env: Env, q: Q) {
    q.wait != [] ==> !Fits(env, q, q.wait[0].cmd.sqe)
  }

  ghost predicate Stageable(env: Env, q: Q, w: Wait) {
    && Sized(env, q) && w.tag < env.nslots && Fits(env, q, w.cmd.sqe) && 0 < env.route(w.cmd.sqe).pages
    && q.slots.Is(w.tag, Receiving)
  }

  lemma StageFrame(env: Env, q: Q, w: Wait, rest: seq<Wait>)
    requires Stageable(env, q, w)
    ensures StageCmd(env, q, w.tag, w.cmd).(wait := rest) == StageCmd(env, q.(wait := rest), w.tag, w.cmd)
  {
  }

  /** Staging the first waiting write, which fits. */
  lemma StageFront(env: Env, q: Q, full: multiset<nat>, z: Q)
    requires Core(env, q, full) && EnvOk(env) && Simple(full) && q.wait != [] && Stageable(env, q, q.wait[0])
    requires z == StageCmd(env, q.(wait := q.wait[1..]), q.wait[0].tag, q.wait[0].cmd)
    ensures Core(env, z, full)
  {
    WaiterClaimed(env, q, full);
    StageKeeps(env, q.(wait := q.wait[1..]), full, q.wait[0].tag, q.wait[0].cmd);
  }

  lemma DrainWaitIs(env: Env, q: Q)
    requires q.wait != []
    ensures DrainWait(env, q) ==
            if Stageable(env, q, q.wait[0])
            then DrainWait(env, StageCmd(env, q.(wait := q.wait[1..]), q.wait[0].tag, q.wait[0].cmd)) else q
  {
    if Stageable(env, q, q.wait[0]) {
      StageFrame(env, q, q.wait[0], q.wait[1..]);
    }
  }

  lemma StageList(env: Env, q: Q, w: Wait)
    requires Stageable(env, q, w)
    ensures var z := StageCmd(env, q, w.tag, w.cmd); z.wait == q.wait && z.parked == q.parked
  {
  }

  /** Waiting writes are staged until the first that does not fit. */
  lemma {:induction false} DrainWaitKeeps(env: Env, q: Q, full: multiset<nat>)
    requires Core(env, q, full) && EnvOk(env) && Simple(full)
    ensures var z := DrainWait(env, q); Core(env, z, full) && Head(env, z) && z.parked == q.parked
    decreases |q.wait|
  {
    if q.wait != [] {
      var w := q.wait[0];
      WaiterIs(env, q, full);
      DrainWaitIs(env, q);
      if Stageable(env, q, w) {
        var z := StageCmd(env, q.(wait := q.wait[1..]), w.tag, w.cmd);
        StageFront(env, q, full, z);
        StageList(env, q.(wait := q.wait[1..]), w);
        DrainWaitKeeps(env, z, full);
      }
    }
  }

  lemma WaiterIs(env: Env, q: Q, full: multiset<nat>)
    requires Core(env, q, full) && EnvOk(env) && q.wait != []
    ensures var w := q.wait[0];
            w.tag < env.nslots && q.slots.Is(w.tag, Receiving) && env.route(w.cmd.sqe).Stage? && 0 < env.route(w.cmd.sqe).pages
  {
    var w := q.wait[0];
    assert TagOk(Tag(q, w.tag));
    assert WaitTags(q.wait)[0] == w.tag;
    assert w.tag in multiset(WaitTags(q.wait));
  }

  /** Routing takes pages and never gives any: the first waiting write still does not fit. */
  lemma RouteHead(env: Env, q: Q, tag: nat, cmd: Held)
    requires Sized(env, q) && tag < env.nslots && q.slots.Is(tag, Receiving) && EnvOk(env) && Head(env, q)
    ensures Head(env, RouteCmd(env, q, tag, cmd))
  {
  }

  /** Parked commands are routed until none is left or no tag is. */
  lemma {:induction false} DrainParkedKeeps(env: Env, q: Q, full: multiset<nat>)
    requires Core(env, q, full) && EnvOk(env) && Simple(full) && Head(env, q)
    ensures var z := DrainParked(env, q); Core(env, z, full) && Head(env, z) && (z.parked != [] ==> z.slots.free == [])
    decreases |q.parked|
  {
    if q.parked != [] && q.slots.free != [] {
      var q1 := q.(parked := q.parked[1..]);
      ParkedInHand(env, q, full);
      ClaimKeeps(env, q1, full, q.parked[0]);
      ClaimSound(q.slots);
      var tag := q.slots.free[|q.slots.free| - 1];
      var q2 := q.(slots := q.slots.Claim().0, parked := q.parked[1..]);
      assert q2 == q1.(slots := q1.slots.Claim().0);
      RouteKeeps(env, q2, full, tag, q.parked[0]);
      RouteKeepsSound(env, q2, tag, q.parked[0]);
      RouteHead(env, q2, tag, q.parked[0]);
      DrainParkedKeeps(env, RouteCmd(env, q2, tag, q.parked[0]), full);
    }
  }

  lemma PostOneTags(env: Env, q: Q, z: Q)
    requires Sized(env, q) && TagsOk(env, q) && q.batch != [] && q.batch[0] < env.nslots
    requires z == q.(batch := q.batch[1..], readsOut := q.readsOut[q.batch[0] := q.runs[q.batch[0]]])
    ensures Sized(env, z) && TagsOk(env, z)
  {
    var tag := q.batch[0];
    assert q.batch == [tag] + q.batch[1..];
    assert multiset(q.batch) == multiset{tag} + multiset(q.batch[1..]);
    assert TagOk(Tag(q, tag)) && Tag(q, tag).b > 0;
    OthersKeep(env, q, z, tag);
  }

  lemma PostOneRead(env: Env, q: Q, full: multiset<nat>, z: Q)
    requires Core(env, q, full) && q.batch != []
    requires z == q.(batch := q.batch[1..], readsOut := q.readsOut[q.batch[0] := q.runs[q.batch[0]]])
    ensures Core(env, z, full)
  {
    PostOneTags(env, q, z);
    SameBufs(q, z);
  }

  /** The READs posted, nothing is left to post. */
  lemma {:induction false} PostReadsKeeps(env: Env, q: Q, full: multiset<nat>)
    requires Core(env, q, full)
    ensures var z := PostReads(q);
            Core(env, z, full) && z.batch == [] && z.parked == q.parked && z.slots == q.slots && z.wait == q.wait && z.free == q.free
    decreases |q.batch|
  {
    if q.batch != [] {
      var z := q.(batch := q.batch[1..], readsOut := q.readsOut[q.batch[0] := q.runs[q.batch[0]]]);
      PostOneRead(env, q, full, z);
      PostReadsKeeps(env, z, full);
    }
  }

  // ----- steps -----

  ghost predicate CanHandle(env: Env, q: Q, c: Comp) {
    && Sized(env, q) && EnvOk(env) && CompOk(env, q, c)
    && (q.slots.free != [] ==> q.slots.free[|q.slots.free| - 1] < env.nslots)
    && (c.Read? ==> q.slots.Is(c.tag, Receiving)) && (c.Write? || c.Send? ==> q.slots.Is(c.tag, Responding))
  }

  /** Routing parked commands keeps the tables' sizes. */
  lemma {:induction false} DrainParkedSized(env: Env, q: Q)
    requires Sized(env, q) && EnvOk(env) && q.slots.Sound()
    ensures Sized(env, DrainParked(env, q))
    decreases |q.parked|
  {
    if q.parked != [] && q.slots.free != [] {
      ClaimSound(q.slots);
      var tag := q.slots.free[|q.slots.free| - 1];
      var q1 := q.(slots := q.slots.Claim().0, parked := q.parked[1..]);
      RouteKeepsSound(env, q1, tag, q.parked[0]);
      DrainParkedSized(env, RouteCmd(env, q1, tag, q.parked[0]));
    }
  }

  /** The completions of one poll, handled in order. */
  ghost function HandleAll(env: Env, q: Q, comps: seq<Comp>): Q
    decreases |comps|
  {
    if comps == [] || !CanHandle(env, q, comps[0]) then q
    else HandleAll(env, Handle(env, q, comps[0]), comps[1..])
  }

  /** Each completion of the poll is one the NIC can report when its turn comes. */
  ghost predicate Reportable(env: Env, q: Q, comps: seq<Comp>)
    decreases |comps|
  {
    comps != [] ==>
      && Sized(env, q) && CompOk(env, q, comps[0])
      && (CanHandle(env, q, comps[0]) ==> Reportable(env, Handle(env, q, comps[0]), comps[1..]))
  }

  lemma {:induction false} HandleAllKeeps(env: Env, q: Q, full: multiset<nat>, comps: seq<Comp>)
    requires Core(env, q, full) && EnvOk(env) && Simple(full) && Reportable(env, q, comps)
    ensures Core(env, HandleAll(env, q, comps), full)
    decreases |comps|
  {
    if comps != [] {
      CompLands(env, q, comps[0]);
      HandleKeeps(env, q, full, comps[0]);
      HandleAllKeeps(env, Handle(env, q, comps[0]), full, comps[1..]);
    }
  }

  lemma HandleAllIs(env: Env, q: Q, full: multiset<nat>, comps: seq<Comp>)
    requires Core(env, q, full) && EnvOk(env) && Simple(full) && Reportable(env, q, comps) && comps != []
    ensures CanHandle(env, q, comps[0])
    ensures var z := Handle(env, q, comps[0]);
            && Core(env, z, full) && Reportable(env, z, comps[1..])
            && HandleAll(env, q, comps) == HandleAll(env, z, comps[1..])
  {
    CompLands(env, q, comps[0]);
    HandleKeeps(env, q, full, comps[0]);
  }

  /** `process_cqes`: the completions, then the drains. */
  ghost function DoPoll(env: Env, q: Q, comps: seq<Comp>): Q {
    var q1 := DrainWait(env, HandleAll(env, q, comps));
    if Sized(env, q1) && EnvOk(env) && q1.slots.Sound() then
      var q2 := DrainParked(env, q1);
      if |q2.readsOut| == |q2.runs| then PostReads(q2) else q2
    else q1
  }

  lemma PollKeeps(env: Env, q: Q, full: multiset<nat>, comps: seq<Comp>)
    requires Core(env, q, full) && EnvOk(env) && Simple(full) && Reportable(env, q, comps)
    ensures Core(env, DoPoll(env, q, comps), full) && Settled(env, DoPoll(env, q, comps))
  {
    var q0 := HandleAll(env, q, comps);
    HandleAllKeeps(env, q, full, comps);
    var q1 := DrainWait(env, q0);
    DrainWaitKeeps(env, q0, full);
    var q2 := DrainParked(env, q1);
    DrainParkedKeeps(env, q1, full);
    PostReadsKeeps(env, q2, full);
  }

  ghost predicate Enabled(env: Env, q: Q, s: Step)
    requires Sized(env, q)
  {
    match s
    case HostSend(_, idx) => idx in q.posted && q.unanswered < env.nslots
    case Deliver(tag) => tag < env.nslots && q.sendOut[tag] && !q.delivered[tag] && q.unanswered > 0
    case StartCmd(tag) => q.slots.Is(tag, Ready)
    case LeaseRead(tag, pages) => q.slots.Is(tag, Executing) && q.lease[tag] == 0 && 0 < pages <= q.free && pages <= MAX_PAGES
    case Finish(tag, data) => q.slots.Is(tag, Executing) && (data ==> q.lease[tag] > 0)
    case PostResponse => q.resps != [] && q.resps[0].tag < env.nslots
    case Poll(comps) => Reportable(env, q, comps)
  }

  ghost function Apply(env: Env, q: Q, s: Step): Q
    requires Sized(env, q) && Enabled(env, q, s)
  {
    match s
    case HostSend(sqe, idx) =>
      q.(posted := q.posted - {idx}, arrived := q.arrived + [Held(sqe, Some(idx))], unanswered := q.unanswered + 1)
    case Deliver(tag) => q.(delivered := q.delivered[tag := true], unanswered := q.unanswered - 1)
    case StartCmd(tag) => q.(slots := q.slots.Start(tag))
    case LeaseRead(tag, pages) => TakeLease(env, q, tag, pages)
    case Finish(tag, data) => q.(slots := q.slots.BeginRespond(tag), resps := q.resps + [Resp(tag, data)])
    case PostResponse => PostResp(q.(resps := q.resps[1..]), q.resps[0])
    case Poll(comps) => DoPoll(env, q, comps)
  }

  ghost predicate Inv(env: Env, q: Q, full: multiset<nat>) {
    Core(env, q, full) && Settled(env, q)
  }

  lemma HostSendKeeps(env: Env, q: Q, full: multiset<nat>, sqe: Sqe, idx: nat, z: Q)
    requires Inv(env, q, full) && idx in q.posted && q.unanswered < env.nslots
    requires z == q.(posted := q.posted - {idx}, arrived := q.arrived + [Held(sqe, Some(idx))], unanswered := q.unanswered + 1)
    ensures Inv(env, z, full)
  {
    HeldBufsSnoc(q.arrived, Held(sqe, Some(idx)));
    assert multiset(q.posted) == multiset(z.posted) + multiset{idx};
    SentBuf(multiset(z.posted), multiset{idx}, HeldBufs(q.arrived), HeldBufs(q.parked), WaitBufs(q.wait));
    assert Bufs(z) == Bufs(q);
    TagsFrame(env, q, z);
  }

  lemma SentBuf(p: multiset<nat>, x: multiset<nat>, a: multiset<nat>, k: multiset<nat>, w: multiset<nat>)
    ensures p + (a + x) + k + w == (p + x) + a + k + w
  {
  }

  lemma DeliverTags(env: Env, q: Q, tag: nat, z: Q)
    requires Sized(env, q) && TagsOk(env, q) && tag < env.nslots && q.sendOut[tag] && !q.delivered[tag]
    requires z == q.(delivered := q.delivered[tag := true], unanswered := z.unanswered)
    ensures Sized(env, z) && TagsOk(env, z)
    ensures |Pending(q.slots.state, q.delivered)| == |Pending(z.slots.state, z.delivered)| + 1
  {
    assert TagOk(Tag(q, tag));
    OneTag(env, q, z, tag);
    assert Pending(q.slots.state, q.delivered) == Pending(z.slots.state, z.delivered) + {tag};
  }

  lemma DeliverKeeps(env: Env, q: Q, full: multiset<nat>, tag: nat, z: Q)
    requires Inv(env, q, full) && tag < env.nslots && q.sendOut[tag] && !q.delivered[tag] && q.unanswered > 0
    requires z == q.(delivered := q.delivered[tag := true], unanswered := q.unanswered - 1)
    ensures Inv(env, z, full)
  {
    DeliverTags(env, q, tag, z);
    SameBufs(q, z);
  }

  lemma StartKeeps(env: Env, q: Q, full: multiset<nat>, tag: nat, z: Q)
    requires Inv(env, q, full) && q.slots.Is(tag, Ready) && z == q.(slots := q.slots.Start(tag))
    ensures Inv(env, z, full)
  {
    assert TagOk(Tag(q, tag));
    StartSound(q.slots, tag);
    OneTag(env, q, z, tag);
    SameBufs(q, z);
    PendingMove(q.slots.state, q.delivered, tag, Executing);
  }

  lemma StartSound(s: SlotsView, tag: nat)
    requires s.Sound() && s.Is(tag, Ready)
    ensures s.Start(tag).Sound() && s.Start(tag).state == s.state[tag := Executing] && s.Start(tag).free == s.free
  {
    LifeSound(s, tag);
  }

  lemma LeaseReadTags(env: Env, q: Q, tag: nat, pages: nat, z: Q)
    requires Sized(env, q) && TagsOk(env, q) && q.slots.Is(tag, Executing) && 0 < pages <= q.free && pages <= MAX_PAGES
    requires z == TakeLease(env, q, tag, pages)
    ensures Sized(env, z) && TagsOk(env, z)
  {
    assert TagOk(Tag(q, tag));
    assert 0 < z.runs[tag] <= pages;
    OneTag(env, q, z, tag);
  }

  lemma LeaseReadKeeps(env: Env, q: Q, full: multiset<nat>, tag: nat, pages: nat, z: Q)
    requires Inv(env, q, full) && q.slots.Is(tag, Executing) && q.lease[tag] == 0 && 0 < pages <= q.free && pages <= MAX_PAGES
    requires z == TakeLease(env, q, tag, pages)
    ensures Inv(env, z, full)
  {
    LeaseReadTags(env, q, tag, pages, z);
    SameBufs(q, z);
    SumUpdate(q.lease, tag, pages);
  }

  lemma FinishTags(env: Env, q: Q, tag: nat, data: bool, z: Q)
    requires Sized(env, q) && TagsOk(env, q) && q.slots.Is(tag, Executing)
    requires z == q.(slots := q.slots.BeginRespond(tag), resps := q.resps + [Resp(tag, data)])
    ensures Sized(env, z) && TagsOk(env, z)
  {
    assert TagOk(Tag(q, tag));
    AnswerTags(env, q, z, tag, data);
  }

  lemma FinishKeeps(env: Env, q: Q, full: multiset<nat>, tag: nat, data: bool, z: Q)
    requires Inv(env, q, full) && q.slots.Is(tag, Executing) && (data ==> q.lease[tag] > 0)
    requires z == q.(slots := q.slots.BeginRespond(tag), resps := q.resps + [Resp(tag, data)])
    ensures Inv(env, z, full)
  {
    LifeSound(q.slots, tag);
    FinishTags(env, q, tag, data, z);
    SameBufs(q, z);
    PendingMove(q.slots.state, q.delivered, tag, Responding);
  }

  lemma PostRespTags(env: Env, q: Q, z: Q)
    requires Sized(env, q) && TagsOk(env, q) && q.resps != [] && q.resps[0].tag < env.nslots
    requires q.resps[0].data ==> q.lease[q.resps[0].tag] > 0
    requires z == PostResp(q.(resps := q.resps[1..]), q.resps[0])
    ensures Sized(env, z) && TagsOk(env, z)
  {
    var tag := q.resps[0].tag;
    assert RespTags(q.resps) == [tag] + RespTags(q.resps[1..]);
    assert multiset(RespTags(q.resps)) == multiset{tag} + multiset(RespTags(q.resps[1..]));
    assert TagOk(Tag(q, tag)) && Tag(q, tag).r > 0;
    OthersKeep(env, q, z, tag);
  }

  lemma PostRespKeeps(env: Env, q: Q, full: multiset<nat>, z: Q)
    requires Inv(env, q, full) && q.resps != [] && z == PostResp(q.(resps := q.resps[1..]), q.resps[0])
    ensures Inv(env, z, full)
  {
    PostRespTags(env, q, z);
    SameBufs(q, z);
  }

  lemma StepKeeps(env: Env, q: Q, full: multiset<nat>, s: Step)
    requires Inv(env, q, full) && EnvOk(env) && Simple(full) && Enabled(env, q, s)
    ensures Inv(env, Apply(env, q, s), full)
  {
    var z := Apply(env, q, s);
    match s
    case HostSend(sqe, idx) => HostSendKeeps(env, q, full, sqe, idx, z);
    case Deliver(tag) => DeliverKeeps(env, q, full, tag, z);
    case StartCmd(tag) => StartKeeps(env, q, full, tag, z);
    case LeaseRead(tag, pages) => LeaseReadKeeps(env, q, full, tag, pages, z);
    case Finish(tag, data) => FinishKeeps(env, q, full, tag, data, z);
    case PostResponse => PostRespKeeps(env, q, full, z);
    case Poll(comps) => PollKeeps(env, q, full, comps);
  }

  // ----- whole runs -----

  ghost predicate Init(env: Env, q: Q) {
    && Sized(env, q) && q.slots.Sound()
    && (forall t :: 0 <= t < env.nslots ==>
          && q.slots.state[t] == Free && q.lease[t] == 0 && q.runs[t] == 0 && q.readsOut[t] == 0 && q.writesOut[t] == 0
          && !q.sendOut[t] && !q.delivered[t] && q.inflight[t] == 0)
    && q.parked == [] && q.wait == [] && q.batch == [] && q.resps == [] && q.arrived == []
    && q.free == env.pool && Sum(q.lease) == 0 && |q.posted| == env.nslots && q.unanswered == 0 && !q.overflow
  }

  lemma InitKeeps(env: Env, q: Q)
    requires Init(env, q)
    ensures Inv(env, q, multiset(q.posted)) && Simple(multiset(q.posted)) && |multiset(q.posted)| == env.nslots
  {
    assert Pending(q.slots.state, q.delivered) == {};
    forall t | 0 <= t < env.nslots ensures TagOk(Tag(q, t)) {
    }
    assert Bufs(q) == multiset(q.posted);
    SetSize(q.posted);
  }

  lemma SetSize(s: set<nat>)
    ensures |multiset(s)| == |s|
  {
    if s != {} {
      var x :| x in s;
      SetSize(s - {x});
      assert multiset(s) == multiset(s - {x}) + multiset{x};
    }
  }

  ghost predicate Run(env: Env, q: Q, steps: seq<Step>, z: Q)
    decreases steps
  {
    if steps == [] then q == z
    else Sized(env, q) && Enabled(env, q, steps[0]) && Run(env, Apply(env, q, steps[0]), steps[1..], z)
  }

  lemma {:induction false} RunKeeps(env: Env, q: Q, full: multiset<nat>, steps: seq<Step>, z: Q)
    requires Inv(env, q, full) && EnvOk(env) && Simple(full) && Run(env, q, steps, z)
    ensures Inv(env, z, full)
    decreases steps
  {
    if steps != [] {
      StepKeeps(env, q, full, steps[0]);
      RunKeeps(env, Apply(env, q, steps[0]), full, steps[1..], z);
    }
  }

  // ----- the host bound -----

  lemma {:induction false} WaitersPending(env: Env, q: Q, wait: seq<Wait>, s: set<nat>)
    requires forall t: nat :: multiset(WaitTags(wait))[t] <= Bit(t in s)
    ensures |wait| <= |s|
    decreases |wait|
  {
    if wait != [] {
      var t := wait[0].tag;
      assert multiset(WaitTags(wait)) == multiset{t} + multiset(WaitTags(wait[1..]));
      assert multiset(WaitTags(wait))[t] >= 1;
      forall u: nat ensures multiset(WaitTags(wait[1..]))[u] <= Bit(u in s - {t}) {
        assert multiset(WaitTags(wait))[u] <= Bit(u in s);
      }
      WaitersPending(env, q, wait[1..], s - {t});
    }
  }

  lemma {:induction false} HeldBufsBound(h: seq<Held>)
    ensures |HeldBufs(h)| <= |h|
  {
    if h != [] {
      HeldBufsBound(h[1..]);
    }
  }

  lemma {:induction false} WaitBufsBound(w: seq<Wait>)
    ensures |WaitBufs(w)| <= |w|
  {
    if w != [] {
      WaitBufsBound(w[1..]);
    }
  }

  lemma {:induction false} WaitTagIn(wait: seq<Wait>, t: nat)
    requires t in WaitTags(wait)
    ensures exists i :: 0 <= i < |wait| && wait[i].tag == t
  {
    if wait[0].tag != t {
      WaitTagIn(wait[1..], t);
      var i :| 0 <= i < |wait[1..]| && wait[1..][i].tag == t;
      assert wait[i + 1].tag == t;
    }
  }

  /** Waiting writes are commands the host waits for, each with its own tag. */
  lemma WaitersCount(env: Env, q: Q)
    requires Sized(env, q) && ListsOk(env, q) && TagsOk(env, q)
    ensures |q.wait| <= |Pending(q.slots.state, q.delivered)|
  {
    var s := Pending(q.slots.state, q.delivered);
    forall t: nat ensures multiset(WaitTags(q.wait))[t] <= Bit(t in s) {
      if t in WaitTags(q.wait) {
        WaitTagIn(q.wait, t);
        assert TagOk(Tag(q, t));
      }
    }
    WaitersPending(env, q, q.wait, s);
  }

  lemma PostedLeft(env: Env, q: Q, full: multiset<nat>)
    requires Core(env, q, full) && |full| == env.nslots && q.unanswered < env.nslots
    ensures q.posted != {}
  {
    HeldBufsBound(q.arrived);
    HeldBufsBound(q.parked);
    WaitBufsBound(q.wait);
    WaitersCount(env, q);
    SetSize(q.posted);
    assert |Bufs(q)| == |multiset(q.posted)| + |HeldBufs(q.arrived)| + |HeldBufs(q.parked)| + |WaitBufs(q.wait)|;
  }

  /**
    Host bound: a host that keeps at most `nslots` commands unanswered never
    overflows the parking lot, and whenever it may send it finds a posted
    receive buffer.
   */
  lemma HostNeverOverruns(env: Env, q: Q, steps: seq<Step>, z: Q)
    requires Init(env, q) && EnvOk(env) && Run(env, q, steps, z)
    ensures !z.overflow
    ensures z.unanswered < env.nslots ==> z.posted != {}
  {
    InitKeeps(env, q);
    RunKeeps(env, q, multiset(q.posted), steps, z);
    if z.unanswered < env.nslots {
      PostedLeft(env, z, multiset(q.posted));
    }
  }

  // ----- deferral -----

  lemma {:induction false} SomeLease(lease: seq<nat>)
    requires Sum(lease) > 0
    ensures exists t :: 0 <= t < |lease| && lease[t] > 0
  {
    if lease[0] == 0 {
      SomeLease(lease[1..]);
      var t :| 0 <= t < |lease[1..]| && lease[1..][t] > 0;
      assert lease[t + 1] > 0;
    }
  }

  lemma LeaseOutside(env: Env, z: Q, full: multiset<nat>)
    requires Core(env, z, full) && EnvOk(env) && z.wait != [] && !Fits(env, z, z.wait[0].cmd.sqe) && env.pool >= 32
    ensures exists t :: 0 <= t < env.nslots && z.lease[t] > 0 && t !in WaitTags(z.wait)
  {
    SomeLease(z.lease);
    var t :| 0 <= t < env.nslots && z.lease[t] > 0;
    assert TagOk(Tag(z, t));
    assert t in WaitTags(z.wait) <==> multiset(WaitTags(z.wait))[t] > 0;
  }

  /**
    Deferral never stalls. Between polls a parked command means every tag is
    taken, a waiting write that the first cannot be met; and then, with a pool
    of at least 32 pages, some tag that is not waiting holds pages, so a waiting
    command never waits for another waiting one.
   */
  lemma DeferralNeverStalls(env: Env, q: Q, steps: seq<Step>, z: Q)
    requires Init(env, q) && EnvOk(env) && Run(env, q, steps, z)
    ensures z.parked != [] ==> forall t: nat :: !z.slots.Is(t, Free)
    ensures z.wait != [] ==> env.route(z.wait[0].cmd.sqe).Stage? && z.free < env.route(z.wait[0].cmd.sqe).pages
    ensures z.wait != [] && env.pool >= 32 ==>
      exists t :: 0 <= t < |z.lease| && z.lease[t] > 0 && t !in WaitTags(z.wait)
  {
    InitKeeps(env, q);
    RunKeeps(env, q, multiset(q.posted), steps, z);
    if z.parked != [] {
      forall t: nat ensures !z.slots.Is(t, Free) {
        assert t in z.slots.free <==> z.slots.Is(t, Free);
      }
    }
    if z.wait != [] && env.pool >= 32 {
      LeaseOutside(env, z, multiset(q.posted));
    }
  }

  /**
    The response count is exact: it is the signaled response WRs outstanding,
    at most a WRITE and a SEND, and a posted response has at least one, so a
    tag is released when the last completes, and only then.
   */
  lemma InflightIsExact(env: Env, q: Q, steps: seq<Step>, z: Q, t: nat)
    requires Init(env, q) && EnvOk(env) && Run(env, q, steps, z) && t < env.nslots
    ensures Sized(env, z) && z.inflight[t] == Bit(z.writesOut[t] > 0) + Bit(z.sendOut[t])
    ensures z.inflight[t] > 0 ==> z.slots.Is(t, Responding) && t !in RespTags(z.resps)
    ensures z.slots.Is(t, Responding) ==> (z.inflight[t] > 0 <==> t !in RespTags(z.resps))
  {
    InitKeeps(env, q);
    RunKeeps(env, q, multiset(q.posted), steps, z);
    assert TagOk(Tag(z, t));
    assert t in RespTags(z.resps) <==> multiset(RespTags(z.resps))[t] > 0;
  }
}
